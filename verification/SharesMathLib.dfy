/** Conversions between assets and shares with virtual assets and virtual shares. */
module SharesMathLib {
  import opened Wrappers
  import opened Words
  import opened Arithmetic
  import opened MathLib

  const VIRTUAL_SHARES: nat := 1_000_000
  const VIRTUAL_ASSETS: nat := 1

  function ToSharesDown(assets: uint256, totalAssets: uint256, totalShares: uint256): Result<uint256, Error> {
    var s :- Add(totalShares, VIRTUAL_SHARES);
    var a :- Add(totalAssets, VIRTUAL_ASSETS);
    MulDivDown(assets, s, a)
  }

  function ToAssetsDown(shares: uint256, totalAssets: uint256, totalShares: uint256): Result<uint256, Error> {
    var a :- Add(totalAssets, VIRTUAL_ASSETS);
    var s :- Add(totalShares, VIRTUAL_SHARES);
    MulDivDown(shares, a, s)
  }

  function ToSharesUp(assets: uint256, totalAssets: uint256, totalShares: uint256): Result<uint256, Error> {
    var s :- Add(totalShares, VIRTUAL_SHARES);
    var a :- Add(totalAssets, VIRTUAL_ASSETS);
    MulDivUp(assets, s, a)
  }

  function ToAssetsUp(shares: uint256, totalAssets: uint256, totalShares: uint256): Result<uint256, Error> {
    var a :- Add(totalAssets, VIRTUAL_ASSETS);
    var s :- Add(totalShares, VIRTUAL_SHARES);
    MulDivUp(shares, a, s)
  }

  /** When the checked conversions of an amount exist, and what they are. */
  lemma SharesDown(x: uint256, totalAssets: uint128, totalShares: uint128)
    ensures var r, a, s := ToSharesDown(x, totalAssets, totalShares), totalAssets + 1, totalShares + VIRTUAL_SHARES;
      (r.Success? <==> Fits(x, s, 0)) && (r.Success? ==> r.value == Down(x, s, a))
  {
    hide Down, MulDivDown, Fits;
    var a, s := totalAssets + VIRTUAL_ASSETS, totalShares + VIRTUAL_SHARES;
    DownQuotient(x, s, a);
  }

  lemma AssetsDown(x: uint256, totalAssets: uint128, totalShares: uint128)
    ensures var r, a, s := ToAssetsDown(x, totalAssets, totalShares), totalAssets + 1, totalShares + VIRTUAL_SHARES;
      (r.Success? <==> Fits(x, a, 0)) && (r.Success? ==> r.value == Down(x, a, s))
  {
    hide Down, MulDivDown, Fits;
    var a, s := totalAssets + VIRTUAL_ASSETS, totalShares + VIRTUAL_SHARES;
    DownQuotient(x, a, s);
  }

  lemma SharesUp(x: uint256, totalAssets: uint128, totalShares: uint128)
    ensures var r, a, s := ToSharesUp(x, totalAssets, totalShares), totalAssets + 1, totalShares + VIRTUAL_SHARES;
      (r.Success? <==> Fits(x, s, a - 1)) && (r.Success? ==> r.value == Up(x, s, a))
  {
    hide Up, MulDivUp, Fits;
    var a, s := totalAssets + VIRTUAL_ASSETS, totalShares + VIRTUAL_SHARES;
    UpQuotient(x, s, a);
  }

  lemma AssetsUp(x: uint256, totalAssets: uint128, totalShares: uint128)
    ensures var r, a, s := ToAssetsUp(x, totalAssets, totalShares), totalAssets + 1, totalShares + VIRTUAL_SHARES;
      (r.Success? <==> Fits(x, a, s - 1)) && (r.Success? ==> r.value == Up(x, a, s))
  {
    hide Up, MulDivUp, Fits;
    var a, s := totalAssets + VIRTUAL_ASSETS, totalShares + VIRTUAL_SHARES;
    UpQuotient(x, a, s);
  }

  /** What `shares` owe or are worth, on unbounded numbers, rounded up or down. */
  function OwedUp(shares: nat, totalAssets: nat, totalShares: nat): nat {
    Up(shares, totalAssets + VIRTUAL_ASSETS, totalShares + VIRTUAL_SHARES)
  }

  function WorthDown(shares: nat, totalAssets: nat, totalShares: nat): nat {
    Down(shares, totalAssets + VIRTUAL_ASSETS, totalShares + VIRTUAL_SHARES)
  }

  /** The share price a/s is at most a'/s', cross-multiplied and with the virtual amounts included. */
  ghost predicate PriceLeq(a: nat, s: nat, a': nat, s': nat) {
    (a + VIRTUAL_ASSETS) * (s' + VIRTUAL_SHARES) <= (a' + VIRTUAL_ASSETS) * (s + VIRTUAL_SHARES)
  }

  lemma PriceLeqTransitive(a: nat, s: nat, a': nat, s': nat, a'': nat, s'': nat)
    requires PriceLeq(a, s, a', s') && PriceLeq(a', s', a'', s'')
    ensures PriceLeq(a, s, a'', s'')
  {
    FractionTransitive(a + 1, s + VIRTUAL_SHARES, a' + 1, s' + VIRTUAL_SHARES, a'' + 1, s'' + VIRTUAL_SHARES);
  }

  lemma FractionTransitive(a: nat, s: nat, b: nat, t: nat, c: nat, u: nat)
    requires t > 0 && a * t <= b * s && b * u <= c * t
    ensures a * u <= c * s
  {
    MulMonotone(a * t, b * s, u);
    MulMonotone(b * u, c * t, s);
    assert (a * u) * t == a * t * u;
    assert (c * s) * t == c * t * s;
    assert b * s * u == b * u * s;
    MulCancel(a * u, c * s, t);
  }

  /** A higher price makes the same shares worth at least as much ... */
  lemma WorthMonotone(x: nat, x': nat, a: nat, s: nat, a': nat, s': nat)
    requires x <= x' && PriceLeq(a, s, a', s')
    ensures WorthDown(x, a, s) <= WorthDown(x', a', s')
  {
    var q := WorthDown(x, a, s);
    DownBounds(x, a + 1, s + VIRTUAL_SHARES);
    FractionTransitive(q, x, a + 1, s + VIRTUAL_SHARES, a' + 1, s' + VIRTUAL_SHARES);
    MulMonotone(x, x', a' + 1);
    assert (a' + 1) * x == x * (a' + 1);
    DownGreatest(x', a' + 1, s' + VIRTUAL_SHARES, q);
  }

  /** ... and a lower price makes the same debt at most as large. */
  lemma OwedMonotone(x: nat, x': nat, a: nat, s: nat, a': nat, s': nat)
    requires x' <= x && PriceLeq(a', s', a, s)
    ensures OwedUp(x', a', s') <= OwedUp(x, a, s)
  {
    var q := OwedUp(x, a, s);
    UpBounds(x, a + 1, s + VIRTUAL_SHARES);
    assert (a + 1) * x == x * (a + 1);
    FractionTransitive(a' + 1, s' + VIRTUAL_SHARES, a + 1, s + VIRTUAL_SHARES, q, x);
    MulMonotone(x', x, a' + 1);
    assert (a' + 1) * x == x * (a' + 1);
    UpLeast(x', a' + 1, s' + VIRTUAL_SHARES, q);
  }

  /** A debt of at least one share is rounded up to at least one asset, and only a zero debt owes nothing. */
  lemma OwedPositive(x: nat, a: nat, s: nat)
    ensures OwedUp(x, a, s) == 0 <==> x == 0
  {
    UpLeast(x, a + 1, s + VIRTUAL_SHARES, 0);
    if x > 0 {
      MulMonotone(1, x, a + 1);
    }
  }

  /** Shares among the total are never worth more than the total assets, and owe at most one asset more. */
  lemma ShareOfTotal(x: nat, a: nat, s: nat)
    requires x <= s
    ensures WorthDown(x, a, s) <= a
    ensures OwedUp(x, a, s) <= a + 1
  {
    var d := s + VIRTUAL_SHARES;
    MulMonotone(x, d - 1, a + 1);
    assert (d - 1) * (a + 1) == d * (a + 1) - (a + 1);
    assert d * (a + 1) == (a + 1) * d;
    DownGreatest(x, a + 1, d, a + 1);
    UpLeast(x, a + 1, d, a + 1);
  }

  /** Minting shares for an inflow: with share amount rounded against the caller the price does not fall. */
  lemma MintKeepsPrice(a: nat, s: nat, da: nat, ds: nat)
    requires ds * (a + 1) <= da * (s + VIRTUAL_SHARES)
    ensures PriceLeq(a, s, a + da, s + ds)
  {
  }

  /** Minting debt for an outflow rounded against the borrower: the debt price does not rise. */
  lemma MintKeepsDebtPrice(a: nat, s: nat, da: nat, ds: nat)
    requires da * (s + VIRTUAL_SHARES) <= ds * (a + 1)
    ensures PriceLeq(a + da, s + ds, a, s)
  {
  }

  /** Burning shares for an outflow rounded against the caller: the price does not fall. */
  lemma BurnKeepsPrice(a: nat, s: nat, da: nat, ds: nat)
    requires da <= a && ds <= s
    requires da * (s + VIRTUAL_SHARES) <= ds * (a + 1)
    ensures PriceLeq(a, s, a - da, s - ds)
  {
    assert (a - da + 1) * (s + VIRTUAL_SHARES) == (a + 1) * (s + VIRTUAL_SHARES) - da * (s + VIRTUAL_SHARES);
    assert (a + 1) * (s - ds + VIRTUAL_SHARES) == (a + 1) * (s + VIRTUAL_SHARES) - ds * (a + 1);
  }

  /** Burning debt against an inflow rounded against the payer: the debt price does not rise. */
  lemma BurnKeepsDebtPrice(a: nat, s: nat, da: nat, ds: nat)
    requires da <= a && ds <= s
    requires ds * (a + 1) <= da * (s + VIRTUAL_SHARES)
    ensures PriceLeq(a - da, s - ds, a, s)
  {
    assert (a - da + 1) * (s + VIRTUAL_SHARES) == (a + 1) * (s + VIRTUAL_SHARES) - da * (s + VIRTUAL_SHARES);
    assert (a + 1) * (s - ds + VIRTUAL_SHARES) == (a + 1) * (s + VIRTUAL_SHARES) - ds * (a + 1);
  }

  /**
   * Burning debt floors the total at zero, which can raise the debt price. Even so the rounded-up debt of
   * shares that remain never rises: with the total at zero it is at most one asset, which it was before.
   */
  lemma BurnKeepsOwed(x: nat, x': nat, a: nat, s: nat, da: nat, ds: nat)
    requires ds <= s && x' <= x && x' <= s - ds
    requires ds * (a + 1) <= da * (s + VIRTUAL_SHARES)
    ensures OwedUp(x', if a > da then a - da else 0, s - ds) <= OwedUp(x, a, s)
  {
    if a >= da {
      BurnKeepsDebtPrice(a, s, da, ds);
      OwedMonotone(x, x', a, s, a - da, s - ds);
    } else {
      ShareOfTotal(x', 0, s - ds);
      OwedPositive(x, a, s);
      OwedPositive(x', 0, s - ds);
    }
  }

  // ---------------------------------------------------------------- there and back

  /** Shares minted for an inflow redeem for no more than it ... */
  lemma MintedRedeemForNoMore(a: nat, s: nat, da: nat, ds: nat)
    requires ds * (a + 1) <= da * (s + VIRTUAL_SHARES)
    ensures WorthDown(ds, a + da, s + ds) <= da
  {
    hide Down;
    var d := s + ds + VIRTUAL_SHARES;
    DownBounds(ds, a + da + 1, d);
    assert ds * (a + da + 1) == ds * (a + 1) + da * ds;
    assert da * d == da * (s + VIRTUAL_SHARES) + da * ds;
    MulCancel(WorthDown(ds, a + da, s + ds), da, d);
  }

  /** ... and for less than one asset less, and what the rounding of the shares took. */
  lemma MintedRedeemForNearly(a: nat, s: nat, da: nat, ds: nat, slack: nat)
    requires da * (s + VIRTUAL_SHARES) < ds * (a + 1) + slack
    ensures da * (s + ds + VIRTUAL_SHARES) < (WorthDown(ds, a + da, s + ds) + 1) * (s + ds + VIRTUAL_SHARES) + slack
    ensures slack <= s + VIRTUAL_SHARES ==> da <= WorthDown(ds, a + da, s + ds) + 1
  {
    hide Down;
    var d, q := s + ds + VIRTUAL_SHARES, WorthDown(ds, a + da, s + ds);
    DownBounds(ds, a + da + 1, d);
    assert ds * (a + da + 1) == ds * (a + 1) + da * ds;
    assert da * d == da * (s + VIRTUAL_SHARES) + da * ds;
    assert (q + 1) * d == q * d + d;
    if slack <= s + VIRTUAL_SHARES {
      assert (q + 2) * d == (q + 1) * d + d;
      MulCancelStrict(da, q + 2, d);
    }
  }

  /** Shares of debt minted for an outflow cost no less than it ... */
  lemma BorrowedCostNoLess(a: nat, s: nat, da: nat, ds: nat)
    requires da * (s + VIRTUAL_SHARES) <= ds * (a + 1)
    ensures da <= OwedUp(ds, a + da, s + ds)
  {
    hide Up;
    var d := s + ds + VIRTUAL_SHARES;
    UpBounds(ds, a + da + 1, d);
    assert ds * (a + da + 1) == ds * (a + 1) + da * ds;
    assert da * d == da * (s + VIRTUAL_SHARES) + da * ds;
    MulCancel(da, OwedUp(ds, a + da, s + ds), d);
  }

  /** ... and less than one asset more, and what the rounding of the shares added. */
  lemma BorrowedCostNearly(a: nat, s: nat, da: nat, ds: nat, slack: nat)
    requires ds * (a + 1) < da * (s + VIRTUAL_SHARES) + slack
    ensures OwedUp(ds, a + da, s + ds) * (s + ds + VIRTUAL_SHARES) < (da + 1) * (s + ds + VIRTUAL_SHARES) + slack
    ensures slack <= s + VIRTUAL_SHARES ==> OwedUp(ds, a + da, s + ds) <= da + 1
  {
    hide Up;
    var d, c := s + ds + VIRTUAL_SHARES, OwedUp(ds, a + da, s + ds);
    UpBounds(ds, a + da + 1, d);
    assert ds * (a + da + 1) == ds * (a + 1) + da * ds;
    assert da * d == da * (s + VIRTUAL_SHARES) + da * ds;
    assert (da + 1) * d == da * d + d;
    if slack <= s + VIRTUAL_SHARES {
      assert (da + 2) * d == (da + 1) * d + d;
      MulCancelStrict(c, da + 2, d);
    }
  }
}
