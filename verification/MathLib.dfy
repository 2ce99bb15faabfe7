/** Fixed-point arithmetic of the lending market, over Solidity's checked uint256. */
module MathLib {
  import opened Wrappers
  import opened Words
  import opened Arithmetic

  const WAD: nat := 1_000_000_000_000_000_000

  /** The reasons for which a call reverts. Panic is Solidity's checked arithmetic. */
  datatype Error =
    | Panic
    | MaxUint128Exceeded
    | NotOwner
    | MaxLltvExceeded
    | MaxFeeExceeded
    | AlreadySet
    | IrmNotEnabled
    | LltvNotEnabled
    | MarketAlreadyCreated
    | MarketNotCreated
    | InconsistentInput
    | ZeroAssets
    | ZeroAddress
    | Unauthorized
    | InsufficientCollateral
    | InsufficientLiquidity
    | HealthyPosition
    | InvalidSignature
    | SignatureExpired
    | InvalidNonce
    | NoCode
    | InsufficientBalance
    | InsufficientAllowance
    | OracleReverted
    | IrmReverted
    | CallbackReverted

  // ---------------------------------------------------------------- rounding

  /** x * y / d, rounded down, on unbounded numbers. */
  function Down(x: nat, y: nat, d: nat): nat
    requires d > 0
  {
    x * y / d
  }

  /** x * y / d, rounded up, on unbounded numbers. */
  function Up(x: nat, y: nat, d: nat): nat
    requires d > 0
  {
    (x * y + (d - 1)) / d
  }

  /** Down is the greatest q with q * d <= x * y. */
  lemma DownBounds(x: nat, y: nat, d: nat)
    requires d > 0
    ensures Down(x, y, d) * d <= x * y < Down(x, y, d) * d + d
  {
    DivBounds(x * y, d);
  }

  /** Up is the least q with x * y <= q * d. */
  lemma UpBounds(x: nat, y: nat, d: nat)
    requires d > 0
    ensures x * y <= Up(x, y, d) * d < x * y + d
  {
    DivBounds(x * y + (d - 1), d);
  }

  /** Any q with q * d <= x * y is at most the rounded-down quotient, and conversely. */
  lemma DownGreatest(x: nat, y: nat, d: nat, q: nat)
    requires d > 0
    ensures q <= Down(x, y, d) <==> q * d <= x * y
  {
    var r := Down(x, y, d);
    DownBounds(x, y, d);
    if q <= r {
      MulMonotone(q, r, d);
    } else {
      MulMonotone(r + 1, q, d);
    }
  }

  /** Any q with x * y <= q * d is at least the rounded-up quotient, and conversely. */
  lemma UpLeast(x: nat, y: nat, d: nat, q: nat)
    requires d > 0
    ensures Up(x, y, d) <= q <==> x * y <= q * d
  {
    var r := Up(x, y, d);
    UpBounds(x, y, d);
    if r <= q {
      MulMonotone(r, q, d);
    } else {
      MulMonotone(q + 1, r, d);
    }
  }

  lemma DownAtMost(x: nat, y: nat, d: nat)
    requires d > 0
    ensures Down(x, y, d) <= x * y
  {
    DownBounds(x, y, d);
    MulMonotone(1, d, Down(x, y, d));
  }

  lemma UpAtMost(x: nat, y: nat, d: nat)
    requires d > 0
    ensures Up(x, y, d) <= x * y + (d - 1)
  {
    DownAtMost(1, x * y + (d - 1), d);
  }

  // ---------------------------------------------------------------- checked arithmetic

  function Add(x: uint256, y: uint256): Result<uint256, Error> {
    if x + y <= MAX_UINT256 then Success(x + y) else Failure(Panic)
  }

  function Sub(x: uint256, y: uint256): Result<uint256, Error> {
    if y <= x then Success(x - y) else Failure(Panic)
  }

  function Mul(x: uint256, y: uint256): Result<uint256, Error> {
    if x * y <= MAX_UINT256 then Success(x * y) else Failure(Panic)
  }

  function Add128(x: uint128, y: uint128): Result<uint128, Error> {
    if x + y <= MAX_UINT128 then Success(x + y) else Failure(Panic)
  }

  function Sub128(x: uint128, y: uint128): Result<uint128, Error> {
    if y <= x then Success(x - y) else Failure(Panic)
  }

  function MulDivDown(x: uint256, y: uint256, d: uint256): Result<uint256, Error> {
    var p :- Mul(x, y);
    if d == 0 then Failure(Panic) else DownAtMost(x, y, d); Success(Down(x, y, d))
  }

  function MulDivUp(x: uint256, y: uint256, d: uint256): Result<uint256, Error> {
    var p :- Mul(x, y);
    var e :- Sub(d, 1);
    var n :- Add(p, e);
    UpAtMost(x, y, d); Success(Up(x, y, d))
  }

  function WMulDown(x: uint256, y: uint256): Result<uint256, Error> {
    MulDivDown(x, y, WAD)
  }

  function WDivDown(x: uint256, y: uint256): Result<uint256, Error> {
    MulDivDown(x, WAD, y)
  }

  function WDivUp(x: uint256, y: uint256): Result<uint256, Error> {
    MulDivUp(x, WAD, y)
  }

  /** A product, and what is added to it before a division that rounds up, does not leave the 256 bits. */
  ghost predicate Fits(x: nat, y: nat, extra: nat) {
    x * y + extra <= MAX_UINT256
  }

  /** When the checked quotients exist, and what they are. */
  lemma DownQuotient(x: uint256, y: uint256, d: uint256)
    ensures var r := MulDivDown(x, y, d);
      (r.Success? <==> d > 0 && Fits(x, y, 0)) && (r.Success? ==> r.value == Down(x, y, d))
  {
    hide Down;
  }

  lemma UpQuotient(x: uint256, y: uint256, d: uint256)
    ensures var r := MulDivUp(x, y, d);
      (r.Success? <==> d > 0 && Fits(x, y, d - 1)) && (r.Success? ==> r.value == Up(x, y, d))
  {
    hide Up;
  }

  lemma FitsMonotone(x: nat, y: nat, extra: nat, x': nat, y': nat, extra': nat)
    requires x' <= x && y' <= y && extra' <= extra && Fits(x, y, extra)
    ensures Fits(x', y', extra')
  {
    MulMonotone(x', x, y');
    MulMonotone(y', y, x);
    assert y' * x == x * y' && y * x == x * y;
  }

  // ---------------------------------------------------------------- compounding

  /** Three terms of the expansion of e^(rate * time) - 1, on unbounded numbers. */
  function Taylor(f: nat): nat {
    f + Second(f) + Third(f)
  }

  function Second(f: nat): nat {
    Down(f, f, 2 * WAD)
  }

  function Third(f: nat): nat {
    Down(Second(f), f, 3 * WAD)
  }

  function WTaylorCompounded(x: uint256, n: uint256): Result<uint256, Error> {
    var firstTerm :- Mul(x, n);
    var secondTerm :- MulDivDown(firstTerm, firstTerm, 2 * WAD);
    var thirdTerm :- MulDivDown(secondTerm, firstTerm, 3 * WAD);
    var sum :- Add(firstTerm, secondTerm);
    Add(sum, thirdTerm)
  }

  lemma TaylorIsTheUncheckedValue(x: uint256, n: uint256)
    ensures WTaylorCompounded(x, n).Success? ==> WTaylorCompounded(x, n).value == Taylor(x * n)
    ensures Taylor(x * n) == 0 <==> x * n == 0
  {
  }

  lemma DownMonotone(x: nat, y: nat, x': nat, y': nat, d: nat)
    requires d > 0 && x <= x' && y <= y'
    ensures Down(x, y, d) <= Down(x', y', d)
  {
    var q := Down(x, y, d);
    DownBounds(x, y, d);
    MulMonotone(x, x', y);
    MulMonotone(y, y', x');
    DownGreatest(x', y', d, q);
  }

  lemma DownSuperadditive(x: nat, y: nat, x': nat, y': nat, x'': nat, y'': nat, d: nat)
    requires d > 0 && x * y + x' * y' <= x'' * y''
    ensures Down(x, y, d) + Down(x', y', d) <= Down(x'', y'', d)
  {
    DownBounds(x, y, d);
    DownBounds(x', y', d);
    var q, q' := Down(x, y, d), Down(x', y', d);
    assert (q + q') * d == q * d + q' * d;
    DownGreatest(x'', y'', d, q + q');
  }

  lemma SquareOfSum(a: nat, b: nat)
    ensures a * a + b * b <= (a + b) * (a + b)
  {
    assert (a + b) * (a + b) == a * a + b * b + 2 * (a * b);
  }

  /** A higher rate or a longer time never yields a smaller growth factor. */
  lemma TaylorMonotone(x: nat, n: nat, x': nat, n': nat)
    requires x <= x' && n <= n'
    ensures Taylor(x * n) <= Taylor(x' * n')
  {
    MulMonotone(x, x', n);
    MulMonotone(n, n', x');
    assert n * x' == x' * n;
    assert n' * x' == x' * n';
    var f, f' := x * n, x' * n';
    DownMonotone(f, f, f', f', 2 * WAD);
    DownMonotone(Second(f), f, Second(f'), f', 3 * WAD);
  }

  /** Accruing over m + n seconds at once yields at least what two accruals over m and n seconds add up to. */
  lemma TaylorSuperadditive(x: nat, m: nat, n: nat)
    ensures Taylor(x * m) + Taylor(x * n) <= Taylor(x * (m + n))
  {
    var a, b := x * m, x * n;
    assert x * (m + n) == a + b;
    SquareOfSum(a, b);
    DownSuperadditive(a, a, b, b, a + b, a + b, 2 * WAD);
    var s, t, u := Second(a), Second(b), Second(a + b);
    assert s * a + t * b <= u * (a + b) by {
      MulMonotone(s + t, u, a + b);
      assert (s + t) * (a + b) == s * a + t * b + s * b + t * a;
    }
    DownSuperadditive(s, a, t, b, u, a + b, 3 * WAD);
  }

  /** The factor is at most f + f^2/2W + f^3/6W^2, all multiplied by 6W^2. */
  lemma TaylorUpperBound(f: nat)
    ensures 6 * WAD * WAD * Taylor(f) <= 6 * WAD * WAD * f + 3 * WAD * f * f + f * f * f
  {
    var s, t := Second(f), Third(f);
    DownBounds(f, f, 2 * WAD);
    DownBounds(s, f, 3 * WAD);
    assert t * (3 * WAD) * (2 * WAD) <= s * f * (2 * WAD);
    MulMonotone(s * (2 * WAD), f * f, f);
    assert s * f * (2 * WAD) == s * (2 * WAD) * f;
  }

  /** ... and it falls short of that by less than 2 + f/3W. */
  lemma TaylorLowerBound(f: nat)
    ensures 6 * WAD * WAD * f + 3 * WAD * f * f + f * f * f
         < 6 * WAD * WAD * Taylor(f) + 12 * WAD * WAD + 2 * WAD * f
  {
    var s, t := Second(f), Third(f);
    DownBounds(f, f, 2 * WAD);
    DownBounds(s, f, 3 * WAD);
    assert s * f * (2 * WAD) < t * (3 * WAD) * (2 * WAD) + (3 * WAD) * (2 * WAD);
    MulMonotone(f * f, s * (2 * WAD) + 2 * WAD, f);
    assert (s * (2 * WAD) + 2 * WAD) * f == s * f * (2 * WAD) + 2 * WAD * f;
  }
}
