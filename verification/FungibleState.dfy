/** The token's state on one chain: balances and allowances, both in 128 bits, with no entry for zero. */
module FungibleState {
  import opened Wrappers
  import opened Words
  import opened Totals

  type Owner = nat

  datatype OwnerSpender = OwnerSpender(owner: Owner, spender: Owner)

  datatype Panic = ZeroSupply | PermissionDenied | InsufficientBalance | InsufficientAllowance | OwnerIsSpender

  function SaturatingAdd(a: uint128, b: uint128): uint128 {
    if a + b <= MAX_UINT128 then a + b else MAX_UINT128
  }

  /** A stored amount replaced by another one; zero is not stored. */
  function Put<K>(m: map<K, uint128>, k: K, v: uint128): map<K, uint128> {
    if v == 0 then m - {k} else m[k := v]
  }

  function Get<K>(m: map<K, uint128>, k: K): uint128 {
    if k in m then m[k] else 0
  }

  /** The entries that are not zero. */
  function NonZero(m: map<Owner, uint128>): map<Owner, uint128> {
    map k | k in m && m[k] != 0 :: m[k]
  }

  datatype State = State(accounts: map<Owner, uint128>, allowances: map<OwnerSpender, uint128>)
  {
    function BalanceOrDefault(account: Owner): uint128 {
      Get(accounts, account)
    }

    function Allowance(owner: Owner, spender: Owner): uint128 {
      Get(allowances, OwnerSpender(owner, spender))
    }

    function Credit(account: Owner, amount: uint128): State {
      if amount == 0 then this
      else this.(accounts := accounts[account := SaturatingAdd(BalanceOrDefault(account), amount)])
    }

    function Debit(account: Owner, amount: uint128): Result<State, Panic> {
      if amount == 0 then Success(this)
      else
        var balance := BalanceOrDefault(account);
        if amount <= balance then Success(this.(accounts := Put(accounts, account, balance - amount)))
        else Failure(InsufficientBalance)
    }

    /** Allowances are added up; a zero allowance changes nothing and checks nothing. */
    function Approve(owner: Owner, spender: Owner, allowance: uint128): Result<State, Panic> {
      if allowance == 0 then Success(this)
      else if owner == spender then Failure(OwnerIsSpender)
      else
        var total := SaturatingAdd(Allowance(owner, spender), allowance);
        Success(this.(allowances := allowances[OwnerSpender(owner, spender) := total]))
    }

    function DebitForTransferFrom(owner: Owner, spender: Owner, amount: uint128): Result<State, Panic> {
      if amount == 0 then Success(this)
      else
        var debited :- Debit(owner, amount);
        if owner == spender then Failure(OwnerIsSpender)
        else if amount <= Allowance(owner, spender) then
          var left := Allowance(owner, spender) - amount;
          Success(debited.(allowances := Put(allowances, OwnerSpender(owner, spender), left)))
        else Failure(InsufficientAllowance)
    }

    /** No balance and no allowance of zero is stored. */
    ghost predicate NoZeros() {
      (forall o :: o in accounts ==> accounts[o] != 0) && (forall k :: k in allowances ==> allowances[k] != 0)
    }

    ghost function Holdings(): int {
      Total<Owner>(accounts)
    }

    /** What spenders together may still take from an owner. */
    ghost function Spendable(owner: Owner): int {
      Total<OwnerSpender>(AllowancesOf(owner))
    }

    ghost function AllowancesOf(owner: Owner): map<OwnerSpender, int> {
      map k | k in allowances && k.owner == owner :: allowances[k]
    }
  }

  const EMPTY := State(map[], map[])

  // ---------------------------------------------------------------- properties

  lemma PutTotal<K>(m: map<K, uint128>, k: K, v: uint128)
    ensures Total<K>(Put(m, k, v)) == Total<K>(m) - Get(m, k) + v
  {
    if v == 0 {
      TotalWithout<K>(m, k);
    } else {
      TotalUpdate<K>(m, k, v);
    }
  }

  lemma PutTwice<K>(m: map<K, uint128>, k: K, v: uint128)
    requires Get(m, k) != 0
    ensures Put(m, k, v)[k := Get(m, k)] == m
  {
  }

  /** A credit adds up to the cap and nothing else changes; below the cap nothing is lost. */
  lemma CreditFacts(s: State, account: Owner, amount: uint128)
    ensures var s' := s.Credit(account, amount);
      && s'.allowances == s.allowances
      && s'.BalanceOrDefault(account) == SaturatingAdd(s.BalanceOrDefault(account), amount)
      && (forall o: Owner :: o != account ==> s'.BalanceOrDefault(o) == s.BalanceOrDefault(o))
      && (s.NoZeros() ==> s'.NoZeros())
      && s.Holdings() <= s'.Holdings() <= s.Holdings() + amount
      && (s'.Holdings() == s.Holdings() + amount <==> s.BalanceOrDefault(account) + amount <= MAX_UINT128)
  {
    if amount != 0 {
      TotalUpdate<Owner>(s.accounts, account, SaturatingAdd(s.BalanceOrDefault(account), amount));
    }
  }

  lemma DebitFacts(s: State, account: Owner, amount: uint128)
    ensures var r := s.Debit(account, amount);
      && (r.Success? <==> amount <= s.BalanceOrDefault(account))
      && (r.Success? ==>
        && r.value.allowances == s.allowances
        && r.value.BalanceOrDefault(account) == s.BalanceOrDefault(account) - amount
        && (forall o: Owner :: o != account ==> r.value.BalanceOrDefault(o) == s.BalanceOrDefault(o))
        && (s.NoZeros() ==> r.value.NoZeros())
        && r.value.Holdings() == s.Holdings() - amount)
  {
    if 0 < amount <= s.BalanceOrDefault(account) {
      PutTotal(s.accounts, account, s.BalanceOrDefault(account) - amount);
    }
  }

  /** A debit of a spender lowers the balance and the allowance by the same amount. */
  lemma DebitForTransferFromFacts(s: State, owner: Owner, spender: Owner, amount: uint128)
    ensures var r := s.DebitForTransferFrom(owner, spender, amount);
      && (r.Success? <==>
        amount == 0 || (owner != spender && amount <= s.BalanceOrDefault(owner)
            && amount <= s.Allowance(owner, spender)))
      && (r.Success? ==>
        && r.value.BalanceOrDefault(owner) == s.BalanceOrDefault(owner) - amount
        && r.value.Allowance(owner, spender) == s.Allowance(owner, spender) - amount
        && (forall o: Owner :: o != owner ==> r.value.BalanceOrDefault(o) == s.BalanceOrDefault(o))
        && (forall o: Owner, p: Owner :: (o, p) != (owner, spender) ==> r.value.Allowance(o, p) == s.Allowance(o, p))
        && (s.NoZeros() ==> r.value.NoZeros())
        && r.value.Holdings() == s.Holdings() - amount)
  {
    DebitFacts(s, owner, amount);
  }

  lemma ApproveFacts(s: State, owner: Owner, spender: Owner, allowance: uint128)
    ensures var r := s.Approve(owner, spender, allowance);
      && (r.Success? <==> allowance == 0 || owner != spender)
      && (r.Success? ==>
        && r.value.accounts == s.accounts
        && r.value.Allowance(owner, spender) == SaturatingAdd(s.Allowance(owner, spender), allowance)
        && (forall o: Owner, p: Owner :: (o, p) != (owner, spender) ==> r.value.Allowance(o, p) == s.Allowance(o, p))
        && (s.NoZeros() ==> r.value.NoZeros()))
  {
  }

  /** A debit that a credit follows is undone, even where the debit removed the account. */
  lemma CreditUndoesDebit(s: State, account: Owner, amount: uint128)
    requires s.Debit(account, amount).Success?
    ensures s.Debit(account, amount).value.Credit(account, amount) == s
  {
    if amount != 0 {
      PutTwice(s.accounts, account, s.BalanceOrDefault(account) - amount);
    }
  }

  lemma TransferFromSpends(s: State, owner: Owner, spender: Owner, amount: uint128, o: Owner)
    requires s.DebitForTransferFrom(owner, spender, amount).Success?
    ensures var s' := s.DebitForTransferFrom(owner, spender, amount).value;
      s'.Spendable(o) == s.Spendable(o) - (if o == owner then amount else 0)
  {
    var s' := s.DebitForTransferFrom(owner, spender, amount).value;
    if amount == 0 {
    } else if o == owner {
      var k := OwnerSpender(owner, spender);
      AllowanceMoves(s, s', k, s.Allowance(owner, spender) - amount);
    } else {
      assert s'.AllowancesOf(o) == s.AllowancesOf(o);
    }
  }

  lemma ApproveGrants(s: State, owner: Owner, spender: Owner, allowance: uint128, o: Owner)
    requires s.Approve(owner, spender, allowance).Success?
    ensures var s' := s.Approve(owner, spender, allowance).value;
      s.Spendable(o) <= s'.Spendable(o) <= s.Spendable(o) + if o == owner then allowance else 0
  {
    var s' := s.Approve(owner, spender, allowance).value;
    if allowance == 0 {
    } else if o == owner {
      AllowanceMoves(s, s', OwnerSpender(owner, spender), s'.Allowance(owner, spender));
    } else {
      assert s'.AllowancesOf(o) == s.AllowancesOf(o);
    }
  }

  lemma AllowanceMoves(s: State, s': State, k: OwnerSpender, v: uint128)
    requires s'.allowances == Put(s.allowances, k, v)
    ensures s'.Spendable(k.owner) == s.Spendable(k.owner) - Get(s.allowances, k) + v
  {
    var m, m' := s.AllowancesOf(k.owner), s'.AllowancesOf(k.owner);
    if v == 0 {
      assert m' == m - {k};
      TotalWithout<OwnerSpender>(m, k);
    } else {
      assert m' == m[k := v];
      TotalUpdate<OwnerSpender>(m, k, v);
    }
  }

  /** Zero entries do not count. */
  lemma {:induction false} NonZeroTotal(m: map<Owner, uint128>)
    ensures Total<Owner>(NonZero(m)) == Total<Owner>(m)
    decreases |m|
  {
    if m != map[] {
      var k :| k in m;
      NonZeroTotal(m - {k});
      TotalWithout<Owner>(m, k);
      TotalWithout<Owner>(NonZero(m), k);
      assert NonZero(m - {k}) == NonZero(m) - {k};
    }
  }

  // ---------------------------------------------------------------- the storage view

  class FungibleTokenState {
    var accounts: map<Owner, uint128>
    var allowances: map<OwnerSpender, uint128>

    constructor (stored: State)
      ensures View() == stored
    {
      accounts, allowances := stored.accounts, stored.allowances;
    }

    function View(): State
      reads this
    {
      State(accounts, allowances)
    }

    method InitializeAccounts(state: map<Owner, uint128>)
      modifies this`accounts
      ensures accounts == old(accounts) + NonZero(state)
    {
      var rest := state.Keys;
      while rest != {}
        invariant rest <= state.Keys
        invariant forall k :: k in accounts <==> k in old(accounts) || (k in NonZero(state) && k !in rest)
        invariant forall k :: k in accounts ==>
          accounts[k] == if k in NonZero(state) && k !in rest then state[k] else old(accounts)[k]
        decreases |rest|
      {
        var k :| k in rest;
        if state[k] != 0 {
          accounts := accounts[k := state[k]];
        }
        rest := rest - {k};
      }
    }

    method Approve(owner: Owner, spender: Owner, allowance: uint128) returns (r: Result<(), Panic>)
      modifies this
      ensures match old(View()).Approve(owner, spender, allowance)
              case Success(s) => r == Success(()) && View() == s
              case Failure(e) => r == Failure(e)
    {
      if allowance == 0 {
        return Success(());
      }
      if owner == spender {
        return Failure(OwnerIsSpender);
      }
      var ownerSpender := OwnerSpender(owner, spender);
      var totalAllowance := Get(allowances, ownerSpender);
      allowances := allowances[ownerSpender := SaturatingAdd(totalAllowance, allowance)];
      r := Success(());
    }

    /** The balance is written before the allowance is looked at; a panic then discards the whole view. */
    method DebitForTransferFrom(owner: Owner, spender: Owner, amount: uint128) returns (r: Result<(), Panic>)
      modifies this
      ensures match old(View()).DebitForTransferFrom(owner, spender, amount)
              case Success(s) => r == Success(()) && View() == s
              case Failure(e) => r == Failure(e)
    {
      if amount == 0 {
        return Success(());
      }
      var balance := Get(accounts, owner);
      if balance < amount {
        return Failure(InsufficientBalance);
      }
      balance := balance - amount;
      if balance == 0 {
        accounts := accounts - {owner};
      } else {
        accounts := accounts[owner := balance];
      }
      if owner == spender {
        return Failure(OwnerIsSpender);
      }
      var ownerSpender := OwnerSpender(owner, spender);
      var allowance := Get(allowances, ownerSpender);
      if allowance < amount {
        return Failure(InsufficientAllowance);
      }
      allowance := allowance - amount;
      if allowance == 0 {
        allowances := allowances - {ownerSpender};
      } else {
        allowances := allowances[ownerSpender := allowance];
      }
      r := Success(());
    }

    method Credit(account: Owner, amount: uint128)
      modifies this
      ensures View() == old(View()).Credit(account, amount)
    {
      if amount == 0 {
        return;
      }
      var balance := View().BalanceOrDefault(account);
      accounts := accounts[account := SaturatingAdd(balance, amount)];
    }

    method Debit(account: Owner, amount: uint128) returns (r: Result<(), Panic>)
      modifies this
      ensures match old(View()).Debit(account, amount)
              case Success(s) => r == Success(()) && View() == s
              case Failure(e) => r == Failure(e)
    {
      if amount == 0 {
        return Success(());
      }
      var balance := View().BalanceOrDefault(account);
      if balance < amount {
        return Failure(InsufficientBalance);
      }
      balance := balance - amount;
      if balance == 0 {
        accounts := accounts - {account};
      } else {
        accounts := accounts[account := balance];
      }
      r := Success(());
    }
  }
}
