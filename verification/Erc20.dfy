/** The test token: balances, allowances and a total supply, all checked uint256. */
module Erc20 {
  import opened Wrappers
  import opened Words
  import opened MathLib
  import opened Totals

  /** The storage of one token. Absent entries are zero, as in a Solidity mapping. */
  datatype Ledger = Ledger(
    totalSupply: uint256,
    balanceOf: map<Address, uint256>,
    allowance: map<(Address, Address), uint256>)
  {
    function Balance(account: Address): uint256 {
      if account in balanceOf then balanceOf[account] else 0
    }

    function Allowance(owner: Address, spender: Address): uint256 {
      if (owner, spender) in allowance then allowance[(owner, spender)] else 0
    }

    /** The balances add up to the total supply. */
    ghost predicate Backed() {
      Total<Address>(balanceOf) == totalSupply
    }

    /** Both `transfer` and `transferFrom` end with these three statements. */
    function Move(from: Address, to: Address, amount: uint256): Result<Ledger, Error> {
      var funded := Balance(from) >= amount;
      :- Need(funded, InsufficientBalance);
      var debited := this.(balanceOf := balanceOf[from := Balance(from) - amount]);
      var credited :- Add(debited.Balance(to), amount);
      Success(debited.(balanceOf := debited.balanceOf[to := credited]))
    }

    function Transfer(sender: Address, to: Address, amount: uint256): Result<Ledger, Error> {
      Move(sender, to, amount)
    }

    function TransferFrom(sender: Address, from: Address, to: Address, amount: uint256): Result<Ledger, Error> {
      var allowed := Allowance(from, sender) >= amount;
      :- Need(allowed, InsufficientAllowance);
      var spent := this.(allowance := allowance[(from, sender) := Allowance(from, sender) - amount]);
      spent.Move(from, to, amount)
    }

    function Approve(sender: Address, spender: Address, amount: uint256): Ledger {
      this.(allowance := allowance[(sender, spender) := amount])
    }

    function SetBalance(account: Address, amount: uint256): Result<Ledger, Error> {
      var balance := Balance(account);
      var totalSupply :-
        if amount > balance then Add(totalSupply, amount - balance) else Sub(totalSupply, balance - amount);
      Success(this.(totalSupply := totalSupply, balanceOf := balanceOf[account := amount]))
    }
  }

  // ---------------------------------------------------------------- properties

  /** A move takes exactly `amount` from one account to the other and touches no third balance. */
  lemma MoveFacts(l: Ledger, from: Address, to: Address, amount: uint256)
    requires l.Move(from, to, amount).Success?
    ensures var l' := l.Move(from, to, amount).value;
      && l'.allowance == l.allowance
      && l'.totalSupply == l.totalSupply
      && (from != to ==> l'.Balance(from) == l.Balance(from) - amount && l'.Balance(to) == l.Balance(to) + amount)
      && (forall a: Address :: (a != from && a != to) || from == to ==> l'.Balance(a) == l.Balance(a))
      && (l.Backed() ==> l'.Backed())
  {
    var debited := l.balanceOf[from := l.Balance(from) - amount];
    TotalUpdate<Address>(l.balanceOf, from, l.Balance(from) - amount);
    TotalUpdate<Address>(debited, to, (if to in debited then debited[to] else 0) + amount);
  }

  /** With balances adding up to the supply the credit cannot overflow: only the balance check can fail. */
  lemma MoveSucceeds(l: Ledger, from: Address, to: Address, amount: uint256)
    requires l.Backed()
    ensures l.Move(from, to, amount).Success? <==> amount <= l.Balance(from)
  {
    if amount <= l.Balance(from) {
      var debited := l.balanceOf[from := l.Balance(from) - amount];
      TotalUpdate<Address>(l.balanceOf, from, l.Balance(from) - amount);
      if to in debited {
        TotalAtLeast<Address>(debited, to);
      } else {
        TotalNonNegative<Address>(debited);
      }
    }
  }

  lemma TransferFromFacts(l: Ledger, sender: Address, from: Address, to: Address, amount: uint256)
    requires l.TransferFrom(sender, from, to, amount).Success?
    ensures var l' := l.TransferFrom(sender, from, to, amount).value;
      && amount <= l.Allowance(from, sender)
      && l'.Allowance(from, sender) == l.Allowance(from, sender) - amount
      && (forall o: Address, s: Address :: (o, s) != (from, sender) ==> l'.Allowance(o, s) == l.Allowance(o, s))
      && (from != to ==> l'.Balance(from) == l.Balance(from) - amount && l'.Balance(to) == l.Balance(to) + amount)
      && (forall a: Address :: (a != from && a != to) || from == to ==> l'.Balance(a) == l.Balance(a))
      && (l.Backed() ==> l'.Backed())
  {
    var spent := l.(allowance := l.allowance[(from, sender) := l.Allowance(from, sender) - amount]);
    MoveFacts(spent, from, to, amount);
    assert forall a: Address :: spent.Balance(a) == l.Balance(a);
  }

  /** An approval replaces the one before it, whatever that was. */
  lemma ApproveFacts(l: Ledger, sender: Address, spender: Address, amount: uint256)
    ensures var l' := l.Approve(sender, spender, amount);
      && (forall o: Address, s: Address ::
          l'.Allowance(o, s) == if (o, s) == (sender, spender) then amount else l.Allowance(o, s))
      && l' == l.(allowance := l'.allowance)
  {
  }

  /** Setting a balance keeps the total supply equal to the sum, and never underflows while it is. */
  lemma SetBalanceFacts(l: Ledger, account: Address, amount: uint256)
    requires l.Backed()
    ensures var r := l.SetBalance(account, amount);
      && (r.Success? <==> l.totalSupply - l.Balance(account) + amount <= MAX_UINT256)
      && (r.Success? ==> r.value.Backed() && r.value.Balance(account) == amount)
      && (r.Success? ==> forall a: Address :: a != account ==> r.value.Balance(a) == l.Balance(a))
  {
    TotalUpdate<Address>(l.balanceOf, account, amount);
    if account in l.balanceOf {
      TotalAtLeast<Address>(l.balanceOf, account);
    }
  }

  // ---------------------------------------------------------------- the contract

  class ERC20Mock {
    var totalSupply: uint256
    var balanceOf: map<Address, uint256>
    var allowance: map<(Address, Address), uint256>

    constructor ()
      ensures View() == Ledger(0, map[], map[])
    {
      totalSupply, balanceOf, allowance := 0, map[], map[];
    }

    function View(): Ledger
      reads this
    {
      Ledger(totalSupply, balanceOf, allowance)
    }

    method SetBalance(account: Address, amount: uint256) returns (r: Result<(), Error>)
      modifies this
      ensures r.Success? <==> old(View()).SetBalance(account, amount).Success?
      ensures r.Success? ==> View() == old(View()).SetBalance(account, amount).value
      ensures r.Failure? ==> View() == old(View())
    {
      var balance := View().Balance(account);
      if amount > balance {
        var sum :- Add(totalSupply, amount - balance);
        totalSupply := sum;
      } else {
        var difference :- Sub(totalSupply, balance - amount);
        totalSupply := difference;
      }
      balanceOf := balanceOf[account := amount];
      r := Success(());
    }

    method Approve(sender: Address, spender: Address, amount: uint256) returns (ok: bool)
      modifies this
      ensures ok && View() == old(View()).Approve(sender, spender, amount)
    {
      allowance := allowance[(sender, spender) := amount];
      ok := true;
    }

    /** A revert leaves the storage as it was. */
    method Transfer(sender: Address, to: Address, amount: uint256) returns (r: Result<bool, Error>)
      modifies this
      ensures r.Success? <==> old(View()).Transfer(sender, to, amount).Success?
      ensures r.Success? ==> r.value && View() == old(View()).Transfer(sender, to, amount).value
      ensures r.Failure? ==> View() == old(View())
    {
      var saved := balanceOf;
      :- Need(View().Balance(sender) >= amount, InsufficientBalance);
      balanceOf := balanceOf[sender := View().Balance(sender) - amount];
      var credited := Add(View().Balance(to), amount);
      if credited.Failure? {
        balanceOf := saved;
        return Failure(Panic);
      }
      balanceOf := balanceOf[to := credited.value];
      r := Success(true);
    }

    method TransferFrom(sender: Address, from: Address, to: Address, amount: uint256) returns (r: Result<bool, Error>)
      modifies this
      ensures r.Success? <==> old(View()).TransferFrom(sender, from, to, amount).Success?
      ensures r.Success? ==> r.value && View() == old(View()).TransferFrom(sender, from, to, amount).value
      ensures r.Failure? ==> View() == old(View())
    {
      var saved := allowance;
      :- Need(View().Allowance(from, sender) >= amount, InsufficientAllowance);
      allowance := allowance[(from, sender) := View().Allowance(from, sender) - amount];
      r := Transfer(from, to, amount);
      if r.Failure? {
        allowance := saved;
      }
    }
  }
}
