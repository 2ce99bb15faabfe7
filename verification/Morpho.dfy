/** The lending contract: its storage, its external functions statement by statement, and reverts. */
module MorphoContract {
  import opened Wrappers
  import opened Words
  import opened MathLib
  import opened SharesMathLib
  import opened UtilsLib
  import opened MarketUpdates
  import opened Erc20
  import opened MorphoSpec
  import opened MorphoInvariant

  /** What a caller sees of a call: the returned amounts or the error. */
  function Reported(r: Result<Finished, Error>): Result<Returned, Error> {
    match r
    case Success(f) => Success(f.returned)
    case Failure(e) => Failure(e)
  }

  /** Only the last write to a market and a position counts. */
  lemma PutTwice(s: State, id: Id, m: Market, m': Market, user: Address, p: Position, p': Position)
    ensures s.Put(id, m, user, p).Put(id, m', user, p') == s.Put(id, m', user, p')
    ensures s.SetMarket(id, m).Put(id, m', user, p') == s.Put(id, m', user, p')
    ensures s.SetMarket(id, m).SetMarket(id, m') == s.SetMarket(id, m')
    ensures s.Put(id, m, user, p).SetMarket(id, m') == s.Put(id, m', user, p)
  {
    assert s.market[id := m][id := m'] == s.market[id := m'];
    assert s.position[(id, user) := p][(id, user) := p'] == s.position[(id, user) := p'];
  }

  class Morpho {
    var owner: Address
    var feeRecipient: Address
    var position: map<(Id, Address), Position>
    var market: map<Id, Market>
    var isIrmEnabled: set<Address>
    var isLltvEnabled: set<uint256>
    var isAuthorized: set<(Address, Address)>
    var nonce: map<Address, uint256>
    /** The token contracts' storage, which the contract reaches through transfers only. */
    var ledgers: map<Address, Ledger>

    constructor (newOwner: Address, tokens: map<Address, Ledger>)
      requires newOwner != ZERO_ADDRESS
      ensures View() == State(newOwner, ZERO_ADDRESS, map[], map[], {}, {}, {}, map[], tokens)
      ensures TokenInv(View()) ==> Genesis(View())
    {
      owner, feeRecipient := newOwner, ZERO_ADDRESS;
      position, market, nonce := map[], map[], map[];
      isIrmEnabled, isLltvEnabled, isAuthorized := {}, {}, {};
      ledgers := tokens;
    }

    function View(): State
      reads this
    {
      State(owner, feeRecipient, position, market, isIrmEnabled, isLltvEnabled, isAuthorized, nonce, ledgers)
    }

    function PositionOf(id: Id, user: Address): Position
      reads this
    {
      View().PositionOf(id, user)
    }

    function MarketOf(id: Id): Market
      reads this
    {
      View().MarketOf(id)
    }

    /** Undoes all writes since the storage was `saved`. */
    method Rollback(saved: State)
      modifies this
      ensures View() == saved
    {
      owner, feeRecipient := saved.owner, saved.feeRecipient;
      position, market, nonce := saved.position, saved.market, saved.nonce;
      isIrmEnabled, isLltvEnabled, isAuthorized := saved.isIrmEnabled, saved.isLltvEnabled, saved.isAuthorized;
      ledgers := saved.ledgers;
    }

    // ---------------------------------------------------------------- calls and reverts

    /** One external call. If it reverts, nothing it or its callback wrote remains. */
    method Execute(c: Call) returns (r: Result<Returned, Error>)
      modifies this
      ensures r == Reported(Perform(old(View()), c))
      ensures View() == MorphoSpec.Execute(old(View()), c)
      decreases c, 3
    {
      var saved := View();
      r := Dispatch(c);
      if r.Failure? {
        Rollback(saved);
      }
    }

    /** The calls a callback makes. Where one that must succeed reverts, the callback does. */
    method RunCallback(calls: seq<Call>) returns (r: Result<(), Error>)
      modifies this
      ensures r.Success? <==> RunAll(old(View()), calls).Success?
      ensures r.Success? ==> View() == RunAll(old(View()), calls).value
      ensures r.Failure? ==> r.error == CallbackReverted == RunAll(old(View()), calls).error
      decreases calls, 0
    {
      if calls == [] {
        return Success(());
      }
      var first := Execute(calls[0]);
      if first.Failure? && calls[0].mustSucceed {
        return Failure(CallbackReverted);
      }
      r := RunCallback(calls[1..]);
    }

    method Dispatch(c: Call) returns (r: Result<Returned, Error>)
      modifies this
      ensures r == Reported(Perform(old(View()), c))
      ensures r.Success? ==> View() == Perform(old(View()), c).value.state
      decreases c, 2
    {
      match c.action
      case SetOwner(newOwner) => r := SetOwner(c, newOwner);
      case EnableIrm(irm) => r := EnableIrm(c, irm);
      case EnableLltv(lltv) => r := EnableLltv(c, lltv);
      case SetFee(id, newFee) => r := SetFee(c, id, newFee);
      case SetFeeRecipient(newFeeRecipient) => r := SetFeeRecipient(c, newFeeRecipient);
      case CreateMarket(id) => r := CreateMarket(c, id);
      case Supply(id, assets, shares, onBehalf) =>
          r := Supply(c.env, c.sender, id, assets, shares, onBehalf, c.callback);
      case Withdraw(id, assets, shares, onBehalf, receiver) =>
          r := Withdraw(c.env, c.sender, id, assets, shares, onBehalf, receiver);
      case Borrow(id, assets, shares, onBehalf, receiver) =>
          r := Borrow(c.env, c.sender, id, assets, shares, onBehalf, receiver);
      case Repay(id, assets, shares, onBehalf) => r := Repay(c.env, c.sender, id, assets, shares, onBehalf, c.callback);
      case SupplyCollateral(id, assets, onBehalf) =>
          r := SupplyCollateral(c.env, c.sender, id, assets, onBehalf, c.callback);
      case WithdrawCollateral(id, assets, onBehalf, receiver) =>
          r := WithdrawCollateral(c.env, c.sender, id, assets, onBehalf, receiver);
      case Liquidate(id, borrower, seizedAssets, repaidShares) =>
          r := Liquidate(c.env, c.sender, id, borrower, seizedAssets, repaidShares, c.callback);
      case FlashLoan(token, assets) => r := FlashLoan(c.env, c.sender, token, assets, c.callback);
      case SetAuthorization(authorized, flag) => r := SetAuthorization(c, authorized, flag);
      case SetAuthorizationWithSig(authorization, signatory) =>
          r := SetAuthorizationWithSig(c, authorization, signatory);
      case AccrueInterest(id) => r := AccrueInterest(c, id);
      case _ => r := TokenCall(c);
    }

    /** A call to one of the tokens, by someone else. */
    method TokenCall(c: Call) returns (r: Result<Returned, Error>)
      requires c.action.TokenTransfer? || c.action.TokenTransferFrom? || c.action.TokenApprove?
        || c.action.TokenSetBalance?
      modifies this
      ensures r == Reported(Perform(old(View()), c))
      ensures r.Success? ==> View() == Perform(old(View()), c).value.state
    {
      var token := c.action.token;
      :- Need(token in ledgers, NoCode);
      var l := ledgers[token];
      var ledger;
      match c.action {
        case TokenTransfer(_, to, amount) => ledger :- l.Transfer(c.sender, to, amount);
        case TokenTransferFrom(_, from, to, amount) => ledger :- l.TransferFrom(c.sender, from, to, amount);
        case TokenApprove(_, spender, amount) => ledger := l.Approve(c.sender, spender, amount);
        case TokenSetBalance(_, account, amount) => ledger :- l.SetBalance(account, amount);
      }
      ledgers := ledgers[token := ledger];
      r := Success(NOTHING);
    }

    method SafeTransfer(token: Address, to: Address, amount: uint256) returns (r: Result<(), Error>)
      modifies this
      ensures r.Success? <==> Push(old(View()), token, to, amount).Success?
      ensures r.Success? ==> View() == Push(old(View()), token, to, amount).value
      ensures r.Failure? ==> r.error == Push(old(View()), token, to, amount).error
    {
      var hasCode := token in ledgers;
      :- Need(hasCode, NoCode);
      var ledger :- ledgers[token].Transfer(MORPHO, to, amount);
      ledgers := ledgers[token := ledger];
      r := Success(());
    }

    method SafeTransferFrom(token: Address, from: Address, amount: uint256) returns (r: Result<(), Error>)
      modifies this
      ensures r.Success? <==> PullFrom(old(View()), token, from, amount).Success?
      ensures r.Success? ==> View() == PullFrom(old(View()), token, from, amount).value
      ensures r.Failure? ==> r.error == PullFrom(old(View()), token, from, amount).error
    {
      var hasCode := token in ledgers;
      :- Need(hasCode, NoCode);
      var ledger :- ledgers[token].TransferFrom(MORPHO, from, MORPHO, amount);
      ledgers := ledgers[token := ledger];
      r := Success(());
    }

    // ---------------------------------------------------------------- owner functions

    method SetOwner(c: Call, newOwner: Address) returns (r: Result<Returned, Error>)
      requires c.action == Action.SetOwner(newOwner)
      modifies `owner
      ensures r == Reported(Perform(old(View()), c))
      ensures r.Success? ==> View() == Perform(old(View()), c).value.state
    {
      var byOwner := c.sender == owner;
      :- Need(byOwner, NotOwner);
      :- Need(newOwner != owner, AlreadySet);
      owner := newOwner;
      r := Success(NOTHING);
    }

    method EnableIrm(c: Call, irm: Address) returns (r: Result<Returned, Error>)
      requires c.action == Action.EnableIrm(irm)
      modifies `isIrmEnabled
      ensures r == Reported(Perform(old(View()), c))
      ensures r.Success? ==> View() == Perform(old(View()), c).value.state
    {
      var byOwner := c.sender == owner;
      :- Need(byOwner, NotOwner);
      :- Need(irm !in isIrmEnabled, AlreadySet);
      isIrmEnabled := isIrmEnabled + {irm};
      r := Success(NOTHING);
    }

    method EnableLltv(c: Call, lltv: uint256) returns (r: Result<Returned, Error>)
      requires c.action == Action.EnableLltv(lltv)
      modifies `isLltvEnabled
      ensures r == Reported(Perform(old(View()), c))
      ensures r.Success? ==> View() == Perform(old(View()), c).value.state
    {
      var byOwner := c.sender == owner;
      :- Need(byOwner, NotOwner);
      :- Need(lltv !in isLltvEnabled, AlreadySet);
      :- Need(lltv < WAD, MaxLltvExceeded);
      isLltvEnabled := isLltvEnabled + {lltv};
      r := Success(NOTHING);
    }

    method SetFee(c: Call, id: Id, newFee: uint256) returns (r: Result<Returned, Error>)
      requires c.action == Action.SetFee(id, newFee)
      modifies this
      ensures r == Reported(Perform(old(View()), c))
      ensures r.Success? ==> View() == Perform(old(View()), c).value.state
    {
      var byOwner := c.sender == owner;
      :- Need(byOwner, NotOwner);
      :- Need(MarketOf(id).lastUpdate != 0, MarketNotCreated);
      :- Need(newFee != MarketOf(id).fee, AlreadySet);
      :- Need(newFee <= MAX_FEE, MaxFeeExceeded);
      var _ :- AccrueInterestInternal(c.env, id);
      market := market[id := MarketOf(id).(fee := newFee)];
      r := Success(NOTHING);
    }

    method SetFeeRecipient(c: Call, newFeeRecipient: Address) returns (r: Result<Returned, Error>)
      requires c.action == Action.SetFeeRecipient(newFeeRecipient)
      modifies `feeRecipient
      ensures r == Reported(Perform(old(View()), c))
      ensures r.Success? ==> View() == Perform(old(View()), c).value.state
    {
      var byOwner := c.sender == owner;
      :- Need(byOwner, NotOwner);
      :- Need(newFeeRecipient != feeRecipient, AlreadySet);
      feeRecipient := newFeeRecipient;
      r := Success(NOTHING);
    }

    method CreateMarket(c: Call, id: Id) returns (r: Result<Returned, Error>)
      requires c.action == Action.CreateMarket(id)
      modifies `market
      ensures r == Reported(Perform(old(View()), c))
      ensures r.Success? ==> View() == Perform(old(View()), c).value.state
    {
      var enabled := id.irm in isIrmEnabled;
      :- Need(enabled, IrmNotEnabled);
      :- Need(id.lltv in isLltvEnabled, LltvNotEnabled);
      :- Need(MarketOf(id).lastUpdate == 0, MarketAlreadyCreated);
      market := market[id := MarketOf(id).(lastUpdate := Truncate128(c.env.now))];
      if id.irm != ZERO_ADDRESS {
        var rate :- Answer(c.env.rate, IrmReverted);
      }
      r := Success(NOTHING);
    }

    // ---------------------------------------------------------------- interest

    method AccrueInterest(c: Call, id: Id) returns (r: Result<Returned, Error>)
      requires c.action == Action.AccrueInterest(id)
      modifies this
      ensures r == Reported(Perform(old(View()), c))
      ensures r.Success? ==> View() == Perform(old(View()), c).value.state
    {
      var created := MarketOf(id).lastUpdate != 0;
      :- Need(created, MarketNotCreated);
      var _ :- AccrueInterestInternal(c.env, id);
      r := Success(NOTHING);
    }

    method AccrueInterestInternal(env: Env, id: Id) returns (r: Result<(), Error>)
      modifies `market, `position
      ensures r.Success? <==> AccrueState(old(View()), env, id).Success?
      ensures r.Success? ==> View() == AccrueState(old(View()), env, id).value
      ensures r.Failure? ==> r.error == AccrueState(old(View()), env, id).error
      ensures r.Success? && id in old(market) ==> id in market
    {
      hide Compound, Truncate128;
      ghost var s0 := View();
      var elapsed :- Sub(env.now, MarketOf(id).lastUpdate);
      if elapsed == 0 {
        return Success(());
      }
      if id.irm != ZERO_ADDRESS {
        var _ :- CompoundInterest(env, id, elapsed);
      }
      PutTwice(s0, id, MarketOf(id), MarketOf(id).(lastUpdate := Truncate128(env.now)), feeRecipient,
               PositionOf(id, feeRecipient), PositionOf(id, feeRecipient));
      market := market[id := MarketOf(id).(lastUpdate := Truncate128(env.now))];
      r := Success(());
    }

    method CompoundInterest(env: Env, id: Id, elapsed: uint256) returns (r: Result<(), Error>)
      modifies `market, `position
      ensures var spec := Compound(old(MarketOf(id)), old(PositionOf(id, feeRecipient)), env.rate, elapsed);
        && (r.Success? <==> spec.Success?)
        && (r.Failure? ==> r.error == spec.error)
        && (r.Success? ==> View() == if spec.value.fees.Some?
             then old(View()).Put(id, spec.value.market, feeRecipient, spec.value.fees.value)
             else old(View()).SetMarket(id, spec.value.market))
    {
      hide WTaylorCompounded, WMulDown, ToSharesDown, ChargeFee;
      ghost var s0, recipient := View(), PositionOf(id, feeRecipient);
      var borrowRate :- Answer(env.rate, IrmReverted);
      var factor :- WTaylorCompounded(borrowRate, elapsed);
      var interest :- WMulDown(MarketOf(id).totalBorrowAssets, factor);
      var _ :- AddInterest(id, interest);
      ghost var grown := MarketOf(id);
      var _ :- ChargeFeeFor(id, interest);
      PutTwice(s0, id, grown, MarketOf(id), feeRecipient, recipient, PositionOf(id, feeRecipient));
      r := Success(());
    }

    /** Interest goes to both sides of the market. */
    method AddInterest(id: Id, interest: uint256) returns (r: Result<(), Error>)
      modifies `market
      ensures var m := old(MarketOf(id));
        && (interest > MAX_UINT128 ==> r == Failure(MaxUint128Exceeded))
        && (interest <= MAX_UINT128
            && (m.totalBorrowAssets + interest > MAX_UINT128 || m.totalSupplyAssets + interest > MAX_UINT128)
            ==> r == Failure(Panic))
        && (r.Success? <==>
            m.totalBorrowAssets + interest <= MAX_UINT128 && m.totalSupplyAssets + interest <= MAX_UINT128)
        && (r.Success? ==> View() == old(View()).SetMarket(id,
              m.(totalBorrowAssets := m.totalBorrowAssets + interest,
                  totalSupplyAssets := m.totalSupplyAssets + interest)))
    {
      var interest128 :- ToUint128(interest);
      var totalBorrowAssets :- Add128(MarketOf(id).totalBorrowAssets, interest128);
      market := market[id := MarketOf(id).(totalBorrowAssets := totalBorrowAssets)];
      var totalSupplyAssets :- Add128(MarketOf(id).totalSupplyAssets, interest128);
      market := market[id := MarketOf(id).(totalSupplyAssets := totalSupplyAssets)];
      r := Success(());
    }

    method ChargeFeeFor(id: Id, interest: uint256) returns (r: Result<(), Error>)
      requires id in market
      modifies `market, `position
      ensures var spec := ChargeFee(old(MarketOf(id)), old(PositionOf(id, feeRecipient)), interest);
        && (r.Success? <==> spec.Success?)
        && (r.Failure? ==> r.error == spec.error)
        && (r.Success? && spec.value.fees.None? ==> spec.value.market == old(MarketOf(id)))
        && (r.Success? ==> View() == if spec.value.fees.Some?
             then old(View()).Put(id, spec.value.market, feeRecipient, spec.value.fees.value) else old(View()))
    {
      hide WMulDown, ToSharesDown;
      if MarketOf(id).fee != 0 {
        var feeAmount :- WMulDown(interest, MarketOf(id).fee);
        var rest :- Sub(MarketOf(id).totalSupplyAssets, feeAmount);
        var feeShares :- ToSharesDown(feeAmount, rest, MarketOf(id).totalSupplyShares);
        var supplyShares :- Add(PositionOf(id, feeRecipient).supplyShares, feeShares);
        position := position[(id, feeRecipient) := PositionOf(id, feeRecipient).(supplyShares := supplyShares)];
        var feeShares128 :- ToUint128(feeShares);
        var totalSupplyShares :- Add128(MarketOf(id).totalSupplyShares, feeShares128);
        market := market[id := MarketOf(id).(totalSupplyShares := totalSupplyShares)];
      }
      r := Success(());
    }

    // ---------------------------------------------------------------- supply side

    method Supply(
        env: Env, sender: Caller, id: Id, assets: uint256, shares: uint256, onBehalf: Address, data: seq<Call>)
      returns (r: Result<Returned, Error>)
      modifies this
      ensures var spec :=
        Perform(old(View()), Call(env, sender, Action.Supply(id, assets, shares, onBehalf), data, true));
        r == Reported(spec) && (r.Success? ==> View() == spec.value.state)
      decreases data, 1
    {
      hide AccrueState, PullFrom, MarketUpdates.Supply;
      :- Need(MarketOf(id).lastUpdate != 0, MarketNotCreated);
      :- Need(ExactlyOneZero(assets, shares), InconsistentInput);
      :- Need(onBehalf != ZERO_ADDRESS, ZeroAddress);
      var _ :- AccrueInterestInternal(env, id);
      var u :- BookSupply(id, onBehalf, assets, shares);
      if |data| > 0 {
        var _ :- RunCallback(data);
      }
      var _ :- SafeTransferFrom(id.loanToken, sender, u.assets);
      r := Success(Returned(u.assets, u.shares));
    }

    /** The bookkeeping of `supply`. */
    method BookSupply(id: Id, onBehalf: Address, assets: uint256, shares: uint256) returns (r: Result<Update, Error>)
      requires id in market
      modifies `market, `position
      ensures r == MarketUpdates.Supply(old(MarketOf(id)), old(PositionOf(id, onBehalf)), assets, shares)
      ensures r.Success? ==> View() == old(View()).Put(id, r.value.market, onBehalf, r.value.position)
    {
      hide ToSharesDown, ToSharesUp, ToAssetsDown, ToAssetsUp, IsHealthy;
      var assetsIn, sharesIn := assets, shares;
      if assets > 0 {
        sharesIn :- ToSharesDown(assets, MarketOf(id).totalSupplyAssets, MarketOf(id).totalSupplyShares);
      } else {
        assetsIn :- ToAssetsUp(shares, MarketOf(id).totalSupplyAssets, MarketOf(id).totalSupplyShares);
      }
      var supplyShares :- Add(PositionOf(id, onBehalf).supplyShares, sharesIn);
      position := position[(id, onBehalf) := PositionOf(id, onBehalf).(supplyShares := supplyShares)];
      var shares128 :- ToUint128(sharesIn);
      var totalSupplyShares :- Add128(MarketOf(id).totalSupplyShares, shares128);
      market := market[id := MarketOf(id).(totalSupplyShares := totalSupplyShares)];
      var assets128 :- ToUint128(assetsIn);
      var totalSupplyAssets :- Add128(MarketOf(id).totalSupplyAssets, assets128);
      market := market[id := MarketOf(id).(totalSupplyAssets := totalSupplyAssets)];
      r := Success(Update(MarketOf(id), PositionOf(id, onBehalf), assetsIn, sharesIn));
    }

    method Withdraw(
        env: Env, sender: Caller, id: Id, assets: uint256, shares: uint256, onBehalf: Address, receiver: Address)
      returns (r: Result<Returned, Error>)
      modifies this
      ensures forall data: seq<Call>, must: bool ::
        var spec := Perform(old(View()),
            Call(env, sender, Action.Withdraw(id, assets, shares, onBehalf, receiver), data, must));
        r == Reported(spec) && (r.Success? ==> View() == spec.value.state)
    {
      hide AccrueState, Push, MarketUpdates.Withdraw;
      :- Need(MarketOf(id).lastUpdate != 0, MarketNotCreated);
      :- Need(ExactlyOneZero(assets, shares), InconsistentInput);
      :- Need(receiver != ZERO_ADDRESS, ZeroAddress);
      :- Need(IsSenderAuthorized(sender, onBehalf), Unauthorized);
      var _ :- AccrueInterestInternal(env, id);
      var u :- BookWithdrawal(id, onBehalf, assets, shares);
      var _ :- SafeTransfer(id.loanToken, receiver, u.assets);
      r := Success(Returned(u.assets, u.shares));
    }

    /** The bookkeeping of `withdraw`. */
    method BookWithdrawal(
        id: Id, onBehalf: Address, assets: uint256, shares: uint256) returns (r: Result<Update, Error>)
      requires id in market
      modifies `market, `position
      ensures r == MarketUpdates.Withdraw(old(MarketOf(id)), old(PositionOf(id, onBehalf)), assets, shares)
      ensures r.Success? ==> View() == old(View()).Put(id, r.value.market, onBehalf, r.value.position)
    {
      hide ToSharesDown, ToSharesUp, ToAssetsDown, ToAssetsUp, IsHealthy;
      var assetsOut, sharesOut := assets, shares;
      if assets > 0 {
        sharesOut :- ToSharesUp(assets, MarketOf(id).totalSupplyAssets, MarketOf(id).totalSupplyShares);
      } else {
        assetsOut :- ToAssetsDown(shares, MarketOf(id).totalSupplyAssets, MarketOf(id).totalSupplyShares);
      }
      var supplyShares :- Sub(PositionOf(id, onBehalf).supplyShares, sharesOut);
      position := position[(id, onBehalf) := PositionOf(id, onBehalf).(supplyShares := supplyShares)];
      var shares128 :- ToUint128(sharesOut);
      var totalSupplyShares :- Sub128(MarketOf(id).totalSupplyShares, shares128);
      market := market[id := MarketOf(id).(totalSupplyShares := totalSupplyShares)];
      var assets128 :- ToUint128(assetsOut);
      var totalSupplyAssets :- Sub128(MarketOf(id).totalSupplyAssets, assets128);
      market := market[id := MarketOf(id).(totalSupplyAssets := totalSupplyAssets)];
      :- Need(MarketOf(id).totalBorrowAssets <= MarketOf(id).totalSupplyAssets, InsufficientLiquidity);
      r := Success(Update(MarketOf(id), PositionOf(id, onBehalf), assetsOut, sharesOut));
    }

    predicate IsSenderAuthorized(sender: Address, onBehalf: Address)
      reads this
    {
      sender == onBehalf || (onBehalf, sender) in isAuthorized
    }

    // ---------------------------------------------------------------- borrow side

    method Borrow(
        env: Env, sender: Caller, id: Id, assets: uint256, shares: uint256, onBehalf: Address, receiver: Address)
      returns (r: Result<Returned, Error>)
      modifies this
      ensures forall data: seq<Call>, must: bool ::
        var spec := Perform(old(View()),
            Call(env, sender, Action.Borrow(id, assets, shares, onBehalf, receiver), data, must));
        r == Reported(spec) && (r.Success? ==> View() == spec.value.state)
    {
      hide AccrueState, Push, MarketUpdates.Borrow;
      :- Need(MarketOf(id).lastUpdate != 0, MarketNotCreated);
      :- Need(ExactlyOneZero(assets, shares), InconsistentInput);
      :- Need(receiver != ZERO_ADDRESS, ZeroAddress);
      :- Need(IsSenderAuthorized(sender, onBehalf), Unauthorized);
      var _ :- AccrueInterestInternal(env, id);
      var u :- BookLoan(id, onBehalf, env.price, assets, shares);
      var _ :- SafeTransfer(id.loanToken, receiver, u.assets);
      r := Success(Returned(u.assets, u.shares));
    }

    /** The bookkeeping of `borrow`. */
    method BookLoan(
        id: Id, onBehalf: Address, price: Option<uint256>, assets: uint256, shares: uint256)
      returns (r: Result<Update, Error>)
      requires id in market
      modifies `market, `position
      ensures r == MarketUpdates.Borrow(old(MarketOf(id)), old(PositionOf(id, onBehalf)), price, id.lltv, assets,
        shares)
      ensures r.Success? ==> View() == old(View()).Put(id, r.value.market, onBehalf, r.value.position)
    {
      hide ToSharesDown, ToSharesUp, ToAssetsDown, ToAssetsUp, IsHealthy;
      var assetsOut, sharesOut := assets, shares;
      if assets > 0 {
        sharesOut :- ToSharesUp(assets, MarketOf(id).totalBorrowAssets, MarketOf(id).totalBorrowShares);
      } else {
        assetsOut :- ToAssetsDown(shares, MarketOf(id).totalBorrowAssets, MarketOf(id).totalBorrowShares);
      }
      var shares128 :- ToUint128(sharesOut);
      var borrowShares :- Add128(PositionOf(id, onBehalf).borrowShares, shares128);
      position := position[(id, onBehalf) := PositionOf(id, onBehalf).(borrowShares := borrowShares)];
      var totalBorrowShares :- Add128(MarketOf(id).totalBorrowShares, shares128);
      market := market[id := MarketOf(id).(totalBorrowShares := totalBorrowShares)];
      var assets128 :- ToUint128(assetsOut);
      var totalBorrowAssets :- Add128(MarketOf(id).totalBorrowAssets, assets128);
      market := market[id := MarketOf(id).(totalBorrowAssets := totalBorrowAssets)];
      var healthy :- IsHealthy(MarketOf(id), PositionOf(id, onBehalf), price, id.lltv);
      :- Need(healthy, InsufficientCollateral);
      :- Need(MarketOf(id).totalBorrowAssets <= MarketOf(id).totalSupplyAssets, InsufficientLiquidity);
      r := Success(Update(MarketOf(id), PositionOf(id, onBehalf), assetsOut, sharesOut));
    }

    method Repay(env: Env, sender: Caller, id: Id, assets: uint256, shares: uint256, onBehalf: Address, data: seq<Call>)
      returns (r: Result<Returned, Error>)
      modifies this
      ensures var spec :=
        Perform(old(View()), Call(env, sender, Action.Repay(id, assets, shares, onBehalf), data, true));
        r == Reported(spec) && (r.Success? ==> View() == spec.value.state)
      decreases data, 1
    {
      hide AccrueState, PullFrom, MarketUpdates.Repay;
      :- Need(MarketOf(id).lastUpdate != 0, MarketNotCreated);
      :- Need(ExactlyOneZero(assets, shares), InconsistentInput);
      :- Need(onBehalf != ZERO_ADDRESS, ZeroAddress);
      var _ :- AccrueInterestInternal(env, id);
      var u :- BookRepayment(id, onBehalf, assets, shares);
      if |data| > 0 {
        var _ :- RunCallback(data);
      }
      var _ :- SafeTransferFrom(id.loanToken, sender, u.assets);
      r := Success(Returned(u.assets, u.shares));
    }

    /** The bookkeeping of `repay`. */
    method BookRepayment(id: Id, onBehalf: Address, assets: uint256, shares: uint256) returns (r: Result<Update, Error>)
      requires id in market
      modifies `market, `position
      ensures r == MarketUpdates.Repay(old(MarketOf(id)), old(PositionOf(id, onBehalf)), assets, shares)
      ensures r.Success? ==> View() == old(View()).Put(id, r.value.market, onBehalf, r.value.position)
    {
      hide ToSharesDown, ToSharesUp, ToAssetsDown, ToAssetsUp, IsHealthy;
      var assetsIn, sharesIn := assets, shares;
      if assets > 0 {
        sharesIn :- ToSharesDown(assets, MarketOf(id).totalBorrowAssets, MarketOf(id).totalBorrowShares);
      } else {
        assetsIn :- ToAssetsUp(shares, MarketOf(id).totalBorrowAssets, MarketOf(id).totalBorrowShares);
      }
      var shares128 :- ToUint128(sharesIn);
      var borrowShares :- Sub128(PositionOf(id, onBehalf).borrowShares, shares128);
      position := position[(id, onBehalf) := PositionOf(id, onBehalf).(borrowShares := borrowShares)];
      var totalBorrowShares :- Sub128(MarketOf(id).totalBorrowShares, shares128);
      market := market[id := MarketOf(id).(totalBorrowShares := totalBorrowShares)];
      var totalBorrowAssets :- ToUint128(ZeroFloorSub(MarketOf(id).totalBorrowAssets, assetsIn));
      market := market[id := MarketOf(id).(totalBorrowAssets := totalBorrowAssets)];
      r := Success(Update(MarketOf(id), PositionOf(id, onBehalf), assetsIn, sharesIn));
    }

    // ---------------------------------------------------------------- collateral

    method SupplyCollateral(env: Env, sender: Caller, id: Id, assets: uint256, onBehalf: Address, data: seq<Call>)
      returns (r: Result<Returned, Error>)
      modifies this
      ensures var spec :=
        Perform(old(View()), Call(env, sender, Action.SupplyCollateral(id, assets, onBehalf), data, true));
        r == Reported(spec) && (r.Success? ==> View() == spec.value.state)
      decreases data, 1
    {
      hide PullFrom;
      :- Need(MarketOf(id).lastUpdate != 0, MarketNotCreated);
      :- Need(assets != 0, ZeroAssets);
      :- Need(onBehalf != ZERO_ADDRESS, ZeroAddress);
      var assets128 :- ToUint128(assets);
      var collateral :- Add128(PositionOf(id, onBehalf).collateral, assets128);
      position := position[(id, onBehalf) := PositionOf(id, onBehalf).(collateral := collateral)];
      if |data| > 0 {
        var _ :- RunCallback(data);
      }
      var _ :- SafeTransferFrom(id.collateralToken, sender, assets);
      r := Success(NOTHING);
    }

    method WithdrawCollateral(env: Env, sender: Caller, id: Id, assets: uint256, onBehalf: Address, receiver: Address)
      returns (r: Result<Returned, Error>)
      modifies this
      ensures forall data: seq<Call>, must: bool ::
        var spec := Perform(old(View()),
            Call(env, sender, Action.WithdrawCollateral(id, assets, onBehalf, receiver), data, must));
        r == Reported(spec) && (r.Success? ==> View() == spec.value.state)
    {
      hide AccrueState, Push, IsHealthy;
      :- Need(MarketOf(id).lastUpdate != 0, MarketNotCreated);
      :- Need(assets != 0, ZeroAssets);
      :- Need(receiver != ZERO_ADDRESS, ZeroAddress);
      :- Need(IsSenderAuthorized(sender, onBehalf), Unauthorized);
      var _ :- AccrueInterestInternal(env, id);
      var assets128 :- ToUint128(assets);
      var collateral :- Sub128(PositionOf(id, onBehalf).collateral, assets128);
      position := position[(id, onBehalf) := PositionOf(id, onBehalf).(collateral := collateral)];
      var healthy :- IsHealthy(MarketOf(id), PositionOf(id, onBehalf), env.price, id.lltv);
      :- Need(healthy, InsufficientCollateral);
      var _ :- SafeTransfer(id.collateralToken, receiver, assets);
      r := Success(NOTHING);
    }

    // ---------------------------------------------------------------- liquidation

    method Liquidate(
        env: Env, sender: Caller, id: Id, borrower: Address, seizedAssets: uint256, repaidShares: uint256,
        data: seq<Call>)
      returns (r: Result<Returned, Error>)
      modifies this
      ensures var spec :=
        Perform(old(View()), Call(env, sender, Action.Liquidate(id, borrower, seizedAssets, repaidShares), data, true));
        r == Reported(spec) && (r.Success? ==> View() == spec.value.state)
      decreases data, 1
    {
      hide AccrueState, Push, PullFrom, Seize, RealizeBadDebt;
      :- Need(MarketOf(id).lastUpdate != 0, MarketNotCreated);
      :- Need(ExactlyOneZero(seizedAssets, repaidShares), InconsistentInput);
      var _ :- AccrueInterestInternal(env, id);
      var collateralPrice :- Answer(env.price, OracleReverted);
      ghost var s0 := View();
      var l :- BookSeizure(id, borrower, collateralPrice, seizedAssets, repaidShares);
      ghost var s1 := View();
      var _ :- RealizeBadDebtOf(id, borrower);
      PutTwice(s0, id, l.market, MarketOf(id), borrower, l.position, PositionOf(id, borrower));
      var _ :- SafeTransfer(id.collateralToken, sender, l.seizedAssets);
      if |data| > 0 {
        var _ :- RunCallback(data);
      }
      var _ :- SafeTransferFrom(id.loanToken, sender, l.repaidAssets);
      r := Success(Returned(l.seizedAssets, l.repaidAssets));
    }

    /** The bookkeeping of a liquidation up to the bad debt. */
    method BookSeizure(
        id: Id, borrower: Address, collateralPrice: uint256, seizedAssets: uint256, repaidShares: uint256)
      returns (r: Result<Liquidation, Error>)
      requires id in market
      modifies `market, `position
      ensures r == Seize(old(MarketOf(id)), old(PositionOf(id, borrower)), collateralPrice, id.lltv, seizedAssets,
        repaidShares)
      ensures r.Success? ==> View() == old(View()).Put(id, r.value.market, borrower, r.value.position)
    {
      hide ToAssetsUp, IsHealthyAt, LiquidationIncentiveFactor, LiquidationAmounts;
      var healthy :- IsHealthyAt(MarketOf(id), PositionOf(id, borrower), collateralPrice, id.lltv);
      :- Need(!healthy, HealthyPosition);
      var liquidationIncentiveFactor :- LiquidationIncentiveFactor(id.lltv);
      var amounts :- LiquidationAmounts(MarketOf(id), collateralPrice, liquidationIncentiveFactor, seizedAssets,
          repaidShares);
      var repaidAssets :- ToAssetsUp(amounts.shares, MarketOf(id).totalBorrowAssets, MarketOf(id).totalBorrowShares);
      var shares128 :- ToUint128(amounts.shares);
      var borrowShares :- Sub128(PositionOf(id, borrower).borrowShares, shares128);
      position := position[(id, borrower) := PositionOf(id, borrower).(borrowShares := borrowShares)];
      var totalBorrowShares :- Sub128(MarketOf(id).totalBorrowShares, shares128);
      market := market[id := MarketOf(id).(totalBorrowShares := totalBorrowShares)];
      var totalBorrowAssets :- ToUint128(ZeroFloorSub(MarketOf(id).totalBorrowAssets, repaidAssets));
      market := market[id := MarketOf(id).(totalBorrowAssets := totalBorrowAssets)];
      var seized128 :- ToUint128(amounts.assets);
      var collateral :- Sub128(PositionOf(id, borrower).collateral, seized128);
      position := position[(id, borrower) := PositionOf(id, borrower).(collateral := collateral)];
      r := Success(Liquidation(MarketOf(id), PositionOf(id, borrower), amounts.assets, repaidAssets, amounts.shares, 0,
          0));
    }

    /** The last part of a liquidation's bookkeeping. */
    method RealizeBadDebtOf(id: Id, borrower: Address) returns (r: Result<(), Error>)
      requires id in market && (id, borrower) in position
      modifies `market, `position
      ensures var spec := RealizeBadDebt(old(MarketOf(id)), old(PositionOf(id, borrower)));
        && (r.Success? <==> spec.Success?)
        && (r.Failure? ==> r.error == spec.error)
        && (r.Success? ==> View() == old(View()).Put(id, spec.value.market, borrower, spec.value.position))
    {
      hide ToAssetsUp;
      if PositionOf(id, borrower).collateral == 0 {
        var badDebtShares := PositionOf(id, borrower).borrowShares;
        var owed :- ToAssetsUp(badDebtShares, MarketOf(id).totalBorrowAssets, MarketOf(id).totalBorrowShares);
        var badDebtAssets :- ToUint128(Min(MarketOf(id).totalBorrowAssets, owed));
        var totalBorrowAssets :- Sub128(MarketOf(id).totalBorrowAssets, badDebtAssets);
        market := market[id := MarketOf(id).(totalBorrowAssets := totalBorrowAssets)];
        var totalSupplyAssets :- Sub128(MarketOf(id).totalSupplyAssets, badDebtAssets);
        market := market[id := MarketOf(id).(totalSupplyAssets := totalSupplyAssets)];
        var totalBorrowShares :- Sub128(MarketOf(id).totalBorrowShares, badDebtShares);
        market := market[id := MarketOf(id).(totalBorrowShares := totalBorrowShares)];
        position := position[(id, borrower) := PositionOf(id, borrower).(borrowShares := 0)];
      }
      r := Success(());
    }

    // ---------------------------------------------------------------- flash loans and authorizations

    method FlashLoan(env: Env, sender: Caller, token: Address, assets: uint256, data: seq<Call>)
      returns (r: Result<Returned, Error>)
      modifies this
      ensures var spec := Perform(old(View()), Call(env, sender, Action.FlashLoan(token, assets), data, true));
        r == Reported(spec) && (r.Success? ==> View() == spec.value.state)
      decreases data, 1
    {
      hide Push, PullFrom;
      :- Need(assets != 0, ZeroAssets);
      var _ :- SafeTransfer(token, sender, assets);
      var _ :- RunCallback(data);
      var _ :- SafeTransferFrom(token, sender, assets);
      r := Success(NOTHING);
    }

    method SetAuthorization(c: Call, authorized: Address, newIsAuthorized: bool) returns (r: Result<Returned, Error>)
      requires c.action == Action.SetAuthorization(authorized, newIsAuthorized)
      modifies `isAuthorized
      ensures r == Reported(Perform(old(View()), c))
      ensures r.Success? ==> View() == Perform(old(View()), c).value.state
    {
      var changes := newIsAuthorized != ((c.sender, authorized) in isAuthorized);
      :- Need(changes, AlreadySet);
      isAuthorized := if newIsAuthorized then isAuthorized + {(c.sender, authorized)}
          else isAuthorized - {(c.sender, authorized)};
      r := Success(NOTHING);
    }

    method SetAuthorizationWithSig(c: Call, a: Authorization, signatory: Address) returns (r: Result<Returned, Error>)
      requires c.action == Action.SetAuthorizationWithSig(a, signatory)
      modifies `isAuthorized, `nonce
      ensures r == Reported(Perform(old(View()), c))
      ensures r.Success? ==> View() == Perform(old(View()), c).value.state
    {
      var inTime := c.env.now <= a.deadline;
      :- Need(inTime, SignatureExpired);
      var current := View().NonceOf(a.authorizer);
      var next :- Add(current, 1);
      nonce := nonce[a.authorizer := next];
      :- Need(a.nonce == current, InvalidNonce);
      :- Need(signatory != ZERO_ADDRESS && a.authorizer == signatory, InvalidSignature);
      isAuthorized := if a.isAuthorized
                      then isAuthorized + {(a.authorizer, a.authorized)}
                      else isAuthorized - {(a.authorizer, a.authorized)};
      r := Success(NOTHING);
    }
  }

  /** A deployment. A zero owner makes it revert. */
  method Deploy(newOwner: Address, tokens: map<Address, Ledger>) returns (r: Result<Morpho, Error>)
    ensures r == Failure(ZeroAddress) || (r.Success? && fresh(r.value))
    ensures r.Failure? <==> newOwner == ZERO_ADDRESS
    ensures r.Success? ==> r.value.View() == State(newOwner, ZERO_ADDRESS, map[], map[], {}, {}, {}, map[], tokens)
    ensures r.Success? && TokenInv(r.value.View()) ==> Genesis(r.value.View())
  {
    var owned := newOwner != ZERO_ADDRESS;
    :- Need(owned, ZeroAddress);
    var morpho := new Morpho(newOwner, tokens);
    r := Success(morpho);
  }
}
