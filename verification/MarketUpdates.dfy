/**
 * What each operation does to one market and one position in it, without the storage around them.
 * Every checked addition, subtraction, multiplication and cast of the contract is one step here.
 */
module MarketUpdates {
  import opened Wrappers
  import opened Words
  import opened MathLib
  import opened SharesMathLib
  import opened UtilsLib

  const ZERO_ADDRESS: Address := 0
  const MAX_FEE: nat := 250_000_000_000_000_000
  const ORACLE_PRICE_SCALE: nat := 1_000_000_000_000_000_000_000_000_000_000_000_000
  const LIQUIDATION_CURSOR: nat := 300_000_000_000_000_000
  const MAX_LIQUIDATION_INCENTIVE_FACTOR: nat := 1_150_000_000_000_000_000

  datatype Market = Market(
    totalSupplyAssets: uint128,
    totalSupplyShares: uint128,
    totalBorrowAssets: uint128,
    totalBorrowShares: uint128,
    lastUpdate: uint128,
    fee: uint128)

  datatype Position = Position(
    supplyShares: uint256,
    borrowShares: uint128,
    collateral: uint128)

  const EMPTY_MARKET := Market(0, 0, 0, 0, 0, 0)
  const EMPTY_POSITION := Position(0, 0, 0)

  /** What the outside world answers during one call: the block's time, the oracle and the rate model. */
  datatype Env = Env(now: uint256, price: Option<uint256>, rate: Option<uint256>)

  function Answer(answer: Option<uint256>, error: Error): Result<uint256, Error> {
    match answer
    case Some(value) => Success(value)
    case None => Failure(error)
  }

  // ---------------------------------------------------------------- amounts

  datatype Amounts = Amounts(assets: uint256, shares: uint256)

  /** Supplying and repaying: the amount not given is rounded against the payer. */
  function AmountsIn(
      assets: uint256, shares: uint256, totalAssets: uint256, totalShares: uint256): Result<Amounts, Error> {
    if assets > 0 then
      var s :- ToSharesDown(assets, totalAssets, totalShares);
      Success(Amounts(assets, s))
    else
      var a :- ToAssetsUp(shares, totalAssets, totalShares);
      Success(Amounts(a, shares))
  }

  /** Withdrawing and borrowing: the amount not given is rounded against the receiver. */
  function AmountsOut(
      assets: uint256, shares: uint256, totalAssets: uint256, totalShares: uint256): Result<Amounts, Error> {
    if assets > 0 then
      var s :- ToSharesUp(assets, totalAssets, totalShares);
      Success(Amounts(assets, s))
    else
      var a :- ToAssetsDown(shares, totalAssets, totalShares);
      Success(Amounts(a, shares))
  }

  // ---------------------------------------------------------------- interest

  /** The market after accrual, and the fee recipient's position if a fee was charged. */
  datatype Accrual = Accrual(market: Market, fees: Option<Position>)

  function Truncate128(x: uint256): uint128 {
    x % (MAX_UINT128 + 1)
  }

  function Accrue(m: Market, recipient: Position, env: Env, irm: Address): Result<Accrual, Error> {
    var elapsed :- Sub(env.now, m.lastUpdate);
    if elapsed == 0 then
      Success(Accrual(m, None))
    else if irm == ZERO_ADDRESS then
      Success(Accrual(m.(lastUpdate := Truncate128(env.now)), None))
    else
      var compounded :- Compound(m, recipient, env.rate, elapsed);
      Success(compounded.(market := compounded.market.(lastUpdate := Truncate128(env.now))))
  }

  /** Interest for the elapsed time goes to both sides of the market; the fee recipient gets shares of it. */
  function Compound(m: Market, recipient: Position, rate: Option<uint256>, elapsed: uint256): Result<Accrual, Error> {
    var borrowRate :- Answer(rate, IrmReverted);
    var factor :- WTaylorCompounded(borrowRate, elapsed);
    var interest :- WMulDown(m.totalBorrowAssets, factor);
    var interest128 :- ToUint128(interest);
    var totalBorrowAssets :- Add128(m.totalBorrowAssets, interest128);
    var totalSupplyAssets :- Add128(m.totalSupplyAssets, interest128);
    ChargeFee(m.(totalBorrowAssets := totalBorrowAssets, totalSupplyAssets := totalSupplyAssets), recipient, interest)
  }

  function ChargeFee(m: Market, recipient: Position, interest: uint256): Result<Accrual, Error> {
    if m.fee == 0 then
      Success(Accrual(m, None))
    else
      var feeAmount :- WMulDown(interest, m.fee);
      var rest :- Sub(m.totalSupplyAssets, feeAmount);
      var feeShares :- ToSharesDown(feeAmount, rest, m.totalSupplyShares);
      var supplyShares :- Add(recipient.supplyShares, feeShares);
      var feeShares128 :- ToUint128(feeShares);
      var totalSupplyShares :- Add128(m.totalSupplyShares, feeShares128);
      Success(Accrual(m.(totalSupplyShares := totalSupplyShares), Some(recipient.(supplyShares := supplyShares))))
  }

  // ---------------------------------------------------------------- health

  function IsHealthyAt(m: Market, p: Position, price: uint256, lltv: uint256): Result<bool, Error> {
    var borrowed :- ToAssetsUp(p.borrowShares, m.totalBorrowAssets, m.totalBorrowShares);
    var value :- MulDivDown(p.collateral, price, ORACLE_PRICE_SCALE);
    var maxBorrow :- WMulDown(value, lltv);
    Success(maxBorrow >= borrowed)
  }

  function IsHealthy(m: Market, p: Position, price: Option<uint256>, lltv: uint256): Result<bool, Error> {
    if p.borrowShares == 0 then Success(true)
    else
      var collateralPrice :- Answer(price, OracleReverted);
      IsHealthyAt(m, p, collateralPrice, lltv)
  }

  // ---------------------------------------------------------------- operations

  datatype Update = Update(market: Market, position: Position, assets: uint256, shares: uint256)

  function Supply(m: Market, p: Position, assets: uint256, shares: uint256): Result<Update, Error> {
    var amounts :- AmountsIn(assets, shares, m.totalSupplyAssets, m.totalSupplyShares);
    var supplyShares :- Add(p.supplyShares, amounts.shares);
    var shares128 :- ToUint128(amounts.shares);
    var totalSupplyShares :- Add128(m.totalSupplyShares, shares128);
    var assets128 :- ToUint128(amounts.assets);
    var totalSupplyAssets :- Add128(m.totalSupplyAssets, assets128);
    Success(Update(
      m.(totalSupplyShares := totalSupplyShares, totalSupplyAssets := totalSupplyAssets),
      p.(supplyShares := supplyShares),
      amounts.assets,
      amounts.shares))
  }

  function Withdraw(m: Market, p: Position, assets: uint256, shares: uint256): Result<Update, Error> {
    var amounts :- AmountsOut(assets, shares, m.totalSupplyAssets, m.totalSupplyShares);
    var supplyShares :- Sub(p.supplyShares, amounts.shares);
    var shares128 :- ToUint128(amounts.shares);
    var totalSupplyShares :- Sub128(m.totalSupplyShares, shares128);
    var assets128 :- ToUint128(amounts.assets);
    var totalSupplyAssets :- Sub128(m.totalSupplyAssets, assets128);
    :- Need(m.totalBorrowAssets <= totalSupplyAssets, InsufficientLiquidity);
    Success(Update(
      m.(totalSupplyShares := totalSupplyShares, totalSupplyAssets := totalSupplyAssets),
      p.(supplyShares := supplyShares),
      amounts.assets,
      amounts.shares))
  }

  function Borrow(
      m: Market, p: Position, price: Option<uint256>, lltv: uint256, assets: uint256, shares: uint256)
    : Result<Update, Error> {
    var amounts :- AmountsOut(assets, shares, m.totalBorrowAssets, m.totalBorrowShares);
    var shares128 :- ToUint128(amounts.shares);
    var borrowShares :- Add128(p.borrowShares, shares128);
    var totalBorrowShares :- Add128(m.totalBorrowShares, shares128);
    var assets128 :- ToUint128(amounts.assets);
    var totalBorrowAssets :- Add128(m.totalBorrowAssets, assets128);
    var m' := m.(totalBorrowShares := totalBorrowShares, totalBorrowAssets := totalBorrowAssets);
    var p' := p.(borrowShares := borrowShares);
    var healthy :- IsHealthy(m', p', price, lltv);
    :- Need(healthy, InsufficientCollateral);
    :- Need(totalBorrowAssets <= m.totalSupplyAssets, InsufficientLiquidity);
    Success(Update(m', p', amounts.assets, amounts.shares))
  }

  function Repay(m: Market, p: Position, assets: uint256, shares: uint256): Result<Update, Error> {
    var amounts :- AmountsIn(assets, shares, m.totalBorrowAssets, m.totalBorrowShares);
    var shares128 :- ToUint128(amounts.shares);
    var borrowShares :- Sub128(p.borrowShares, shares128);
    var totalBorrowShares :- Sub128(m.totalBorrowShares, shares128);
    var totalBorrowAssets :- ToUint128(ZeroFloorSub(m.totalBorrowAssets, amounts.assets));
    Success(Update(
      m.(totalBorrowShares := totalBorrowShares, totalBorrowAssets := totalBorrowAssets),
      p.(borrowShares := borrowShares),
      amounts.assets,
      amounts.shares))
  }

  function SupplyCollateral(p: Position, assets: uint256): Result<Position, Error> {
    var assets128 :- ToUint128(assets);
    var collateral :- Add128(p.collateral, assets128);
    Success(p.(collateral := collateral))
  }

  function WithdrawCollateral(
      m: Market, p: Position, price: Option<uint256>, lltv: uint256, assets: uint256): Result<Position, Error> {
    var assets128 :- ToUint128(assets);
    var collateral :- Sub128(p.collateral, assets128);
    var p' := p.(collateral := collateral);
    var healthy :- IsHealthy(m, p', price, lltv);
    :- Need(healthy, InsufficientCollateral);
    Success(p')
  }

  // ---------------------------------------------------------------- liquidation

  /** min(1.15, 1 / (1 - 0.3 * (1 - lltv))) in fixed point. */
  function LiquidationIncentiveFactor(lltv: uint256): Result<uint256, Error> {
    var margin :- Sub(WAD, lltv);
    var discount :- WMulDown(LIQUIDATION_CURSOR, margin);
    var denominator :- Sub(WAD, discount);
    var factor :- WDivDown(WAD, denominator);
    Success(Min(MAX_LIQUIDATION_INCENTIVE_FACTOR, factor))
  }

  /** The collateral seized and the shares repaid for it, from whichever of the two is given. */
  function LiquidationAmounts(
      m: Market, price: uint256, lif: uint256, seizedAssets: uint256, repaidShares: uint256): Result<Amounts, Error> {
    if seizedAssets > 0 then
      var quoted :- MulDivUp(seizedAssets, price, ORACLE_PRICE_SCALE);
      var repaid :- WDivUp(quoted, lif);
      var shares :- ToSharesUp(repaid, m.totalBorrowAssets, m.totalBorrowShares);
      Success(Amounts(seizedAssets, shares))
    else
      var repaid :- ToAssetsDown(repaidShares, m.totalBorrowAssets, m.totalBorrowShares);
      var quoted :- WMulDown(repaid, lif);
      var seized :- MulDivDown(quoted, ORACLE_PRICE_SCALE, price);
      Success(Amounts(seized, repaidShares))
  }

  datatype BadDebt = BadDebt(market: Market, position: Position, assets: uint256, shares: uint256)

  /** Once the collateral is gone, the debt that remains is taken off the suppliers' assets. */
  function RealizeBadDebt(m: Market, p: Position): Result<BadDebt, Error> {
    if p.collateral != 0 then
      Success(BadDebt(m, p, 0, 0))
    else
      var owed :- ToAssetsUp(p.borrowShares, m.totalBorrowAssets, m.totalBorrowShares);
      var assets128 :- ToUint128(Min(m.totalBorrowAssets, owed));
      var totalBorrowAssets :- Sub128(m.totalBorrowAssets, assets128);
      var totalSupplyAssets :- Sub128(m.totalSupplyAssets, assets128);
      var totalBorrowShares :- Sub128(m.totalBorrowShares, p.borrowShares);
      Success(BadDebt(
        m.(totalBorrowAssets := totalBorrowAssets,
           totalSupplyAssets := totalSupplyAssets,
           totalBorrowShares := totalBorrowShares),
        p.(borrowShares := 0),
        assets128,
        p.borrowShares))
  }

  datatype Liquidation = Liquidation(
    market: Market,
    position: Position,
    seizedAssets: uint256,
    repaidAssets: uint256,
    repaidShares: uint256,
    badDebtAssets: uint256,
    badDebtShares: uint256)

  /** The repayment of a liquidation, before any bad debt is realized. */
  function Seize(
      m: Market, p: Position, price: uint256, lltv: uint256, seizedAssets: uint256, repaidShares: uint256)
    : Result<Liquidation, Error> {
    var healthy :- IsHealthyAt(m, p, price, lltv);
    :- Need(!healthy, HealthyPosition);
    var lif :- LiquidationIncentiveFactor(lltv);
    var amounts :- LiquidationAmounts(m, price, lif, seizedAssets, repaidShares);
    var repaidAssets :- ToAssetsUp(amounts.shares, m.totalBorrowAssets, m.totalBorrowShares);
    var shares128 :- ToUint128(amounts.shares);
    var borrowShares :- Sub128(p.borrowShares, shares128);
    var totalBorrowShares :- Sub128(m.totalBorrowShares, shares128);
    var totalBorrowAssets :- ToUint128(ZeroFloorSub(m.totalBorrowAssets, repaidAssets));
    var seized128 :- ToUint128(amounts.assets);
    var collateral :- Sub128(p.collateral, seized128);
    Success(Liquidation(
      m.(totalBorrowShares := totalBorrowShares, totalBorrowAssets := totalBorrowAssets),
      p.(borrowShares := borrowShares, collateral := collateral),
      amounts.assets, repaidAssets, amounts.shares, 0, 0))
  }

  function Liquidate(
      m: Market, p: Position, price: Option<uint256>, lltv: uint256, seizedAssets: uint256, repaidShares: uint256)
    : Result<Liquidation, Error> {
    var collateralPrice :- Answer(price, OracleReverted);
    var seizure :- Seize(m, p, collateralPrice, lltv, seizedAssets, repaidShares);
    var bad :- RealizeBadDebt(seizure.market, seizure.position);
    Success(seizure.(
      market := bad.market,
      position := bad.position,
      badDebtAssets := bad.assets,
      badDebtShares := bad.shares))
  }

  // ---------------------------------------------------------------- the test rate model

  const YEAR: nat := 365 * 24 * 60 * 60

  /** x% of utilization is x% a year, per second. */
  function BorrowRateView(m: Market): Result<uint256, Error> {
    if m.totalSupplyAssets == 0 then Success(0)
    else
      var utilization :- WDivDown(m.totalBorrowAssets, m.totalSupplyAssets);
      Success(utilization / YEAR)
  }
}
