/**
 The market as a state machine: one transition per instruction of
 dex/src/state.rs.  An instruction that fails leaves the state as it was, so a
 transition returns a `Result` and `Execute` keeps the old state on an error.
 */
module Exchange {
  import opened Numbers
  import opened Fees
  import opened Orders
  import opened Engine
  import opened Crank
  import opened Accounts

  datatype Setup = Setup(config: Config, requestCap: nat, eventCap: nat)

  /** Accounts are numbered in the order they were opened; vault balances are part of the state. */
  datatype State = State(
    crank: CrankState, accounts: seq<Account>, nextSeq: nat, coinVault: int, pcVault: int)

  datatype Action =
    | OpenAccount
    | PlaceOrder(owner: nat, side: Side, price: nat, qty: nat, orderType: OrderType, clientId: nat,
                 selfTrade: SelfTrade, tier: FeeTier, payerFunds: nat)
    | CancelById(owner: nat, side: Side, id: nat, slot: nat)
    | CancelByClientId(owner: nat, clientId: nat)
    | MatchOrders(limit: nat)
    | ConsumeEvents(limit: nat, loaded: set<nat>)
    | SettleFunds(owner: nat, withReferrer: bool)
    | SweepFees

  function Initial(): State {
    State(CrankState(Book([], []), Market(0, 0, 0, 0), [], []), [], 0, 0, 0)
  }

  /** What an order costs: its notional with the taker fee, or its coins. */
  function Cost(c: Config, side: Side, price: nat, qty: nat, tier: FeeTier): int {
    var native := Notional(qty, price, c.pcLot);
    if side == Bid then native + TakerFee(tier, native) else qty * c.coinLot
  }

  /** What `process_new_order` locks for an order, or None when that leaves u64. */
  function LockAmount(c: Config, side: Side, price: nat, qty: nat, tier: FeeTier): Option<nat> {
    var cost := Cost(c, side, price, qty, tier);
    if FitsU64(cost) then Some(cost) else None
  }

  function Deposit(m: Market, side: Side, amount: int): Market {
    if side == Bid then m.(pcDeposits := m.pcDeposits + amount) else m.(coinDeposits := m.coinDeposits + amount)
  }

  /** The order that is queued for an accepted instruction. */
  function QueuedOrder(act: Action, seqNum: nat, slot: nat, lock: nat): Order
    requires act.PlaceOrder? && seqNum < TWO64
  {
    Order(act.side, act.orderType, OrderId(act.side, act.price, seqNum), act.owner, slot, act.tier,
          act.qty, if act.side == Bid then lock else 0, act.clientId, act.selfTrade)
  }

  /** The part of the state that an instruction on behalf of one account touches. */
  datatype Desk = Desk(account: Account, market: Market, requests: seq<Request>, nextSeq: nat, coinVault: int,
      pcVault: int)

  function DeskOf(s: State, owner: nat): Desk
    requires owner < |s.accounts|
  {
    Desk(s.accounts[owner], s.crank.market, s.crank.requests, s.nextSeq, s.coinVault, s.pcVault)
  }

  function WithDesk(s: State, owner: nat, d: Desk): State
    requires owner < |s.accounts|
  {
    State(s.crank.(market := d.market, requests := d.requests), s.accounts[owner := d.account], d.nextSeq,
        d.coinVault, d.pcVault)
  }

  /** Balances after the deposit of a new order: account, market and vaults. */
  function Funded(d: Desk, side: Side, lock: int, payerFunds: nat): Result<Desk> {
    var (a, amount) := LockFunds(d.account, side, lock);
    var m := Deposit(d.market, side, amount);
    var coin := if side == Ask then d.coinVault + amount else d.coinVault;
    var pc := if side == Bid then d.pcVault + amount else d.pcVault;
    if !FitsU64(a.pcTotal) || !FitsU64(a.coinTotal) || !FitsU64(m.pcDeposits) || !FitsU64(m.coinDeposits)
    then Err(AssertionError)
    else if amount > payerFunds then Err(InsufficientFunds)
    else if !FitsU64(coin) || !FitsU64(pc) then Err(TransferFailed)
    else Ok(d.(account := a, market := m, coinVault := coin, pcVault := pc))
  }

  /** `process_new_order` on the desk of the owner; prices and quantities are nonzero u64 values. */
  function Accept(setup: Setup, d: Desk, act: Action): Result<Desk>
    requires act.PlaceOrder?
  {
    if act.price == 0 || act.price >= TWO64 || act.qty == 0 || act.qty >= TWO64 || d.nextSeq + 1 >= TWO64
    then Err(AssertionError)
    else
      var lock := LockAmount(setup.config, act.side, act.price, act.qty, act.tier);
      if lock.None? then Err(InsufficientFunds)
      else
        var funded :- Funded(d, act.side, lock.value, act.payerFunds);
        var order := OpenOrder(OrderId(act.side, act.price, d.nextSeq), act.side, act.clientId);
        var (a, slot) :- AddOrder(funded.account, order);
        if |d.requests| >= setup.requestCap then Err(RequestQueueFull)
        else Ok(funded.(
          account := a,
          requests := d.requests + [NewOrder(QueuedOrder(act, d.nextSeq, slot, lock.value))],
          nextSeq := d.nextSeq + 1))
  }

  function AcceptOrder(setup: Setup, s: State, act: Action): Result<State>
    requires act.PlaceOrder?
  {
    if act.owner >= |s.accounts| then Err(AssertionError)
    else
      var d :- Accept(setup, DeskOf(s, act.owner), act);
      Ok(WithDesk(s, act.owner, d))
  }

  function Enqueue(setup: Setup, s: State, r: Request): Result<State> {
    if |s.crank.requests| >= setup.requestCap then Err(RequestQueueFull)
    else Ok(s.(crank := s.crank.(requests := s.crank.requests + [r]), nextSeq := s.nextSeq + 1))
  }

  function Cancel(setup: Setup, s: State, owner: nat, side: Side, id: nat, slot: nat, clientId: nat): Result<State> {
    if owner >= |s.accounts| || s.nextSeq + 1 >= TWO64 then Err(AssertionError)
    else Enqueue(setup, s, CancelOrder(side, id, s.nextSeq, slot, owner, clientId))
  }

  function CancelClient(setup: Setup, s: State, owner: nat, clientId: nat): Result<State> {
    if owner >= |s.accounts| || clientId == 0 then Err(AssertionError)
    else
      match ClientSlotFrom(s.accounts[owner].orders, clientId, 0)
      case None => Err(ClientIdNotFound)
      case Some(slot) =>
        var order := s.accounts[owner].orders[slot];
        Cancel(setup, s, owner, order.side, order.id, slot, clientId)
  }

  function Match(setup: Setup, s: State, limit: nat): Result<State> {
    var crank :- Run(setup.config, setup.eventCap, s.crank, limit);
    Ok(s.(crank := crank))
  }

  /** The state after the event at the front was applied to its account. */
  function Consumed(s: State, a: Account): State
    requires s.crank.events != [] && s.crank.events[0].owner < |s.accounts|
  {
    s.(accounts := s.accounts[s.crank.events[0].owner := a], crank := s.crank.(events := s.crank.events[1..]))
  }

  /** `process_consume_events`: stop at the first event whose account was not passed in. */
  function Consume(s: State, limit: nat, loaded: set<nat>): Result<State>
    decreases limit
  {
    if limit == 0 || s.crank.events == [] then Ok(s)
    else
      var e := s.crank.events[0];
      if e.owner !in loaded || e.owner >= |s.accounts| then Ok(s)
      else
        var a :- ApplyEvent(s.accounts[e.owner], e);
        Consume(Consumed(s, a), limit - 1, loaded)
  }

  /** Pay out an account's free funds, and its rebates to the referrer or to the fee counter. */
  function SettleDesk(d: Desk, withReferrer: bool): Result<Desk> {
    var a, m := d.account, d.market;
    var paidReferrer := if withReferrer then a.referrals else 0;
    if a.coinTotal < a.coinFree || a.pcTotal < a.pcFree then Err(AssertionError)
    else if d.coinVault < a.coinFree || d.pcVault < a.pcFree + paidReferrer then Err(TransferFailed)
    else
      Ok(d.(
        account := Settled(a),
        market := Market(m.coinDeposits - a.coinFree, m.pcDeposits - a.pcFree,
                         m.pcFees + a.referrals - paidReferrer, m.referrals - a.referrals),
        coinVault := d.coinVault - a.coinFree,
        pcVault := d.pcVault - a.pcFree - paidReferrer))
  }

  function Settle(s: State, owner: nat, withReferrer: bool): Result<State> {
    if owner >= |s.accounts| then Err(AssertionError)
    else
      var d :- SettleDesk(DeskOf(s, owner), withReferrer);
      Ok(WithDesk(s, owner, d))
  }

  function Sweep(s: State): Result<State> {
    var fees := s.crank.market.pcFees;
    if s.pcVault < fees then Err(TransferFailed)
    else Ok(s.(crank := s.crank.(market := s.crank.market.(pcFees := 0)), pcVault := s.pcVault - fees))
  }

  function Transition(setup: Setup, s: State, act: Action): Result<State> {
    match act
    case OpenAccount => Ok(s.(accounts := s.accounts + [EMPTY_ACCOUNT]))
    case PlaceOrder(_, _, _, _, _, _, _, _, _) => AcceptOrder(setup, s, act)
    case CancelById(owner, side, id, slot) => Cancel(setup, s, owner, side, id, slot, 0)
    case CancelByClientId(owner, clientId) => CancelClient(setup, s, owner, clientId)
    case MatchOrders(limit) => Match(setup, s, limit)
    case ConsumeEvents(limit, loaded) => Consume(s, limit, loaded)
    case SettleFunds(owner, withReferrer) => Settle(s, owner, withReferrer)
    case SweepFees => Sweep(s)
  }

  /** A failed instruction has no effect. */
  function Execute(setup: Setup, s: State, act: Action): State {
    var r := Transition(setup, s, act);
    if r.Ok? then r.value else s
  }

  /** The state after a sequence of instructions on a fresh market. */
  function Reach(setup: Setup, history: seq<Action>): State {
    if history == [] then Initial()
    else Execute(setup, Reach(setup, history[..|history| - 1]), history[|history| - 1])
  }
}
