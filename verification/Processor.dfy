/**
 The instruction handlers of dex/src/state.rs in place.  Each is proved to have
 the effect of the corresponding transition of module Exchange on the accounts
 it is given.  After an error the runtime restores every account, so nothing is
 said about the state then.
 */
module Processor {
  import opened Numbers
  import opened Fees
  import opened Orders
  import opened Queues
  import opened Engine
  import opened Accounts
  import opened OpenOrdersAccount
  import opened Matching
  import opened Exchange

  /** Token balances of the two vaults. */
  class Vaults {
    var coin: u64
    var pc: u64

    constructor ()
      ensures coin == 0 && pc == 0
    {
      coin, pc := 0, 0;
    }
  }

  ghost function DeskView(open: OpenOrders, market: MarketState, reqQ: Queue<Request>, vaults: Vaults): Desk
    requires open.Valid()
    reads open, market, reqQ, vaults
  {
    Desk(open.View(), market.View(), reqQ.contents, reqQ.seqNum, vaults.coin, vaults.pc)
  }

  /** The amount an order locks, by checked multiplications and additions: none exactly when it is 2^64 or more. */
  method CheckedLock(c: Config, side: Side, price: u64, qty: u64, tier: FeeTier) returns (r: Option<u64>)
    requires 0 < price && 0 < qty
    ensures r == LockAmount(c, side, price, qty, tier)
    ensures r.None? <==> Cost(c, side, price, qty, tier) >= TWO64
  {
    hide TakerFee;
    NotionalPositive(qty, price, c.pcLot);
    TakerFeeIsCeiling(tier, Notional(qty, price, c.pcLot));
    ProductMonotone(0, qty, c.coinLot);
    if side == Bid {
      var lots := qty * price;
      if lots >= TWO64 {
        return None;
      }
      var native := lots * c.pcLot;
      if native >= TWO64 {
        return None;
      }
      var total := native + TakerFee(tier, native);
      if total >= TWO64 {
        return None;
      }
      return Some(total);
    }
    var native := qty * c.coinLot;
    if native >= TWO64 {
      return None;
    }
    return Some(native);
  }

  /** Lock and deposit the funds of a new order. */
  method FundOrder(open: OpenOrders, market: MarketState, vaults: Vaults, ghost reqQ: Queue<Request>,
                   side: Side, lock: u64, payerFunds: nat)
    returns (r: Result<()>)
    requires open.Valid()
    modifies open, market, vaults
    ensures open.Valid()
    ensures var out := Funded(old(DeskView(open, market, reqQ, vaults)), side, lock, payerFunds);
            if out.Err? then r == Err(out.error) else r == Ok(()) && DeskView(open, market, reqQ, vaults) == out.value
  {
    var locked, deposit := open.Lock(side, lock);
    if !locked {
      return Err(AssertionError);
    }
    if side == Bid {
      if market.pcDepositsTotal + deposit >= TWO64 {
        return Err(AssertionError);
      }
      market.pcDepositsTotal := market.pcDepositsTotal + deposit;
    } else {
      if market.coinDepositsTotal + deposit >= TWO64 {
        return Err(AssertionError);
      }
      market.coinDepositsTotal := market.coinDepositsTotal + deposit;
    }
    if deposit > payerFunds {
      return Err(InsufficientFunds);
    }
    if side == Bid {
      if vaults.pc + deposit >= TWO64 {
        return Err(TransferFailed);
      }
      vaults.pc := vaults.pc + deposit;
    } else {
      if vaults.coin + deposit >= TWO64 {
        return Err(TransferFailed);
      }
      vaults.coin := vaults.coin + deposit;
    }
    return Ok(());
  }

  /** process_new_order */
  method ProcessNewOrder(setup: Setup, act: Action, open: OpenOrders, market: MarketState, reqQ: Queue<Request>,
      vaults: Vaults)
    returns (r: Result<()>)
    requires open.Valid() && reqQ.Valid() && !reqQ.numbered && reqQ.buf.Length == setup.requestCap
    requires act.PlaceOrder? && 0 < act.price < TWO64 && 0 < act.qty < TWO64 && reqQ.seqNum + 1 < TWO64
    modifies open, market, reqQ, reqQ.buf, vaults
    ensures open.Valid() && reqQ.Valid()
    ensures var out := Accept(setup, old(DeskView(open, market, reqQ, vaults)), act);
            if out.Err? then r == Err(out.error) else r == Ok(()) && DeskView(open, market, reqQ, vaults) == out.value
  {
    hide Queue.Valid, LockAmount, Funded, Accounts.AddOrder, OrderId;
    ghost var d := DeskView(open, market, reqQ, vaults);
    var lock := CheckedLock(setup.config, act.side, act.price, act.qty, act.tier);
    if lock.None? {
      return Err(InsufficientFunds);
    }
    var funded := FundOrder(open, market, vaults, reqQ, act.side, lock.value, act.payerFunds);
    if funded.Err? {
      return Err(funded.error);
    }
    var seqNum := reqQ.TakeSeqNum();
    var orderId := OrderId(act.side, act.price, seqNum);
    var slot := open.AddOrder(orderId, act.side, act.clientId);
    if slot.Err? {
      return Err(slot.error);
    }
    reqQ.WithinCapacity();
    var pushed := reqQ.PushBack(NewOrder(QueuedOrder(act, seqNum, slot.value, lock.value)));
    if !pushed {
      return Err(RequestQueueFull);
    }
    return Ok(());
  }

  /** process_cancel_order: queue a cancel request under the caller's own account. */
  method ProcessCancelOrder(owner: nat, side: Side, id: nat, slot: nat, clientId: nat, reqQ: Queue<Request>)
      returns (r: Result<()>)
    requires reqQ.Valid() && !reqQ.numbered
    modifies reqQ, reqQ.buf
    ensures reqQ.Valid()
    ensures if |old(reqQ.contents)| >= reqQ.buf.Length then r == Err(RequestQueueFull)
            else && r == Ok(()) && reqQ.seqNum == old(reqQ.seqNum) + 1
                 && reqQ.contents == 
                    old(reqQ.contents) + [CancelOrder(side, id, old(reqQ.seqNum), slot, owner, clientId)]
  {
    var cancelId := reqQ.TakeSeqNum();
    var pushed := reqQ.PushBack(CancelOrder(side, id, cancelId, slot, owner, clientId));
    if !pushed {
      return Err(RequestQueueFull);
    }
    return Ok(());
  }

  /** process_cancel_order_by_client_id: the first occupied slot with that client id. */
  method ProcessCancelByClientId(owner: nat, clientId: nat, open: OpenOrders, reqQ: Queue<Request>)
      returns (r: Result<()>)
    requires open.Valid() && reqQ.Valid() && !reqQ.numbered && clientId != 0
    modifies reqQ, reqQ.buf
    ensures reqQ.Valid()
    ensures match ClientSlotFrom(open.Occupied(), clientId, 0)
            case None => r == Err(ClientIdNotFound)
            case Some(slot) =>
              var order := open.Occupied()[slot];
              var request := CancelOrder(order.side, order.id, old(reqQ.seqNum), slot, owner, clientId);
              && (|old(reqQ.contents)| >= reqQ.buf.Length ==> r == Err(RequestQueueFull))
              && (|old(reqQ.contents)| < reqQ.buf.Length ==>
                    r == Ok(()) && reqQ.seqNum == old(reqQ.seqNum) + 1
                        && reqQ.contents == old(reqQ.contents) + [request])
  {
    hide Queue.Valid, OpenOrders.Occupied;
    var i := 0;
    OccupiedIs(open);
    while i < SLOT_COUNT && !(open.clientOrderIds[i] == clientId && i !in open.freeSlotBits)
      invariant 0 <= i <= SLOT_COUNT
      invariant ClientSlotFrom(open.Occupied(), clientId, 0) == ClientSlotFrom(open.Occupied(), clientId, i)
    {
      i := i + 1;
    }
    if i == SLOT_COUNT {
      return Err(ClientIdNotFound);
    }
    var side := open.SlotSide(i);
    r := ProcessCancelOrder(owner, side.value, open.orders[i], i, clientId, reqQ);
  }

  lemma OccupiedIs(open: OpenOrders)
    requires open.Valid()
    ensures forall i: nat :: i in open.Occupied() <==> i < SLOT_COUNT && open.SlotSide(i).Some?
    ensures forall i: nat :: i in open.Occupied() ==>
              open.Occupied()[i] == OpenOrder(open.orders[i], open.SlotSide(i).value, open.clientOrderIds[i])
  {
  }

  /** process_settle_funds.  What it takes is there in every reachable state (Guarantees.SettlementCovered). */
  method ProcessSettleFunds(open: OpenOrders, market: MarketState, vaults: Vaults, ghost reqQ: Queue<Request>,
      withReferrer: bool)
    returns (r: Result<()>)
    requires open.Valid()
    requires open.nativeCoinFree <= market.coinDepositsTotal && open.nativePcFree <= market.pcDepositsTotal
    requires open.referrerRebatesAccrued <= market.referrerRebatesAccrued
    requires market.pcFeesAccrued + market.referrerRebatesAccrued < TWO64
    modifies open, market, vaults
    ensures open.Valid()
    ensures var out := SettleDesk(old(DeskView(open, market, reqQ, vaults)), withReferrer);
            if out.Err? then r == Err(out.error) else r == Ok(()) && DeskView(open, market, reqQ, vaults) == out.value
  {
    var ok, coin, pc, rebates := open.TakeFree();
    if !ok {
      return Err(AssertionError);
    }
    market.coinDepositsTotal := market.coinDepositsTotal - coin;
    market.pcDepositsTotal := market.pcDepositsTotal - pc;
    if vaults.coin < coin || vaults.pc < pc {
      return Err(TransferFailed);
    }
    vaults.coin := vaults.coin - coin;
    vaults.pc := vaults.pc - pc;
    if withReferrer && rebates > 0 {
      if vaults.pc < rebates {
        return Err(TransferFailed);
      }
      vaults.pc := vaults.pc - rebates;
    } else {
      market.pcFeesAccrued := market.pcFeesAccrued + rebates;
    }
    market.referrerRebatesAccrued := market.referrerRebatesAccrued - rebates;
    return Ok(());
  }

  /** process_sweep_fees */
  method ProcessSweepFees(market: MarketState, vaults: Vaults) returns (r: Result<u64>)
    modifies market, vaults
    ensures if old(vaults.pc) < old(market.pcFeesAccrued) then r == Err(TransferFailed)
            else && r == Ok(old(market.pcFeesAccrued)) && vaults.pc == old(vaults.pc - market.pcFeesAccrued)
                 && vaults.coin == old(vaults.coin) && market.View() == old(market.View()).(pcFees := 0)
  {
    var tokenAmount := market.pcFeesAccrued;
    market.pcFeesAccrued := 0;
    if vaults.pc < tokenAmount {
      return Err(TransferFailed);
    }
    vaults.pc := vaults.pc - tokenAmount;
    return Ok(tokenAmount);
  }

  // ----- process_consume_events -----

  /** Consumption seen from the accounts that were passed in. */
  function ConsumeLoaded(views: map<nat, Account>, events: seq<Event>, limit: nat)
    : Result<(map<nat, Account>, seq<Event>)>
    decreases limit
  {
    if limit == 0 || events == [] || events[0].owner !in views then Ok((views, events))
    else
      var a :- ApplyEvent(views[events[0].owner], events[0]);
      ConsumeLoaded(views[events[0].owner := a], events[1..], limit - 1)
  }

  ghost predicate AllLoaded(loaded: map<nat, OpenOrders>)
    reads loaded.Values
  {
    && (forall k :: k in loaded ==> loaded[k].Valid())
    && forall j, k :: j in loaded && k in loaded && j != k ==> loaded[j] != loaded[k]
  }

  ghost function Views(loaded: map<nat, OpenOrders>): map<nat, Account>
    requires AllLoaded(loaded)
    reads loaded.Values
  {
    map k | k in loaded :: loaded[k].View()
  }

  /** Consume one event at the front of the queue with its account. */
  method ConsumeFront(loaded: map<nat, OpenOrders>, q: Queue<Event>) returns (ok: bool)
    requires AllLoaded(loaded) && q.Valid() && q.contents != [] && q.contents[0].owner in loaded
    modifies loaded.Values, q
    ensures AllLoaded(loaded) && q.Valid()
    ensures var e := old(q.contents)[0];
            var out := ApplyEvent(old(Views(loaded))[e.owner], e);
            && (ok <==> out.Ok?)
            && (ok ==> Views(loaded) == old(Views(loaded))[e.owner := out.value] && q.contents == old(q.contents)[1..])
  {
    hide Queue.Valid, OpenOrders.View, ApplyEvent;
    var front := q.PeekFront();
    var e := front.value;
    ok := loaded[e.owner].Apply(e);
    if ok {
      var _ := q.PopFront();
    }
  }

  /** process_consume_events: up to `limit` events, stopping at one whose account was not passed in. */
  method ProcessConsumeEvents(loaded: map<nat, OpenOrders>, q: Queue<Event>, limit: nat) returns (r: Result<()>)
    requires AllLoaded(loaded) && q.Valid()
    modifies loaded.Values, q
    ensures AllLoaded(loaded) && q.Valid()
    ensures var out := ConsumeLoaded(old(Views(loaded)), old(q.contents), limit);
            if out.Err? then r == Err(AssertionError) else r == Ok(()) && out.value == (Views(loaded), q.contents)
  {
    hide Queue.Valid, AllLoaded, Views;
    var left := limit;
    while left > 0
      invariant 0 <= left <= limit
      invariant AllLoaded(loaded) && q.Valid()
      invariant ConsumeLoaded(old(Views(loaded)), old(q.contents), limit)
            == ConsumeLoaded(Views(loaded), q.contents, left)
    {
      var front := q.PeekFront();
      ViewKeys(loaded);
      if front.None? || front.value.owner !in loaded {
        break;
      }
      var ok := ConsumeFront(loaded, q);
      if !ok {
        return Err(AssertionError);
      }
      left := left - 1;
    }
    return Ok(());
  }

  lemma ViewKeys(loaded: map<nat, OpenOrders>)
    requires AllLoaded(loaded)
    ensures Views(loaded).Keys == loaded.Keys
  {
  }

  /** On the whole market this is the transition `Consume`. */
  lemma {:induction false} LoadedIsConsume(s: State, loaded: set<nat>, views: map<nat, Account>, limit: nat)
    requires views.Keys == set o | o in loaded && o < |s.accounts|
    requires forall o :: o in views ==> views[o] == s.accounts[o]
    ensures var whole, part := Consume(s, limit, loaded), ConsumeLoaded(views, s.crank.events, limit);
            && (whole.Ok? <==> part.Ok?)
            && (whole.Ok? ==>
                  && whole.value.crank == s.crank.(events := part.value.1)
                  && |whole.value.accounts| == |s.accounts|
                  && part.value.0.Keys == views.Keys
                  && forall o :: 0 <= o < |s.accounts| ==>
                       whole.value.accounts[o] == if o in views then part.value.0[o] else s.accounts[o])
    decreases limit
  {
    hide ApplyEvent;
    if limit > 0 && s.crank.events != [] && s.crank.events[0].owner in views {
      var e := s.crank.events[0];
      var r := ApplyEvent(s.accounts[e.owner], e);
      if r.Ok? {
        LoadedIsConsume(Consumed(s, r.value), loaded, views[e.owner := r.value], limit - 1);
      }
    }
  }
}
