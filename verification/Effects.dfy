/**
 What each instruction of the market does to the state, field by field, and when
 the instructions that can be refused succeed.
 */
module Effects {
  import opened Numbers
  import opened Fees
  import opened Orders
  import opened Engine
  import opened Crank
  import opened Accounts
  import opened Exchange

  // ----- a new order -----

  /** What an order costs: its notional with the taker fee, or its coins. */
  function CostOf(c: Config, act: Action): int
    requires act.PlaceOrder?
  {
    var native := act.qty * act.price * c.pcLot;
    if act.side == Bid then native + TakerFee(act.tier, native) else act.qty * c.coinLot
  }

  /** How much of the cost has to be deposited, because the account has less free. */
  function DepositOf(c: Config, a: Account, act: Action): int
    requires act.PlaceOrder?
  {
    var cost, free := CostOf(c, act), if act.side == Bid then a.pcFree else a.coinFree;
    if cost <= free then 0 else cost - free
  }

  /** The queued order is the one of the instruction: every field. */
  ghost predicate Carries(c: Config, act: Action, o: Order, seqNum: nat, slot: nat)
    requires act.PlaceOrder?
  {
    && o.side == act.side && o.orderType == act.orderType && o.owner == act.owner && o.slot == slot
    && Price(o.id) == act.price && SeqOf(o.side, o.id) == seqNum
    && o.tier == act.tier && o.coinQty == act.qty && o.clientId == act.clientId && o.selfTrade == act.selfTrade
    && o.pcLocked == if act.side == Bid then CostOf(c, act) else 0
  }

  /** `slot` is the lowest free slot of the account. */
  predicate LowestFree(a: Account, slot: nat) {
    slot < 128 && slot !in a.orders && forall i :: 0 <= i < slot ==> i in a.orders
  }

  /** Free funds are used first and the rest is deposited; the order is listed in the lowest free slot. */
  ghost predicate Charged(c: Config, a: Account, act: Action, b: Account, slot: nat, id: nat)
    requires act.PlaceOrder?
  {
    var deposit := DepositOf(c, a, act);
    var used := CostOf(c, act) - deposit;
    && LowestFree(a, slot) && b.orders == a.orders[slot := OpenOrder(id, act.side, act.clientId)]
    && b.referrals == a.referrals
    && (if act.side == Bid then
          b.pcFree == a.pcFree - used && b.pcTotal == a.pcTotal + deposit && b.coinFree == a.coinFree
              && b.coinTotal == a.coinTotal
        else
          b.coinFree == a.coinFree - used && b.coinTotal == a.coinTotal + deposit && b.pcFree == a.pcFree
              && b.pcTotal == a.pcTotal)
  }

  /**
   An accepted order: one request with the fields of the instruction, the account charged, the deposit in
   counter and vault.
   */
  lemma PlaceOrderEffect(setup: Setup, s: State, act: Action) returns (o: Order)
    requires act.PlaceOrder? && Transition(setup, s, act).Ok?
    ensures act.owner < |s.accounts|
    ensures var c, t := setup.config, Transition(setup, s, act).value;
            var a := s.accounts[act.owner];
            var deposit := DepositOf(c, a, act);
            var k, l := s.crank.market, t.crank.market;
            && Carries(c, act, o, s.nextSeq, o.slot) && t.crank.requests == s.crank.requests + [NewOrder(o)]
            && |t.accounts| == |s.accounts| && Charged(c, a, act, t.accounts[act.owner], o.slot, o.id)
            && (forall i :: 0 <= i < |s.accounts| && i != act.owner ==> t.accounts[i] == s.accounts[i])
            && t.crank.book == s.crank.book && t.crank.events == s.crank.events && t.nextSeq == s.nextSeq + 1
            && l.pcFees == k.pcFees && l.referrals == k.referrals
            && (if act.side == Bid then
                  l.pcDeposits == k.pcDeposits + deposit && l.coinDeposits == k.coinDeposits
                  && t.pcVault == s.pcVault + deposit && t.coinVault == s.coinVault
                else
                  l.coinDeposits == k.coinDeposits + deposit && l.pcDeposits == k.pcDeposits
                  && t.coinVault == s.coinVault + deposit && t.pcVault == s.pcVault)
  {
    hide TakerFee, SeqOf, Price;
    var c := setup.config;
    var cost := Cost(c, act.side, act.price, act.qty, act.tier);
    var slot := FreeFrom(s.accounts[act.owner].orders, 0).value;
    o := QueuedOrder(act, s.nextSeq, slot, cost);
    OrderIdFields(act.side, act.price, s.nextSeq);
    hide FreeFrom, OrderId;
  }

  /** The balances of one account, the counters and the vaults are words. */
  predicate Words(s: State, owner: nat) {
    && owner < |s.accounts|
    && FitsU64(s.accounts[owner].pcTotal) && FitsU64(s.accounts[owner].coinTotal)
    && FitsU64(s.crank.market.pcDeposits) && FitsU64(s.crank.market.coinDeposits)
    && FitsU64(s.coinVault) && FitsU64(s.pcVault)
  }

  /**
   An order is accepted if and only if it is well-formed, can be paid for within 64-bit counters, and finds a
   slot and room.
   */
  lemma PlaceOrderSucceedsWhen(setup: Setup, s: State, act: Action)
    requires act.PlaceOrder? && Words(s, act.owner)
    ensures var c, a, k := setup.config, s.accounts[act.owner], s.crank.market;
            var deposit := DepositOf(c, a, act);
            Transition(setup, s, act).Ok? <==>
              && 0 < act.price < TWO64 && 0 < act.qty < TWO64 && s.nextSeq + 1 < TWO64
              && CostOf(c, act) < TWO64 && deposit <= act.payerFunds
              && (if act.side == Bid then
                    a.pcTotal + deposit < TWO64 && k.pcDeposits + deposit < TWO64 && s.pcVault + deposit < TWO64
                  else
                    a.coinTotal + deposit < TWO64 && k.coinDeposits + deposit < TWO64 && s.coinVault + deposit < TWO64)
              && (exists slot: nat :: slot < 128 && slot !in a.orders)
              && |s.crank.requests| < setup.requestCap
  {
    hide OrderId, TakerFee;
    CostNonNegative(setup.config, act);
    hide FreeFrom;
  }

  lemma CostNonNegative(c: Config, act: Action)
    requires act.PlaceOrder?
    ensures Cost(c, act.side, act.price, act.qty, act.tier) == CostOf(c, act) && 0 <= CostOf(c, act)
  {
    ProductMonotone(0, act.qty, act.price);
    ProductMonotone(0, act.qty * act.price, c.pcLot);
    ProductMonotone(0, act.qty, c.coinLot);
    TakerFeeIsCeiling(act.tier, act.qty * act.price * c.pcLot);
    hide TakerFee;
  }

  // ----- accounts and cancels -----

  lemma OpenAccountEffect(setup: Setup, s: State)
    ensures var t := Transition(setup, s, OpenAccount);
            t.Ok? && t.value == s.(accounts := s.accounts + [Account(0, 0, 0, 0, map[], 0)])
  {
  }

  /** A cancel is queued under the caller's own account and a fresh number, whatever it names. */
  lemma CancelByIdEffect(setup: Setup, s: State, owner: nat, side: Side, id: nat, slot: nat)
    ensures var t := Transition(setup, s, CancelById(owner, side, id, slot));
            && (t.Ok? <==> owner < |s.accounts| && s.nextSeq + 1 < TWO64 && |s.crank.requests| < setup.requestCap)
            && (t.Ok? ==>
                  t.value == s.(nextSeq := s.nextSeq + 1,
                                crank := s.crank.(requests := s.crank.requests + [CancelOrder(side, id, s.nextSeq,
                                    slot, owner, 0)])))
  {
  }

  /** A cancel by client id does the same for the first listed order with that client id. */
  lemma CancelByClientIdEffect(setup: Setup, s: State, owner: nat, clientId: nat, slot: nat)
    requires owner < |s.accounts| && clientId != 0 && slot < 128 && slot in s.accounts[owner].orders
    requires s.accounts[owner].orders[slot].clientId == clientId
    requires forall i :: 0 <= i < slot && i in s.accounts[owner].orders ==>
               s.accounts[owner].orders[i].clientId != clientId
    ensures var t, order := Transition(setup, s, CancelByClientId(owner, clientId)), s.accounts[owner].orders[slot];
            && (t.Ok? <==> s.nextSeq + 1 < TWO64 && |s.crank.requests| < setup.requestCap)
            && (t.Ok? ==>
                  t.value == s.(nextSeq := s.nextSeq + 1,
                                crank := s.crank.(requests := s.crank.requests
                                                              + [CancelOrder(order.side, order.id, s.nextSeq, slot,
                                                                  owner, clientId)])))
  {
    hide ClientSlotFrom;
  }

  // ----- the crank -----

  /**
   A crank call with limit 1 takes one step on the front request: the rest of the order goes back to the front,
   the events to the end of their queue, and the net fee from the deposits to fees and, a fifth of the taker fee,
   to rebates.  Only events without room stop it.  Larger limits are repeated calls (Crank.BatchingIrrelevant).
   */
  lemma MatchOneEffect(setup: Setup, s: State)
    requires s.crank.requests != []
    ensures var out := Step(setup.config, s.crank.book, s.crank.requests[0]);
            var t, k := Transition(setup, s, MatchOrders(1)), s.crank.market;
            var net := out.fee - out.rebate;
            && (t.Ok? <==> |s.crank.events| + |out.events| <= setup.eventCap)
            && (t.Ok? ==>
                  t.value == s.(crank := CrankState(
                    out.book,
                    Market(k.coinDeposits, k.pcDeposits - net, k.pcFees + (net - out.fee / 5),
                        k.referrals + out.fee / 5),
                    (if out.rest.Some? then [NewOrder(out.rest.value)] else []) + s.crank.requests[1..],
                    s.crank.events + out.events)))
  {
    hide Step;
    var out := Step(setup.config, s.crank.book, s.crank.requests[0]);
    assert [] + s.crank.requests[1..] == s.crank.requests[1..];
    var next := AfterStep(s.crank, out);
    assert Run(setup.config, setup.eventCap, next, 0) == Ok(next);
  }

  lemma MatchNoneEffect(setup: Setup, s: State, limit: nat)
    requires limit == 0 || s.crank.requests == []
    ensures Transition(setup, s, MatchOrders(limit)) == Ok(s)
  {
    assert s.(crank := s.crank) == s;
  }

  // ----- consumption -----

  /** All accounts after the given events, one after the other. */
  function AppliedTo(accounts: seq<Account>, events: seq<Event>): Option<seq<Account>>
    decreases |events|
  {
    if events == [] then Some(accounts)
    else if events[0].owner >= |accounts| then None
    else
      var r := ApplyEvent(accounts[events[0].owner], events[0]);
      if r.Err? then None else AppliedTo(accounts[events[0].owner := r.value], events[1..])
  }

  /**
   Consumption takes events off the front, up to the limit or to the first whose account was not passed in,
   applies each to its account in this order, and changes nothing else.
   */
  lemma {:induction false} ConsumeEffect(s: State, limit: nat, loaded: set<nat>) returns (n: nat)
    requires Consume(s, limit, loaded).Ok?
    ensures var t := Consume(s, limit, loaded).value;
            && n <= limit && n <= |s.crank.events|
            && (forall i :: 0 <= i < n ==> s.crank.events[i].owner in loaded)
            && (n == limit || n == |s.crank.events|
                || s.crank.events[n].owner !in loaded || s.crank.events[n].owner >= |s.accounts|)
            && AppliedTo(s.accounts, s.crank.events[..n]) == Some(t.accounts)
            && t == s.(accounts := t.accounts, crank := s.crank.(events := s.crank.events[n..]))
    decreases limit
  {
    hide ApplyEvent;
    n := 0;
    var es := s.crank.events;
    if limit > 0 && es != [] && es[0].owner in loaded && es[0].owner < |s.accounts| {
      var a := ApplyEvent(s.accounts[es[0].owner], es[0]).value;
      var m := ConsumeEffect(Consumed(s, a), limit - 1, loaded);
      n := m + 1;
      assert es[..n][1..] == es[1..][..m] && es[1..][m..] == es[n..];
      assert forall i :: 1 <= i < n ==> es[i] == es[1..][i - 1];
    } else {
      assert es[..0] == [] && es[0..] == es;
    }
  }

  /** When an event is refused: its slot holds another order, or its unlock is not covered afterwards. */
  lemma RefusedWhen(a: Account, e: Event)
    ensures ApplyEvent(a, e).Err? <==>
              || !(e.slot < 128 && e.slot in a.orders && a.orders[e.slot].side == e.side && a.orders[e.slot].id == e.id)
              || (e.Out? && e.side == Bid && (a.pcFree + e.unlocked) % TWO64 > a.pcTotal % TWO64)
              || (e.Out? && e.side == Ask && (a.coinFree + e.unlocked) % TWO64 > a.coinTotal % TWO64)
  {
  }

  /** What a consumed event pays, in wrapping 64-bit words: the buyer gets coins, the seller price currency. */
  lemma EventPays(a: Account, e: Event)
    requires ApplyEvent(a, e).Ok? && FitsU64(a.pcFree) && FitsU64(a.pcTotal) && FitsU64(a.coinFree)
          && FitsU64(a.coinTotal)
    requires FitsU64(a.referrals)
    ensures var b := ApplyEvent(a, e).value;
            && b.orders == (if e.Out? && e.locked == 0 then a.orders - {e.slot} else a.orders)
            && (e.Out? && e.side == Bid ==> b == a.(pcFree := (a.pcFree + e.unlocked) % TWO64, orders := b.orders))
            && (e.Out? && e.side == Ask ==> b == a.(coinFree := (a.coinFree + e.unlocked) % TWO64, orders := b.orders))
            && (e.Fill? && e.side == Bid ==>
                  && b.pcTotal == (a.pcTotal - e.paid) % TWO64
                  && b.coinTotal == (a.coinTotal + e.received) % TWO64
                      && b.coinFree == (a.coinFree + e.received) % TWO64
                  && b.pcFree == (if e.maker then (a.pcFree + e.fee) % TWO64 else a.pcFree))
            && (e.Fill? && e.side == Ask ==>
                  && b.coinTotal == (a.coinTotal - e.paid) % TWO64 && b.coinFree == a.coinFree
                  && b.pcTotal == (a.pcTotal + e.received) % TWO64 && b.pcFree == (a.pcFree + e.received) % TWO64)
            && (e.Fill? ==> b.referrals == if e.maker then a.referrals else (a.referrals + e.fee / 5) % TWO64)
  {
  }

  // ----- payouts -----

  /**
   Settlement pays the account's free balances out of the vaults.  Its rebates go to the referrer, out of the
   vault, if one was passed in, and into the fee counter otherwise.
   */
  lemma SettleFundsEffect(setup: Setup, s: State, owner: nat, withReferrer: bool)
    requires Transition(setup, s, SettleFunds(owner, withReferrer)).Ok?
    ensures owner < |s.accounts|
    ensures var t := Transition(setup, s, SettleFunds(owner, withReferrer)).value;
            var a, k, l := s.accounts[owner], s.crank.market, t.crank.market;
            && |t.accounts| == |s.accounts|
            && t.accounts[owner] == Account(0, a.coinTotal - a.coinFree, 0, a.pcTotal - a.pcFree, a.orders, 0)
            && (forall i :: 0 <= i < |s.accounts| && i != owner ==> t.accounts[i] == s.accounts[i])
            && t.coinVault == s.coinVault - a.coinFree
            && l.coinDeposits == k.coinDeposits - a.coinFree && l.pcDeposits == k.pcDeposits - a.pcFree
            && l.referrals == k.referrals - a.referrals
            && (if withReferrer then t.pcVault == s.pcVault - a.pcFree - a.referrals && l.pcFees == k.pcFees
                else t.pcVault == s.pcVault - a.pcFree && l.pcFees == k.pcFees + a.referrals)
            && t.crank == s.crank.(market := l) && t.nextSeq == s.nextSeq
  {
  }

  /** It fails exactly when a total does not cover what is free, or a vault does not cover what is paid. */
  lemma SettleFundsSucceedsWhen(setup: Setup, s: State, owner: nat, withReferrer: bool)
    requires owner < |s.accounts|
    ensures var a := s.accounts[owner];
            Transition(setup, s, SettleFunds(owner, withReferrer)).Ok? <==>
              && a.coinFree <= a.coinTotal && a.pcFree <= a.pcTotal && a.coinFree <= s.coinVault
              && a.pcFree + (if withReferrer then a.referrals else 0) <= s.pcVault
  {
  }

  /** The sweep pays the fee counter out of the vault and zeroes it. */
  lemma SweepFeesEffect(setup: Setup, s: State)
    ensures var t, fees := Transition(setup, s, SweepFees), s.crank.market.pcFees;
            && (t.Ok? <==> fees <= s.pcVault)
            && (t.Ok? ==>
                  t.value == s.(pcVault := s.pcVault - fees,
                                crank := s.crank.(market := s.crank.market.(pcFees := 0))))
  {
  }

  /** A refused instruction changes nothing. */
  lemma RefusedChangesNothing(setup: Setup, s: State, act: Action)
    ensures Execute(setup, s, act) == if Transition(setup, s, act).Ok? then Transition(setup, s, act).value else s
  {
    hide Transition;
  }
}
