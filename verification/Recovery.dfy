/**
 When funds can be recovered: from every reachable state whose pending events pass
 the checks, some instructions, none of which places an order, bring the market to
 rest and pay everything out.  Module Blocked has the states where they do not pass.
 */
module Recovery {
  import opened Numbers
  import opened Orders
  import opened Ladder
  import opened Engine
  import opened BookLaws
  import opened Events
  import opened Crank
  import opened Accounts
  import opened Exchange
  import opened Invariants
  import opened Pairs
  import opened Ledger
  import opened Guarantees
  import opened Blocked
  import opened Progress

  /** Instructions keep a healthy state in range. */
  lemma StaysInRange(setup: Setup, history: seq<Action>, act: Action)
    requires Healthy(setup, history) && Transition(setup, Reach(setup, history), act).Ok?
    ensures InRange(setup.config, Reach(setup, history + [act]))
  {
    var s := Reach(setup, history);
    var r, open := HealthyRoom(setup, history);
    hide Reach, Kept, TotalsFit, Transition, NetFees, Room, InRange, Healthy;
    var r2, open2 := TransitionFollows(setup, s, r, open, act);
    Extended(setup, history, act);
    var t := Reach(setup, history + [act]);
    FollowsKept(setup, r, t, r2, open2, Guard(s, open, act));
    LedgerIsExact(setup, t, r2, open2);
  }

  /** A state stays healthy if no fees are swept and deposits and pending fees do not grow together. */
  lemma StaysHealthy(setup: Setup, history: seq<Action>, act: Action)
    requires Healthy(setup, history) && Transition(setup, Reach(setup, history), act).Ok? && !act.SweepFees?
    requires var s, t := Reach(setup, history).crank, Transition(setup, Reach(setup, history), act).value.crank;
             t.market.pcDeposits + NetFees(t.events) <= s.market.pcDeposits + NetFees(s.events)
    ensures Healthy(setup, history + [act])
  {
    StaysInRange(setup, history, act);
    Extended(setup, history, act);
    var later := history + [act];
    assert later[..|later| - 1] == history && later[|later| - 1] == act;
    hide Reach, InRange, NetFees, Transition;
  }

  // ----- consuming everything -----

  lemma {:induction false} ConsumeEmpties(s: State, limit: nat, loaded: set<nat>)
    requires |s.crank.events| <= limit && Consume(s, limit, loaded).Ok?
    requires forall e :: e in s.crank.events ==> e.owner in loaded && e.owner < |s.accounts|
    ensures var t := Consume(s, limit, loaded).value;
            && t == s.(accounts := t.accounts, crank := s.crank.(events := []))
            && |t.accounts| == |s.accounts|
    decreases limit
  {
    hide ApplyEvent;
    if s.crank.events != [] {
      var e := s.crank.events[0];
      assert e in s.crank.events;
      var a := ApplyEvent(s.accounts[e.owner], e).value;
      ConsumeEmpties(Consumed(s, a), limit - 1, loaded);
    }
  }

  /** A consumption can be split into calls with smaller limits, as the limit is a 16-bit number. */
  lemma {:induction false} ConsumeSplits(s: State, a: nat, b: nat, loaded: set<nat>)
    ensures Consume(s, a + b, loaded)
         == (match Consume(s, a, loaded)
             case Err(e) => Err(e)
             case Ok(mid) => Consume(mid, b, loaded))
    decreases a
  {
    hide ApplyEvent, Consumed;
    if a > 0 && s.crank.events != [] && s.crank.events[0].owner in loaded && s.crank.events[0].owner < |s.accounts| {
      var e := s.crank.events[0];
      var r := ApplyEvent(s.accounts[e.owner], e);
      if r.Ok? {
        ConsumeSplits(Consumed(s, r.value), a - 1, b, loaded);
      }
    }
  }

  /**
   With all accounts passed in, one call with a large enough limit fails, which it does not in a healthy
   market, or consumes every pending event.
   */
  lemma EventsDrain(setup: Setup, history: seq<Action>, limit: nat)
    requires |Reach(setup, history).crank.events| <= limit
    ensures var s := Reach(setup, history);
            var r := Consume(s, limit, Below(|s.accounts|));
            && (Healthy(setup, history) ==> r.Ok?)
            && (r.Ok? ==> r.value == s.(accounts := r.value.accounts, crank := s.crank.(events := []))
                          && |r.value.accounts| == |s.accounts|)
  {
    var s := Reach(setup, history);
    var all := Below(|s.accounts|);
    var r, open := ReachableKept(setup, history);
    forall e | e in s.crank.events ensures e.owner in all && e.owner < |s.accounts| {
      assert EventRegistered(r.accounts, e);
    }
    hide Reach, Kept, InRange, Consume, Healthy;
    if Healthy(setup, history) {
      ConsumptionNeverFails(setup, history, limit, all);
    }
    if Consume(s, limit, all).Ok? {
      ConsumeEmpties(s, limit, all);
    }
  }

  /** The pending events all pass the checks, when they are consumed now. */
  predicate Drains(s: State) {
    Consume(s, |s.crank.events|, Below(|s.accounts|)).Ok?
  }

  /** Without pending events every total is exact, whatever happened before. */
  lemma QuietIsHealthy(setup: Setup, history: seq<Action>)
    requires Reach(setup, history).crank.events == []
    ensures Healthy(setup, history)
  {
    var s := Reach(setup, history);
    var r, open := ReachableKept(setup, history);
    LedgerIsExact(setup, s, r, open);
    hide Reach, Inv, InRange;
    forall a | a in r.accounts ensures FitsU64(a.pcTotal) {
      var i :| 0 <= i < |r.accounts| && r.accounts[i] == a;
      QuietTotal(setup, r, open, i);
    }
    MarketInRange(setup, r);
  }

  lemma QuietTotal(setup: Setup, r: State, open: Option<Event>, i: nat)
    requires Inv(setup, r) && Paired(open, r.crank.events) && r.crank.events == [] && i < |r.accounts|
    ensures FitsU64(r.accounts[i].pcTotal)
  {
    TotalBound(setup, r, Bid, i, open);
    SettleCovered(setup, r, i);
    MarketInRange(setup, r);
    hide Inv;
  }

  // ----- winding the market up -----

  /** Instructions that only bring existing orders to an end and pay out. */
  predicate WindsUp(act: Action) {
    act.CancelById? || act.MatchOrders? || act.ConsumeEvents? || act.SettleFunds?
  }

  /** `later` continues `history` by such instructions. */
  ghost predicate Continues(history: seq<Action>, later: seq<Action>) {
    |history| <= |later| && later[..|history|] == history
    && forall i :: |history| <= i < |later| ==> WindsUp(later[i])
  }

  lemma ContinuesOn(history: seq<Action>, mid: seq<Action>, later: seq<Action>)
    requires Continues(history, mid) && Continues(mid, later)
    ensures Continues(history, later)
  {
    assert later[..|history|] == mid[..|history|];
    forall i | |history| <= i < |later| ensures WindsUp(later[i]) {
      if i < |mid| {
        assert later[i] == later[..|mid|][i];
      }
    }
  }

  /** No event is pending. */
  ghost predicate Quiet(setup: Setup, history: seq<Action>) {
    Reach(setup, history).crank.events == []
  }

  /** Consume everything; book, requests and counters stay. */
  lemma ConsumeAll(setup: Setup, history: seq<Action>) returns (later: seq<Action>)
    requires Drains(Reach(setup, history))
    ensures Continues(history, later) && Quiet(setup, later)
    ensures var s, t := Reach(setup, history), Reach(setup, later);
            t == s.(accounts := t.accounts, crank := s.crank.(events := [])) && |t.accounts| == |s.accounts|
  {
    hide Consume, Healthy;
    var s := Reach(setup, history);
    var act := ConsumeEvents(|s.crank.events|, Below(|s.accounts|));
    EventsDrain(setup, history, |s.crank.events|);
    later := history + [act];
    Extended(setup, history, act);
    hide Reach;
  }

  /** One step of the crank, and its events consumed. */
  lemma StepAndConsume(setup: Setup, history: seq<Action>) returns (later: seq<Action>)
    requires Quiet(setup, history) && Reach(setup, history).crank.requests != []
          && setup.eventCap >= MAX_EVENTS_PER_STEP
    ensures Continues(history, later) && Quiet(setup, later)
    ensures var s, t := Reach(setup, history), Reach(setup, later);
            var next := AfterStep(s.crank, Step(setup.config, s.crank.book, s.crank.requests[0]));
            && t == s.(accounts := t.accounts, crank := next.(events := [])) && |t.accounts| == |s.accounts|
  {
    hide InRange, NetFees, Step, Transition;
    var s := Reach(setup, history);
    var act := MatchOrders(1);
    StepSucceeds(setup, s);
    Extended(setup, history, act);
    RoomStays(setup, history);
    QuietIsHealthy(setup, history);
    StaysHealthy(setup, history, act);
    var mid := history + [act];
    EventsDrain(setup, mid, |Reach(setup, mid).crank.events|);
    hide Reach;
    later := ConsumeAll(setup, mid);
    ContinuesOn(history, mid, later);
  }

  lemma StepSucceeds(setup: Setup, s: State)
    requires s.crank.events == [] && s.crank.requests != [] && setup.eventCap >= MAX_EVENTS_PER_STEP
    ensures var next := AfterStep(s.crank, Step(setup.config, s.crank.book, s.crank.requests[0]));
            Transition(setup, s, MatchOrders(1)) == Ok(s.(crank := next))
  {
    StepEventBound(setup.config, s.crank.book, s.crank.requests[0]);
    hide Step;
    var next := AfterStep(s.crank, Step(setup.config, s.crank.book, s.crank.requests[0]));
    assert Run(setup.config, setup.eventCap, next, 0) == Ok(next);
  }

  /** A crank call moves fees from the deposits to pending fills, so the room for them stays the same. */
  lemma RoomStays(setup: Setup, history: seq<Action>)
    requires Transition(setup, Reach(setup, history), MatchOrders(1)).Ok?
    ensures var s, t := Reach(setup, history).crank,
          Transition(setup, Reach(setup, history), MatchOrders(1)).value.crank;
            t.market.pcDeposits + NetFees(t.events) == s.market.pcDeposits + NetFees(s.events)
  {
    hide Reach, Kept, Match, NetFees, Careful, SweptIdle;
    var r, open := ReachableKept(setup, history);
    MatchFollows(setup, Reach(setup, history), r, open, 1);
  }

  /** Turn the crank until no request is left. */
  lemma EmptyRequests(setup: Setup, history: seq<Action>) returns (later: seq<Action>)
    requires Quiet(setup, history) && setup.eventCap >= MAX_EVENTS_PER_STEP
    ensures Continues(history, later) && Quiet(setup, later)
    ensures var s, t := Reach(setup, history), Reach(setup, later);
            t.crank.requests == [] && t.nextSeq == s.nextSeq && |t.accounts| == |s.accounts|
    decreases Work(Reach(setup, history).crank)
  {
    hide Quiet, Step, Work;
    later := history;
    var s := Reach(setup, history);
    if s.crank.requests != [] {
      var mid := StepAndConsume(setup, history);
      CrankMayRun(setup, history);
      StepLowersWork(setup.config, s.crank, s.nextSeq);
      WorkIgnoresEvents(AfterStep(s.crank, Step(setup.config, s.crank.book, s.crank.requests[0])));
      hide Reach, CrankOk;
      later := EmptyRequests(setup, mid);
      ContinuesOn(history, mid, later);
    }
  }

  lemma WorkIgnoresEvents(s: CrankState)
    ensures Work(s.(events := [])) == Work(s)
  {
  }

  function Resting(s: State): nat {
    |s.crank.book.bids| + |s.crank.book.asks|
  }

  /** The first order of a side is cancelled by its owner. */
  lemma CancelSucceeds(setup: Setup, history: seq<Action>, side: Side)
    requires Reach(setup, history).crank.requests == [] && SideOf(Reach(setup, history).crank.book, side) != []
    requires setup.requestCap > 0 && Reach(setup, history).nextSeq + 1 < TWO64
    ensures var s := Reach(setup, history);
            var x := SideOf(s.crank.book, side)[0];
            Transition(setup, s, CancelById(x.owner, side, x.key, x.slot))
              == Ok(s.(crank := s.crank.(requests := [CancelOrder(side, x.key, s.nextSeq, x.slot, x.owner, 0)]),
                       nextSeq := s.nextSeq + 1))
  {
    var s := Reach(setup, history);
    var r, open := ReachableKept(setup, history);
    var x := SideOf(s.crank.book, side)[0];
    assert x in SideOf(r.crank.book, side) && LeafRegistered(r.accounts, side, x);
    hide Reach, Inv, Paired;
    assert [] + [CancelOrder(side, x.key, s.nextSeq, x.slot, x.owner, 0)]
        == [CancelOrder(side, x.key, s.nextSeq, x.slot, x.owner, 0)];
  }

  lemma CancelRemoves(setup: Setup, b: Book, side: Side, cancelId: nat)
    requires SideOf(b, side) != []
    ensures var x := SideOf(b, side)[0];
            var out := Step(setup.config, b, CancelOrder(side, x.key, cancelId, x.slot, x.owner, 0));
            out.book == WithSide(b, side, SideOf(b, side)[1..]) && out.rest.None?
  {
  }

  lemma CancelOne(setup: Setup, history: seq<Action>, side: Side) returns (later: seq<Action>)
    requires Quiet(setup, history) && setup.eventCap >= MAX_EVENTS_PER_STEP && setup.requestCap > 0
    requires var s := Reach(setup, history);
             s.crank.requests == [] && SideOf(s.crank.book, side) != [] && s.nextSeq + 1 < TWO64
    ensures Continues(history, later) && Quiet(setup, later)
    ensures var s, t := Reach(setup, history), Reach(setup, later);
            && t.crank.requests == [] && t.nextSeq == s.nextSeq + 1
            && |t.accounts| == |s.accounts| && Resting(t) == Resting(s) - 1
  {
    hide InRange, NetFees, Transition, Step;
    var s := Reach(setup, history);
    var x := SideOf(s.crank.book, side)[0];
    var act := CancelById(x.owner, side, x.key, x.slot);
    CancelSucceeds(setup, history, side);
    Extended(setup, history, act);
    CancelRemoves(setup, s.crank.book, side, s.nextSeq);
    var mid := history + [act];
    hide Reach;
    later := StepAndConsume(setup, mid);
    ContinuesOn(history, mid, later);
    assert Reach(setup, mid).crank.requests[1..] == [];
  }

  /** Cancel every resting order. */
  lemma CancelAll(setup: Setup, history: seq<Action>) returns (later: seq<Action>)
    requires Quiet(setup, history) && setup.eventCap >= MAX_EVENTS_PER_STEP && setup.requestCap > 0
    requires var s := Reach(setup, history); s.crank.requests == [] && s.nextSeq + Resting(s) < TWO64
    ensures Continues(history, later) && Quiet(setup, later)
    ensures var t := Reach(setup, later); Idle(t) && |t.accounts| == |Reach(setup, history).accounts|
    decreases Resting(Reach(setup, history))
  {
    hide Reach, Healthy;
    later := history;
    var s := Reach(setup, history);
    if Resting(s) > 0 {
      var mid := CancelOne(setup, history, if s.crank.book.bids != [] then Bid else Ask);
      later := CancelAll(setup, mid);
      ContinuesOn(history, mid, later);
    }
  }

  // ----- paying out -----

  lemma SettleOne(setup: Setup, history: seq<Action>, owner: nat) returns (later: seq<Action>)
    requires Quiet(setup, history) && Idle(Reach(setup, history)) && owner < |Reach(setup, history).accounts|
    ensures Continues(history, later) && Quiet(setup, later)
    ensures var s, t := Reach(setup, history), Reach(setup, later);
            Idle(t) && t.accounts == s.accounts[owner := Settled(s.accounts[owner])]
  {
    hide InRange, NetFees, LockedPc, Settle;
    var s := Reach(setup, history);
    var act := SettleFunds(owner, true);
    SettleSucceeds(setup, history, owner);
    Extended(setup, history, act);
    later := history + [act];
    hide Reach;
  }

  lemma SettleSucceeds(setup: Setup, history: seq<Action>, owner: nat)
    requires Idle(Reach(setup, history)) && owner < |Reach(setup, history).accounts|
    ensures var s, t := Reach(setup, history), Settle(Reach(setup, history), owner, true);
            && t.Ok? && Idle(t.value) && t.value.accounts == s.accounts[owner := Settled(s.accounts[owner])]
  {
    DrainedMarket(setup, history);
    SettlementCovered(setup, history, owner);
    hide Reach, SumAccounts;
  }

  /** Settle the accounts from number `owner` on. */
  lemma SettleFrom(setup: Setup, history: seq<Action>, owner: nat) returns (later: seq<Action>)
    requires Quiet(setup, history) && Idle(Reach(setup, history)) && owner <= |Reach(setup, history).accounts|
    requires forall i :: 0 <= i < owner ==> PaidOut(Reach(setup, history).accounts[i])
    ensures Continues(history, later) && Idle(Reach(setup, later))
    ensures forall a :: a in Reach(setup, later).accounts ==> PaidOut(a)
    decreases |Reach(setup, history).accounts| - owner
  {
    hide Reach, Healthy, Quiet, Idle;
    later := history;
    if owner < |Reach(setup, history).accounts| {
      var mid := SettleOne(setup, history, owner);
      later := SettleFrom(setup, mid, owner + 1);
      ContinuesOn(history, mid, later);
    }
  }

  /**
   From every reachable state whose pending events pass the checks, with sequence numbers left for the cancels,
   some instructions end with nothing in flight, everything paid out and only the unswept fees in the vaults.
   */
  lemma EverythingReturns(setup: Setup, history: seq<Action>) returns (later: seq<Action>)
    requires Drains(Reach(setup, history)) && setup.eventCap >= MAX_EVENTS_PER_STEP && setup.requestCap > 0
    requires Reach(setup, history).nextSeq + setup.config.bidSlots + setup.config.askSlots < TWO64
    ensures Continues(history, later) && Idle(Reach(setup, later))
    ensures forall a :: a in Reach(setup, later).accounts ==> PaidOut(a)
    ensures var t := Reach(setup, later); t.coinVault == 0 && t.pcVault == t.crank.market.pcFees
  {
    var h1 := ConsumeAll(setup, history);
    var h2 := EmptyRequests(setup, h1);
    FewResting(setup, h2);
    hide Reach, Quiet, Idle;
    var h3 := CancelAll(setup, h2);
    later := SettleFrom(setup, h3, 0);
    ContinuesOn(history, h1, h2);
    ContinuesOn(history, h2, h3);
    ContinuesOn(history, h3, later);
    FullySettled(setup, later);
  }

  /** A healthy market is among those states. */
  lemma HealthyDrains(setup: Setup, history: seq<Action>)
    requires Healthy(setup, history)
    ensures Drains(Reach(setup, history))
  {
    hide Reach, Healthy, Consume;
    EventsDrain(setup, history, |Reach(setup, history).crank.events|);
  }

  /**
   While the front event is refused, no such instructions exist: without a new bid its owner's market never
   comes to rest.
   */
  lemma StuckNeverReturns(setup: Setup, history: seq<Action>, later: seq<Action>)
    requires Stuck(Reach(setup, history)) && Continues(history, later)
    ensures !Idle(Reach(setup, later))
  {
    hide Reach, Relief, ApplyEvent;
    StuckMeans(setup, history);
    NoRelief(setup, history, later, Reach(setup, history).crank.events[0].owner);
    QueueBlocked(setup, history, later);
  }

  lemma {:induction false} NoRelief(setup: Setup, history: seq<Action>, later: seq<Action>, owner: nat)
    requires Continues(history, later)
    ensures Reliefs(setup, history, later, owner) == 0
    decreases |later|
  {
    hide Reach;
    if |later| > |history| {
      var n := |later| - 1;
      assert later[..n][..|history|] == later[..|history|];
      NoRelief(setup, history, later[..n], owner);
    }
  }

  lemma FewResting(setup: Setup, history: seq<Action>)
    ensures Resting(Reach(setup, history)) <= setup.config.bidSlots + setup.config.askSlots
  {
    BookNeverCrossed(setup, history);
    hide Reach, Uncrossed, Ascending, LeafOk;
  }
}
