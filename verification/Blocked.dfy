/**
 What happens once the program's check refuses the event at the front of the
 queue: no call consumes anything until bids of that event's owner make up for
 the shortfall, and if the event unlocks enough, no instructions ever do.
 */
module Blocked {
  import opened Numbers
  import opened Orders
  import opened Engine
  import opened Accounting
  import opened Events
  import opened Crank
  import opened Accounts
  import opened Exchange
  import opened Invariants
  import opened Lifecycle
  import opened Pairs
  import opened Ledger
  import opened Guarantees

  /** The event at the front is refused. */
  predicate Stuck(s: State) {
    && s.crank.events != [] && s.crank.events[0].owner < |s.accounts|
    && ApplyEvent(s.accounts[s.crank.events[0].owner], s.crank.events[0]).Err?
  }

  /** By how much the front event's unlock exceeds the part of its owner's stored total that is not free. */
  function Shortfall(s: State): int
    requires s.crank.events != [] && s.crank.events[0].Out? && s.crank.events[0].owner < |s.accounts|
  {
    var e := s.crank.events[0];
    s.accounts[e.owner].pcFree + e.unlocked - s.accounts[e.owner].pcTotal
  }

  /** In a reachable state only the unlock of a bid is ever refused, and exactly when there is a shortfall. */
  lemma StuckMeans(setup: Setup, history: seq<Action>)
    requires Reach(setup, history).crank.events != []
    ensures var s := Reach(setup, history);
            var e := s.crank.events[0];
            e.owner < |s.accounts| && (Stuck(s) <==> e.Out? && e.side == Bid && Shortfall(s) > 0)
  {
    var s := Reach(setup, history);
    var r, open := ReachableKept(setup, history);
    FrontFollows(setup, s, r, open);
    FrontParts(setup, s, r, open);
    LockOf(setup, s, r, open, s.crank.events[0].owner);
    hide Reach, Kept, Room, ApplyEvent, Follows, Next, Total, EventOk;
  }

  /** What an instruction locks for a bid of the given account, if it is one and succeeds. */
  function Relief(setup: Setup, s: State, act: Action, owner: nat): int {
    if act.PlaceOrder? && act.side == Bid && act.owner == owner && AcceptOrder(setup, s, act).Ok?
    then Cost(setup.config, Bid, act.price, act.qty, act.tier) else 0
  }

  /** The front stays in front, and the shortfall falls by the relief: by nothing else. */
  ghost predicate Holds(setup: Setup, s: State, act: Action, t: State)
    requires s.crank.events != [] && s.crank.events[0].Out? && s.crank.events[0].owner < |s.accounts|
  {
    && |s.crank.events| <= |t.crank.events| && t.crank.events[..|s.crank.events|] == s.crank.events
    && t.crank.events[0] == s.crank.events[0] && |s.accounts| <= |t.accounts|
    && Shortfall(t) == Shortfall(s) - Relief(setup, s, act, s.crank.events[0].owner)
  }

  lemma {:induction false} RunAppends(c: Config, eventCap: nat, s: CrankState, limit: nat)
    requires Run(c, eventCap, s, limit).Ok?
    ensures var t := Run(c, eventCap, s, limit).value;
            && |s.events| <= |t.events| && t.events[..|s.events|] == s.events
            && (|s.events| <= eventCap ==> |t.events| <= eventCap)
    decreases limit
  {
    hide Step;
    if limit > 0 && s.requests != [] {
      var mid := CrankStep(c, eventCap, s).value;
      RunAppends(c, eventCap, mid, limit - 1);
      var t := Run(c, eventCap, mid, limit - 1).value;
      assert t.events[..|s.events|] == t.events[..|mid.events|][..|s.events|];
    }
  }

  lemma AcceptHolds(setup: Setup, s: State, act: Action)
    requires Stuck(s) && s.crank.events[0].Out? && act.PlaceOrder? && AcceptOrder(setup, s, act).Ok?
    ensures Holds(setup, s, act, AcceptOrder(setup, s, act).value)
  {
    hide ApplyEvent, Cost, QueuedOrder, FreeFrom;
  }

  lemma SettleHolds(setup: Setup, s: State, owner: nat, withReferrer: bool)
    requires Stuck(s) && s.crank.events[0].Out? && Settle(s, owner, withReferrer).Ok?
    ensures Holds(setup, s, SettleFunds(owner, withReferrer), Settle(s, owner, withReferrer).value)
  {
    hide ApplyEvent;
  }

  /** What every instruction does to a refused event: consumption takes off nothing, only own bids help. */
  lemma StuckStep(setup: Setup, s: State, act: Action)
    requires Stuck(s) && s.crank.events[0].Out?
    ensures Holds(setup, s, act, Execute(setup, s, act))
    ensures act.ConsumeEvents? ==> Execute(setup, s, act) == s
  {
    hide ApplyEvent, AcceptOrder, Cost, Run, Settle;
    var t := Transition(setup, s, act);
    match act
    case PlaceOrder(_, _, _, _, _, _, _, _, _) =>
      if t.Ok? {
        AcceptHolds(setup, s, act);
      }
    case MatchOrders(limit) =>
      if t.Ok? {
        RunAppends(setup.config, setup.eventCap, s.crank, limit);
      }
    case SettleFunds(owner, withReferrer) =>
      if t.Ok? {
        SettleHolds(setup, s, owner, withReferrer);
      }
    case _ =>
  }

  // ----- a shortfall that bids can make up for -----

  lemma Extended(setup: Setup, history: seq<Action>, act: Action)
    ensures Reach(setup, history + [act]) == Execute(setup, Reach(setup, history), act)
  {
    hide Execute;
    assert (history + [act])[..|history|] == history;
  }

  /**
   The next instruction lets the front event pass if and only if it is an accepted bid of the owner that locks
   the shortfall.
   */
  lemma UnblocksExactlyWhen(setup: Setup, history: seq<Action>, act: Action)
    requires Stuck(Reach(setup, history))
    ensures var s, t := Reach(setup, history), Reach(setup, history + [act]);
            && s.crank.events[0].Out? && Holds(setup, s, act, t)
            && (Stuck(t) <==> Relief(setup, s, act, s.crank.events[0].owner) < Shortfall(s))
            && (act.ConsumeEvents? ==> t == s)
  {
    StuckMeans(setup, history);
    StuckStep(setup, Reach(setup, history), act);
    Extended(setup, history, act);
    StuckMeans(setup, history + [act]);
    hide Reach, Execute, Relief, ApplyEvent;
  }

  /** Sum of the reliefs of the instructions after `history`. */
  function Reliefs(setup: Setup, history: seq<Action>, later: seq<Action>, owner: nat): int
    decreases |later|
  {
    if |later| <= |history| then 0
    else
      var n := |later| - 1;
      Reliefs(setup, history, later[..n], owner) + Relief(setup, Reach(setup, later[..n]), later[n], owner)
  }

  lemma ReliefNonNegative(setup: Setup, s: State, act: Action, owner: nat)
    ensures 0 <= Relief(setup, s, act, owner)
  {
    hide Funded, AddOrder, Cost;
  }

  /**
   As long as the owner's bids lock less than the shortfall, the whole queue stays as it is, apart from new
   events behind it.
   */
  lemma {:induction false} QueueBlocked(setup: Setup, history: seq<Action>, later: seq<Action>)
    requires Stuck(Reach(setup, history)) && history <= later
    requires var s := Reach(setup, history);
             s.crank.events[0].Out? ==> Reliefs(setup, history, later, s.crank.events[0].owner) < Shortfall(s)
    ensures var s, t := Reach(setup, history), Reach(setup, later);
            && s.crank.events[0].Out? && Stuck(t) && s.crank.events <= t.crank.events
            && Shortfall(t) == Shortfall(s) - Reliefs(setup, history, later, s.crank.events[0].owner)
    decreases |later|
  {
    hide Reach, Relief, ApplyEvent;
    StuckMeans(setup, history);
    if |later| == |history| {
      assert later == history;
    } else {
      var n := |later| - 1;
      var mid, act, owner := later[..n], later[n], Reach(setup, history).crank.events[0].owner;
      ReliefNonNegative(setup, Reach(setup, mid), act, owner);
      assert history <= mid;
      QueueBlocked(setup, history, mid);
      UnblocksExactlyWhen(setup, mid, act);
      assert mid + [act] == later;
    }
  }

  // ----- a shortfall that nothing can make up for -----

  /** The event queue never exceeds its capacity. */
  lemma {:induction false} EventsWithin(setup: Setup, history: seq<Action>)
    ensures |Reach(setup, history).crank.events| <= setup.eventCap
  {
    hide Execute;
    if history != [] {
      var before := history[..|history| - 1];
      EventsWithin(setup, before);
      ExecuteWithin(setup, Reach(setup, before), history[|history| - 1]);
    }
  }

  lemma ExecuteWithin(setup: Setup, s: State, act: Action)
    requires |s.crank.events| <= setup.eventCap
    ensures |Execute(setup, s, act).crank.events| <= setup.eventCap
  {
    hide AcceptOrder, Run, Consume, Settle;
    var t := Transition(setup, s, act);
    if t.Ok? {
      match act
      case PlaceOrder(_, _, _, _, _, _, _, _, _) => PlaceSameFees(setup, s, act);
      case MatchOrders(limit) => RunAppends(setup.config, setup.eventCap, s.crank, limit);
      case ConsumeEvents(limit, loaded) => ConsumeShrinks(s, limit, loaded);
      case SettleFunds(owner, withReferrer) => SettleSameEvents(s, owner, withReferrer);
      case _ =>
    }
  }

  lemma {:induction false} ConsumeShrinks(s: State, limit: nat, loaded: set<nat>)
    ensures Consume(s, limit, loaded).Ok? ==> |Consume(s, limit, loaded).value.crank.events| <= |s.crank.events|
    decreases limit
  {
    hide ApplyEvent;
    if limit > 0 && s.crank.events != [] && s.crank.events[0].owner in loaded
        && s.crank.events[0].owner < |s.accounts| {
      var a := ApplyEvent(s.accounts[s.crank.events[0].owner], s.crank.events[0]);
      if a.Ok? {
        ConsumeShrinks(Consumed(s, a.value), limit - 1, loaded);
      }
    }
  }

  lemma SettleSameEvents(s: State, owner: nat, withReferrer: bool)
    ensures Settle(s, owner, withReferrer).Ok? ==> Settle(s, owner, withReferrer).value.crank.events == s.crank.events
  {
  }

  /** The front unlocks more than all pending fees together can be. */
  predicate Large(setup: Setup, s: State) {
    && s.crank.events != [] && s.crank.events[0].Out? && s.crank.events[0].side == Bid
    && 400 * s.crank.events[0].unlocked >= TWO64 + 800 * setup.eventCap
  }

  /** What the owner of a large unlock owns beyond it is below 2^64. */
  lemma LargeBound(setup: Setup, history: seq<Action>)
    requires Large(setup, Reach(setup, history))
    ensures var s := Reach(setup, history);
            var e := s.crank.events[0];
            && e.owner < |s.accounts|
            && var a, locked := s.accounts[e.owner], Total(setup.config, PcLock(e.owner), s.crank);
               0 <= a.pcFree && e.unlocked <= locked && a.pcFree + locked - e.unlocked < TWO64
  {
    var s := Reach(setup, history);
    var e := s.crank.events[0];
    var r, open := ReachableKept(setup, history);
    EventsWithin(setup, history);
    FrontParts(setup, s, r, open);
    LockOf(setup, s, r, open, e.owner);
    hide Reach;
    LedgerBound(setup, r, open);
    hide Kept, Total;
  }

  /** The exact total of the owner of a bid's unlock at the front, against the deposits and the fees. */
  lemma LedgerBound(setup: Setup, r: State, open: Option<Event>)
    requires Inv(setup, r) && Paired(open, r.crank.events) && r.crank.events != []
    requires r.crank.events[0].Out? && r.crank.events[0].side == Bid
    ensures r.crank.events[0].owner < |r.accounts|
    ensures 400 * r.accounts[r.crank.events[0].owner].pcTotal < 401 * TWO64 + 800 * |r.crank.events|
  {
    FrontEventOk(setup, r);
    var e := r.crank.events[0];
    OpenBid(open, r.crank.events);
    TotalBound(setup, r, Bid, e.owner, open);
    MarketInRange(setup, r);
    MeasureCovered(setup, r, PcFree);
    SumAccountsNonNegative(PcFree, r.accounts);
    assert Booked(PcFree, r.crank.market, r.accounts) == Total(setup.config, PcFree, r.crank);
    assert EventQueueOk(r.crank.events);
    hide Inv, Paired, NetFees, EventOk, SumEvents, SumRequests, BookSum, SumAccounts, NothingAfterOut, Matches;
    FeesAreSmall(open, r.crank.events);
  }

  /** Before the unlock of a bid no ask's fill is waiting for its taker. */
  lemma OpenBid(open: Option<Event>, s: seq<Event>)
    requires Paired(open, s) && s != [] && s[0].Out? && s[0].side == Bid
    ensures Received(open) == 0 && forall owner: nat :: 0 <= Carry(Bid, owner, open)
  {
    if open.Some? {
      OpenPaid(open.value, s);
    }
  }

  lemma {:induction false} OpenPaid(m: Event, s: seq<Event>)
    requires Paired(Some(m), s)
    ensures m.Fill? && 0 <= m.paid
    decreases |s|
  {
    if s[0].Out? {
      OpenPaid(m, s[1..]);
    }
  }

  /** A large unlock is refused exactly when its owner's exact total has reached 2^64. */
  lemma LargeStuck(setup: Setup, history: seq<Action>)
    requires Large(setup, Reach(setup, history))
    ensures var s := Reach(setup, history);
            var e := s.crank.events[0];
            && e.owner < |s.accounts|
            && (Stuck(s) <==> s.accounts[e.owner].pcFree + Total(setup.config, PcLock(e.owner), s.crank) >= TWO64)
  {
    hide Reach, Total, ApplyEvent;
    LargeBound(setup, history);
    ConsumesExactlyWhen(setup, history);
    var s := Reach(setup, history);
    var e := s.crank.events[0];
    var a, locked := s.accounts[e.owner], Total(setup.config, PcLock(e.owner), s.crank);
    SmallRest(a.pcFree, e.unlocked, locked);
  }

  lemma SmallRest(free: int, unlocked: int, locked: int)
    requires 0 <= free && unlocked <= locked && free + locked - unlocked < TWO64
    ensures free + unlocked + (locked - unlocked) % TWO64 == free + locked
  {
  }

  /** An accepted bid adds to what its owner has free and locked together. */
  lemma BidAdds(setup: Setup, s: State, act: Action)
    requires act.PlaceOrder? && act.side == Bid && AcceptOrder(setup, s, act).Ok? && s.accounts[act.owner].pcFree >= 0
    ensures var t, lock := AcceptOrder(setup, s, act).value, PcLock(act.owner);
            && act.owner < |t.accounts|
            && s.accounts[act.owner].pcFree + Total(setup.config, lock, s.crank)
               <= t.accounts[act.owner].pcFree + Total(setup.config, lock, t.crank)
  {
    hide Cost, FreeFrom, OrderId;
    var d := DeskOf(s, act.owner);
    var lock := Cost(setup.config, act.side, act.price, act.qty, act.tier);
    var funded := Funded(d, act.side, lock, act.payerFunds).value;
    var slot := AddOrder(funded.account,
        OpenOrder(OrderId(act.side, act.price, s.nextSeq), act.side, act.clientId)).value.1;
    var q := NewOrder(QueuedOrder(act, s.nextSeq, slot, lock));
    SumRequestsConcat(setup.config, PcLock(act.owner), s.crank.requests, [q]);
    OneRequest(setup.config, PcLock(act.owner), q);
  }

  /** No instruction at all makes a refused large unlock pass. */
  lemma LargeStaysStuck(setup: Setup, history: seq<Action>, act: Action)
    requires Stuck(Reach(setup, history)) && Large(setup, Reach(setup, history))
    ensures var s, t := Reach(setup, history), Reach(setup, history + [act]);
            Stuck(t) && Large(setup, t) && s.crank.events <= t.crank.events
  {
    var s, t := Reach(setup, history), Reach(setup, history + [act]);
    var owner := s.crank.events[0].owner;
    UnblocksExactlyWhen(setup, history, act);
    StuckMeans(setup, history);
    assert Large(setup, t);
    if Relief(setup, s, act, owner) > 0 {
      LargeStuck(setup, history);
      LargeBound(setup, history);
      Extended(setup, history, act);
      BidAdds(setup, s, act);
      LargeStuck(setup, history + [act]);
      hide Reach, Relief, ApplyEvent, Total, AcceptOrder;
    }
  }

  /** Then the event queue of the market is blocked for good: whatever follows, nothing is ever consumed again. */
  lemma {:induction false} BlockedForever(setup: Setup, history: seq<Action>, later: seq<Action>)
    requires Stuck(Reach(setup, history)) && Large(setup, Reach(setup, history)) && history <= later
    ensures var s, t := Reach(setup, history), Reach(setup, later);
            Stuck(t) && Large(setup, t) && s.crank.events <= t.crank.events
    decreases |later|
  {
    hide Reach, Stuck, Large;
    if |later| == |history| {
      assert later == history;
    } else {
      var n := |later| - 1;
      assert history <= later[..n] && later[..n] + [later[n]] == later;
      BlockedForever(setup, history, later[..n]);
      LargeStaysStuck(setup, later[..n], later[n]);
    }
  }
}
