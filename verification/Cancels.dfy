/**
 A cancel takes effect.  Requests are handled in the order of their sequence
 numbers, so when a cancel is handled the order it names is not waiting behind it.
 */
module Cancels {
  import opened Numbers
  import opened Orders
  import opened Ladder
  import opened Engine
  import opened BookLaws
  import opened Accounting
  import opened Crank
  import opened Accounts
  import opened Exchange
  import opened Invariants
  import opened Guarantees
  import opened Blocked

  function RequestSeq(r: Request): int {
    if r.NewOrder? then SeqOf(r.order.side, r.order.id) else r.cancelId
  }

  /** Requests are queued in the order of their sequence numbers, and none is ahead of the counter. */
  ghost predicate QueueNumbered(s: seq<Request>, n: int) {
    && (forall r :: r in s ==> RequestSeq(r) < n)
    && forall i, j :: 0 <= i < j < |s| ==> RequestSeq(s[i]) < RequestSeq(s[j])
  }

  /** The orders that an account lists were numbered before `n`. */
  ghost predicate ListNumbered(a: Account, n: int) {
    forall i :: i in a.orders ==> SeqOf(a.orders[i].side, a.orders[i].id) < n
  }

  ghost predicate Numbered(s: State) {
    && QueueNumbered(s.crank.requests, s.nextSeq)
    && forall a :: a in s.accounts ==> ListNumbered(a, s.nextSeq)
  }

  lemma RestKeepsId(c: Config, b: Book, r: Request)
    ensures var rest := Step(c, b, r).rest;
            rest.Some? ==> r.NewOrder? && rest.value.id == r.order.id && rest.value.side == r.order.side
  {
    hide PostBid, PostAsk, ReduceBid, ReduceAsk, Notional, Find, Remove, BidTradeQty, Price;
  }

  lemma {:induction false} RunNumbered(c: Config, eventCap: nat, s: CrankState, limit: nat, n: int)
    requires QueueNumbered(s.requests, n) && Run(c, eventCap, s, limit).Ok?
    ensures QueueNumbered(Run(c, eventCap, s, limit).value.requests, n)
    decreases limit
  {
    hide Step, SeqOf;
    if limit > 0 && s.requests != [] {
      RestKeepsId(c, s.book, s.requests[0]);
      assert s.requests[0] in s.requests;
      RunNumbered(c, eventCap, CrankStep(c, eventCap, s).value, limit - 1, n);
    }
  }

  lemma {:induction false} ConsumeNumbered(s: State, limit: nat, loaded: set<nat>)
    requires Numbered(s) && Consume(s, limit, loaded).Ok?
    ensures Numbered(Consume(s, limit, loaded).value)
    decreases limit
  {
    hide SeqOf, QueueNumbered;
    if limit > 0 && s.crank.events != [] && s.crank.events[0].owner in loaded
        && s.crank.events[0].owner < |s.accounts| {
      var e := s.crank.events[0];
      var a := ApplyEvent(s.accounts[e.owner], e).value;
      assert s.accounts[e.owner] in s.accounts && ListNumbered(a, s.nextSeq);
      ConsumeNumbered(Consumed(s, a), limit - 1, loaded);
    }
  }

  lemma AcceptNumbered(setup: Setup, s: State, act: Action)
    requires Numbered(s) && act.PlaceOrder? && AcceptOrder(setup, s, act).Ok?
    ensures Numbered(AcceptOrder(setup, s, act).value)
  {
    hide SeqOf, Cost, FreeFrom, OrderId, LockFunds;
    OrderIdFields(act.side, act.price, s.nextSeq);
    var t := AcceptOrder(setup, s, act).value;
    var before, after := s.accounts[act.owner], t.accounts[act.owner];
    assert before in s.accounts;
    LockKeepsOrders(before, act.side, LockAmount(setup.config, act.side, act.price, act.qty, act.tier).value);
    assert ListNumbered(after, t.nextSeq);
    hide ListNumbered;
    assert t.accounts == s.accounts[act.owner := after];
    forall a | a in s.accounts ensures ListNumbered(a, t.nextSeq) {
      ListLater(a, s.nextSeq);
    }
  }

  lemma LockKeepsOrders(a: Account, side: Side, lock: nat)
    ensures LockFunds(a, side, lock).0.orders == a.orders
  {
  }

  lemma ListLater(a: Account, n: int)
    requires ListNumbered(a, n)
    ensures ListNumbered(a, n + 1)
  {
  }

  lemma SettleNumbered(s: State, owner: nat, withReferrer: bool)
    requires Numbered(s) && Settle(s, owner, withReferrer).Ok?
    ensures Numbered(Settle(s, owner, withReferrer).value)
  {
    hide SeqOf, QueueNumbered;
    assert s.accounts[owner] in s.accounts;
  }

  lemma ExecuteNumbered(setup: Setup, s: State, act: Action)
    requires Numbered(s)
    ensures Numbered(Execute(setup, s, act))
  {
    hide AcceptOrder, Run, Consume, Settle, SeqOf;
    var t := Transition(setup, s, act);
    if t.Ok? {
      match act
      case PlaceOrder(_, _, _, _, _, _, _, _, _) => AcceptNumbered(setup, s, act);
      case MatchOrders(limit) => RunNumbered(setup.config, setup.eventCap, s.crank, limit, s.nextSeq);
      case ConsumeEvents(limit, loaded) => ConsumeNumbered(s, limit, loaded);
      case SettleFunds(owner, withReferrer) => SettleNumbered(s, owner, withReferrer);
      case _ =>
    }
  }

  lemma {:induction false} ReachableNumbered(setup: Setup, history: seq<Action>)
    ensures Numbered(Reach(setup, history))
  {
    hide Execute;
    if history != [] {
      ReachableNumbered(setup, history[..|history| - 1]);
      ExecuteNumbered(setup, Reach(setup, history[..|history| - 1]), history[|history| - 1]);
    }
  }

  /** A cancel by client id names the first listed order with that client id, which is older than the cancel. */
  lemma ClientCancelNames(setup: Setup, history: seq<Action>, owner: nat, clientId: nat)
    requires CancelClient(setup, Reach(setup, history), owner, clientId).Ok?
    ensures var s, t := Reach(setup, history), CancelClient(setup, Reach(setup, history), owner, clientId).value;
            exists slot | slot in s.accounts[owner].orders ::
              var order := s.accounts[owner].orders[slot];
              && order.clientId == clientId && SeqOf(order.side, order.id) < s.nextSeq
              && (forall i: nat :: i < slot && i in s.accounts[owner].orders ==>
                    s.accounts[owner].orders[i].clientId != clientId)
              && t.crank.requests == s.crank.requests + [CancelOrder(order.side, order.id, s.nextSeq, slot, owner,
                  clientId)]
  {
    var s := Reach(setup, history);
    ReachableNumbered(setup, history);
    hide Reach, SeqOf;
    var slot := ClientSlotFrom(s.accounts[owner].orders, clientId, 0).value;
    assert s.accounts[owner] in s.accounts && slot in s.accounts[owner].orders;
  }

  predicate NamesLeafOf(x: Leaf, id: nat, owner: nat, slot: nat) {
    x.key == id && x.owner == owner && x.slot == slot
  }

  /**
   When a cancel is handled that was queued after the order it names, that order is afterwards neither resting
   nor queued.
   */
  lemma CancelTakesEffect(setup: Setup, history: seq<Action>)
    requires var q := Reach(setup, history).crank.requests;
             q != [] && q[0].CancelOrder? && SeqOf(q[0].side, q[0].id) < q[0].cancelId
    ensures var s := Reach(setup, history).crank;
            var q, next := s.requests[0], AfterStep(s, Step(setup.config, s.book, s.requests[0]));
            && (forall x :: x in SideOf(next.book, q.side) ==> !NamesLeafOf(x, q.id, q.owner, q.slot))
            && (forall r :: r in next.requests && r.NewOrder? ==> !(r.order.side == q.side && r.order.id == q.id))
  {
    ReachableNumbered(setup, history);
    BookNeverCrossed(setup, history);
    hide Reach, SeqOf, BookOk;
    CancelHandled(setup.config, Reach(setup, history).crank, Reach(setup, history).nextSeq);
  }

  lemma CancelHandled(c: Config, s: CrankState, n: int)
    requires BookOk(c, s.book) && QueueNumbered(s.requests, n)
    requires var q := s.requests; q != [] && q[0].CancelOrder? && SeqOf(q[0].side, q[0].id) < q[0].cancelId
    ensures var q, next := s.requests[0], AfterStep(s, Step(c, s.book, s.requests[0]));
            && (forall x :: x in SideOf(next.book, q.side) ==> !NamesLeafOf(x, q.id, q.owner, q.slot))
            && (forall r :: r in next.requests && r.NewOrder? ==> !(r.order.side == q.side && r.order.id == q.id))
  {
    hide SeqOf, BookOk, Find, Remove;
    var q := s.requests[0];
    assert [] + s.requests[1..] == s.requests[1..];
    forall r | r in s.requests[1..] && r.NewOrder? ensures !(r.order.side == q.side && r.order.id == q.id) {
      var j :| 0 <= j < |s.requests[1..]| && s.requests[1..][j] == r;
      assert RequestSeq(s.requests[0]) < RequestSeq(s.requests[j + 1]);
    }
    GoneFrom(c, s.book, q.side, q.id, q.owner, q.slot);
  }

  lemma GoneFrom(c: Config, b: Book, side: Side, id: nat, owner: nat, slot: nat)
    requires BookOk(c, b)
    ensures forall x :: x in SideOf(CancelStep(c, b, side, id, owner, slot).book, side) ==>
              !NamesLeafOf(x, id, owner, slot)
  {
    hide LeafOk, Uncrossed;
    var s := SideOf(b, side);
    RemoveAscending(s, id);
    if Find(s, id).Some? {
      OnlyOne(s, Find(s, id).value);
    }
  }

  lemma OnlyOne(s: seq<Leaf>, x: Leaf)
    requires Ascending(s) && x in s
    ensures forall y :: y in s && y.key == x.key ==> y == x
  {
  }

  /** And if the account still lists the order, its fully-out event is pending. */
  lemma CancelEndsOrder(setup: Setup, history: seq<Action>)
    requires var q := Reach(setup, history).crank.requests;
             q != [] && q[0].CancelOrder? && SeqOf(q[0].side, q[0].id) < q[0].cancelId
    requires Match(setup, Reach(setup, history), 1).Ok?
          && Reach(setup, history).crank.requests[0].owner < |Reach(setup, history).accounts|
    ensures var q, t := Reach(setup, history).crank.requests[0], Reach(setup, history + [MatchOrders(1)]);
            && q.owner < |t.accounts|
            && (q.slot in t.accounts[q.owner].orders
                && t.accounts[q.owner].orders[q.slot].side == q.side
                    && t.accounts[q.owner].orders[q.slot].id == q.id ==>
                  SumEvents(Place(q.owner, q.slot), t.crank.events) == 1)
  {
    var s := Reach(setup, history);
    var q := s.crank.requests[0];
    CancelTakesEffect(setup, history);
    Extended(setup, history, MatchOrders(1));
    var t := Reach(setup, history + [MatchOrders(1)]);
    MatchOne(setup, s);
    OrderLifecycle(setup, history + [MatchOrders(1)], q.owner, q.slot);
    hide Reach, Step, SeqOf, SumEvents;
    if q.slot in t.accounts[q.owner].orders && t.accounts[q.owner].orders[q.slot].side == q.side
       && t.accounts[q.owner].orders[q.slot].id == q.id {
      OnlyEvents(setup.config, t, q.side, q.id, q.owner, q.slot);
    }
  }

  lemma MatchOne(setup: Setup, s: State)
    requires s.crank.requests != [] && Match(setup, s, 1).Ok?
    ensures Match(setup, s, 1).value
          == s.(crank := AfterStep(s.crank, Step(setup.config, s.crank.book, s.crank.requests[0])))
  {
    hide Step;
    var r := CrankStep(setup.config, setup.eventCap, s.crank);
    assert Run(setup.config, setup.eventCap, r.value, 0) == Ok(r.value);
  }

  /** An order that is neither queued nor resting weighs nothing there. */
  lemma OnlyEvents(c: Config, t: State, side: Side, id: nat, owner: nat, slot: nat)
    requires AllRegistered(t) && owner < |t.accounts| && slot in t.accounts[owner].orders
    requires t.accounts[owner].orders[slot].side == side && t.accounts[owner].orders[slot].id == id
    requires forall x :: x in SideOf(t.crank.book, side) ==> !NamesLeafOf(x, id, owner, slot)
    requires forall r :: r in t.crank.requests && r.NewOrder? ==> !(r.order.side == side && r.order.id == id)
    ensures var m := Place(owner, slot);
            && SumRequests(c, m, t.crank.requests) == 0
            && SumLeaves(c, m, Bid, t.crank.book.bids) == 0 && SumLeaves(c, m, Ask, t.crank.book.asks) == 0
  {
    var m := Place(owner, slot);
    forall r | r in t.crank.requests && r.NewOrder? ensures !Names(m, r.order.owner, r.order.slot) {
      assert OrderRegistered(t.accounts, r.order);
    }
    forall x | x in t.crank.book.bids ensures !Names(m, x.owner, x.slot) {
      assert LeafRegistered(t.accounts, Bid, x);
      assert side == Bid ==> x in SideOf(t.crank.book, side) && !NamesLeafOf(x, id, owner, slot);
    }
    forall x | x in t.crank.book.asks ensures !Names(m, x.owner, x.slot) {
      assert LeafRegistered(t.accounts, Ask, x);
      assert side == Ask ==> x in SideOf(t.crank.book, side) && !NamesLeafOf(x, id, owner, slot);
    }
    hide AllRegistered;
    RequestsAbsent(c, m, t.crank.requests);
    LeavesAbsent(c, m, Bid, t.crank.book.bids);
    LeavesAbsent(c, m, Ask, t.crank.book.asks);
  }
}
