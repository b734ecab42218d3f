/**
 The invariant of the market and its preservation by instructions, for a state
 whose balances are exact numbers.  Module Ledger says how the words that the
 program stores relate to such a state.
 */
module Invariants {
  import opened Numbers
  import opened Fees
  import opened Orders
  import opened Ladder
  import opened Engine
  import opened BookLaws
  import opened Accounting
  import opened Events
  import opened Crank
  import opened Accounts
  import opened Exchange

  // ----- what the balances say of a measure -----

  function AccountField(m: Measure, a: Account): int {
    match m
    case PcFree => a.pcFree
    case CoinFree => a.coinFree
    case PcNet => a.pcTotal
    case CoinNet => a.coinTotal
    case Referral => a.referrals
    case _ => 0
  }

  function SumAccounts(m: Measure, s: seq<Account>): int {
    if s == [] then 0 else SumAccounts(m, s[..|s| - 1]) + AccountField(m, s[|s| - 1])
  }

  function MarketField(m: Measure, k: Market): int {
    match m
    case PcFree => k.pcDeposits
    case CoinFree => k.coinDeposits
    case PcNet => k.pcDeposits
    case CoinNet => k.coinDeposits
    case Referral => k.referrals
    case _ => 0
  }

  /** What one account shows of the measures that name it. */
  function Held(m: Measure, a: Account): int {
    match m
    case PcLock(_) => a.pcTotal - a.pcFree
    case CoinLock(_) => a.coinTotal - a.coinFree
    case Place(_, i) => if i in a.orders then 1 else 0
    case _ => 0
  }

  predicate Global(m: Measure) {
    m.PcFree? || m.CoinFree? || m.PcNet? || m.CoinNet? || m.Referral?
  }

  predicate Meaningful(m: Measure, accounts: nat) {
    !Global(m) ==> m.owner < accounts
  }

  function Booked(m: Measure, k: Market, accounts: seq<Account>): int
    requires Meaningful(m, |accounts|)
  {
    if Global(m) then MarketField(m, k) - SumAccounts(m, accounts) else Held(m, accounts[m.owner])
  }

  /** The master equation: what the balances say equals what requests, book and events hold. */
  ghost predicate Balanced(c: Config, s: State) {
    forall m :: Meaningful(m, |s.accounts|) ==>
      Booked(m, s.crank.market, s.accounts) == Total(c, m, s.crank)
  }

  // ----- every order in flight is registered in a slot of its account -----

  ghost predicate Registered(accounts: seq<Account>, owner: nat, slot: nat, order: OpenOrder) {
    && owner < |accounts| && slot < SLOT_COUNT
    && slot in accounts[owner].orders && accounts[owner].orders[slot] == order
  }

  ghost predicate OrderRegistered(accounts: seq<Account>, o: Order) {
    Registered(accounts, o.owner, o.slot, OpenOrder(o.id, o.side, o.clientId))
  }

  ghost predicate LeafRegistered(accounts: seq<Account>, side: Side, x: Leaf) {
    Registered(accounts, x.owner, x.slot, OpenOrder(x.key, side, x.clientId))
  }

  ghost predicate EventRegistered(accounts: seq<Account>, e: Event) {
    Registered(accounts, e.owner, e.slot, OpenOrder(e.id, e.side, e.clientId))
  }

  ghost predicate BookRegistered(accounts: seq<Account>, b: Book) {
    && (forall x :: x in b.bids ==> LeafRegistered(accounts, Bid, x))
    && (forall x :: x in b.asks ==> LeafRegistered(accounts, Ask, x))
  }

  ghost predicate RequestsRegistered(accounts: seq<Account>, s: seq<Request>) {
    forall r :: r in s && r.NewOrder? ==> OrderRegistered(accounts, r.order)
  }

  ghost predicate EventsRegistered(accounts: seq<Account>, s: seq<Event>) {
    forall e :: e in s ==> EventRegistered(accounts, e)
  }

  ghost predicate AllRegistered(s: State) {
    && RequestsRegistered(s.accounts, s.crank.requests)
    && BookRegistered(s.accounts, s.crank.book)
    && EventsRegistered(s.accounts, s.crank.events)
  }

  ghost predicate EventQueueOk(s: seq<Event>) {
    (forall e :: e in s ==> EventOk(e)) && NothingAfterOut(s)
  }

  ghost predicate AccountOk(a: Account) {
    && 0 <= a.coinFree && 0 <= a.pcFree && 0 <= a.referrals
    && forall i :: i in a.orders ==> i < SLOT_COUNT
  }

  ghost predicate AccountsOk(s: seq<Account>) {
    forall a :: a in s ==> AccountOk(a)
  }

  /** The vaults hold exactly what the market account says. */
  ghost predicate Solvent(s: State) {
    && s.pcVault == s.crank.market.pcDeposits + s.crank.market.pcFees + s.crank.market.referrals
    && s.coinVault == s.crank.market.coinDeposits
    && FitsU64(s.pcVault) && FitsU64(s.coinVault)
  }

  ghost predicate Inv(setup: Setup, s: State) {
    && CrankOk(setup.config, s.crank, s.nextSeq)
    && Balanced(setup.config, s)
    && AllRegistered(s)
    && EventQueueOk(s.crank.events)
    && AccountsOk(s.accounts)
    && Solvent(s)
    && s.nextSeq < TWO64
  }

  // ----- sums over accounts -----

  lemma {:induction false} SumAccountsUpdate(m: Measure, s: seq<Account>, i: nat, a: Account)
    requires i < |s|
    ensures SumAccounts(m, s[i := a]) == SumAccounts(m, s) - AccountField(m, s[i]) + AccountField(m, a)
  {
    var n := |s| - 1;
    if i == n {
      assert s[i := a][..n] == s[..n];
    } else {
      assert s[i := a][..n] == s[..n][i := a];
      SumAccountsUpdate(m, s[..n], i, a);
    }
  }

  lemma {:induction false} SumAccountsNonNegative(m: Measure, s: seq<Account>)
    requires AccountsOk(s) && (m == PcFree || m == CoinFree || m == Referral)
    ensures 0 <= SumAccounts(m, s)
    ensures forall i :: 0 <= i < |s| ==> AccountField(m, s[i]) <= SumAccounts(m, s)
  {
    if s != [] {
      var n := |s| - 1;
      SumAccountsNonNegative(m, s[..n]);
      assert forall i :: 0 <= i < n ==> s[i] == s[..n][i];
      assert AccountOk(s[n]);
    }
  }

  /** Replacing one account changes a measure by what that account shows. */
  lemma BookedUpdate(m: Measure, k: Market, s: seq<Account>, i: nat, a: Account)
    requires i < |s| && Meaningful(m, |s|)
    ensures Booked(m, k, s[i := a])
         == Booked(m, k, s)
          + (if Global(m) then AccountField(m, s[i]) - AccountField(m, a)
             else if m.owner == i then Held(m, a) - Held(m, s[i]) else 0)
  {
    if Global(m) {
      SumAccountsUpdate(m, s, i, a);
    }
  }

  // ----- absent names weigh nothing -----

  ghost predicate Names(m: Measure, owner: nat, slot: nat) {
    (m.PcLock? || m.CoinLock? || m.Place?) && m.owner == owner && (m.Place? ==> m.slot == slot)
  }

  lemma {:induction false} EventsAbsent(m: Measure, s: seq<Event>)
    requires !Global(m) && forall e :: e in s ==> !Names(m, e.owner, e.slot)
    ensures SumEvents(m, s) == 0
  {
    if s != [] {
      assert s[0] in s;
      EventsAbsent(m, s[1..]);
    }
  }

  lemma {:induction false} LeavesAbsent(c: Config, m: Measure, side: Side, s: seq<Leaf>)
    requires !Global(m) && forall x :: x in s ==> !Names(m, x.owner, x.slot)
    ensures SumLeaves(c, m, side, s) == 0
  {
    if s != [] {
      assert s[0] in s;
      LeavesAbsent(c, m, side, s[1..]);
    }
  }

  lemma {:induction false} RequestsAbsent(c: Config, m: Measure, s: seq<Request>)
    requires !Global(m) && forall r :: r in s && r.NewOrder? ==> !Names(m, r.order.owner, r.order.slot)
    ensures SumRequests(c, m, s) == 0
  {
    if s != [] {
      assert s[0] in s;
      RequestsAbsent(c, m, s[1..]);
    }
  }

  /** A measure of an account that nothing names yet is zero. */
  lemma NothingNamed(c: Config, m: Measure, s: State)
    requires AllRegistered(s) && !Global(m) && m.owner >= |s.accounts|
    ensures Total(c, m, s.crank) == 0
  {
    RequestsAbsent(c, m, s.crank.requests);
    LeavesAbsent(c, m, Bid, s.crank.book.bids);
    LeavesAbsent(c, m, Ask, s.crank.book.asks);
    EventsAbsent(m, s.crank.events);
  }

  // ----- OpenAccount -----

  lemma OpenAccountKeeps(setup: Setup, s: State)
    requires Inv(setup, s)
    ensures Inv(setup, s.(accounts := s.accounts + [EMPTY_ACCOUNT]))
  {
    hide CrankOk, EventQueueOk, Total;
    var t := s.(accounts := s.accounts + [EMPTY_ACCOUNT]);
    forall m | Meaningful(m, |t.accounts|)
      ensures Booked(m, t.crank.market, t.accounts) == Total(setup.config, m, t.crank)
    {
      assert t.accounts[..|t.accounts| - 1] == s.accounts;
      if !Global(m) && m.owner == |s.accounts| {
        NothingNamed(setup.config, m, s);
      } else {
        assert Meaningful(m, |s.accounts|);
      }
    }
    RegisteredMonotone(s.accounts, t.accounts, s);
  }

  /** Registration survives any change that keeps the occupied slots of every account. */
  lemma RegisteredMonotone(before: seq<Account>, after: seq<Account>, s: State)
    requires |before| <= |after| && s.accounts == before && AllRegistered(s)
    requires forall i, k :: 0 <= i < |before| && k in before[i].orders ==>
               k in after[i].orders && after[i].orders[k] == before[i].orders[k]
    ensures RequestsRegistered(after, s.crank.requests) && BookRegistered(after, s.crank.book)
         && EventsRegistered(after, s.crank.events)
  {
  }

  // ----- PlaceOrder -----

  /** Locking funds raises what is locked by exactly the amount, and the totals by the deposit. */
  lemma LockFundsEffect(m: Measure, a: Account, side: Side, lock: nat)
    requires AccountOk(a)
    ensures var (b, deposit) := LockFunds(a, side, lock);
            && AccountOk(b) && b.orders == a.orders && 0 <= deposit
            && Held(m, b) - Held(m, a)
                == (if (m.PcLock? && side == Bid) || (m.CoinLock? && side == Ask) then lock else 0)
            && AccountField(m, b) - AccountField(m, a)
               == (if (m.PcFree? && side == Bid) || (m.CoinFree? && side == Ask) then deposit - lock
                   else if (m.PcNet? && side == Bid) || (m.CoinNet? && side == Ask) then deposit else 0)
  {
  }

  ghost predicate Placed(setup: Setup, s: State, act: Action, lock: nat, a: Account, slot: nat, t: State)
    requires act.PlaceOrder? && act.owner < |s.accounts| && s.nextSeq < TWO64
  {
    var (b, deposit) := LockFunds(s.accounts[act.owner], act.side, lock);
    var o := QueuedOrder(act, s.nextSeq, slot, lock);
    && LockAmount(setup.config, act.side, act.price, act.qty, act.tier) == Some(lock)
    && 0 < act.price < TWO64 && 0 < act.qty < TWO64 && s.nextSeq + 1 < TWO64
    && slot < SLOT_COUNT && slot !in b.orders
    && a == b.(orders := b.orders[slot := OpenOrder(o.id, o.side, o.clientId)])
    && t.crank == CrankState(s.crank.book, Deposit(s.crank.market, act.side, deposit),
                             s.crank.requests + [NewOrder(o)], s.crank.events)
    && t.accounts == s.accounts[act.owner := a] && t.nextSeq == s.nextSeq + 1
    && t.coinVault == s.coinVault + (if act.side == Ask then deposit else 0)
    && t.pcVault == s.pcVault + (if act.side == Bid then deposit else 0)
    && FitsU64(t.coinVault) && FitsU64(t.pcVault)
  }

  lemma QueuedOrderOk(setup: Setup, s: State, act: Action, lock: nat, a: Account, slot: nat, t: State)
    requires act.PlaceOrder? && act.owner < |s.accounts| && s.nextSeq < TWO64 && Placed(setup, s, act, lock, a, slot, t)
    ensures var o := QueuedOrder(act, s.nextSeq, slot, lock);
            && OrderOk(setup.config, o) && SeqOf(o.side, o.id) == s.nextSeq && OrderLock(setup.config, o) == lock
  {
    OrderIdFields(act.side, act.price, s.nextSeq);
    NotionalPositive(act.qty, act.price, setup.config.pcLot);
    TakerFeeIsCeiling(act.tier, Notional(act.qty, act.price, setup.config.pcLot));
  }

  lemma PlaceBalanced(setup: Setup, s: State, act: Action, lock: nat, a: Account, slot: nat, t: State, m: Measure)
    requires act.PlaceOrder? && act.owner < |s.accounts| && Inv(setup, s) && Placed(setup, s, act, lock, a, slot, t)
    requires Meaningful(m, |s.accounts|)
    ensures Booked(m, t.crank.market, t.accounts) == Total(setup.config, m, t.crank)
  {
    hide CrankOk, AllRegistered, EventQueueOk, Solvent, SumEvents, SumRequests, BookSum, SumAccounts, LockAmount,
      LockFunds, QueuedOrder, AccountsOk;
    var o := QueuedOrder(act, s.nextSeq, slot, lock);
    QueuedOrderOk(setup, s, act, lock, a, slot, t);
    SumRequestsConcat(setup.config, m, s.crank.requests, [NewOrder(o)]);
    OneRequest(setup.config, m, NewOrder(o));
    AccountAt(s, act.owner);
    LockFundsEffect(m, s.accounts[act.owner], act.side, lock);
    BookedUpdate(m, t.crank.market, s.accounts, act.owner, a);
    assert Booked(m, s.crank.market, s.accounts) == Total(setup.config, m, s.crank);
    QueuedNames(act, s.nextSeq, slot, lock);
  }

  lemma QueuedNames(act: Action, seqNum: nat, slot: nat, lock: nat)
    requires act.PlaceOrder? && seqNum < TWO64
    ensures var o := QueuedOrder(act, seqNum, slot, lock); o.side == act.side && o.owner == act.owner && o.slot == slot
  {
  }

  lemma AccountAt(s: State, i: nat)
    requires AccountsOk(s.accounts) && i < |s.accounts|
    ensures AccountOk(s.accounts[i])
  {
    assert s.accounts[i] in s.accounts;
  }

  lemma OneRequest(c: Config, m: Measure, r: Request)
    ensures SumRequests(c, m, [r]) == RequestWeight(c, m, r)
  {
    assert [r][1..] == [];
  }

  lemma PlaceCrankOk(setup: Setup, s: State, act: Action, lock: nat, a: Account, slot: nat, t: State)
    requires act.PlaceOrder? && act.owner < |s.accounts| && Inv(setup, s) && Placed(setup, s, act, lock, a, slot, t)
    ensures BookOk(setup.config, t.crank.book) && RequestsOk(setup.config, t.crank.requests)
    ensures InOrder(t.crank.book, t.crank.requests, t.nextSeq)
  {
    hide BookOk, AllRegistered, EventQueueOk, Solvent, Balanced, SeqOf, OrderOk, LockAmount, LockFunds, Backed;
    QueuedOrderOk(setup, s, act, lock, a, slot, t);
  }

  /** The deposits cover every lock: a consequence of the PcFree equation. */
  lemma BalancedIsBacked(setup: Setup, s: State)
    requires Balanced(setup.config, s) && AccountsOk(s.accounts) && Solvent(s) && EventQueueOk(s.crank.events)
    requires 0 <= s.crank.market.pcFees && 0 <= s.crank.market.referrals
    ensures Backed(setup.config, s.crank)
  {
    hide EventOk;
    assert Meaningful(PcFree, |s.accounts|);
    SumAccountsNonNegative(PcFree, s.accounts);
    EventsNonNegative(PcFree, s.crank.events);
  }

  lemma PlacedKeeps(setup: Setup, s: State, act: Action, lock: nat, a: Account, slot: nat, t: State)
    requires act.PlaceOrder? && act.owner < |s.accounts| && Inv(setup, s) && Placed(setup, s, act, lock, a, slot, t)
    ensures Inv(setup, t)
  {
    hide LockAmount, LockFunds, BookOk, RequestsOk, InOrder, Total, Booked, EventOk, NothingAfterOut, Registered;
    forall m | Meaningful(m, |t.accounts|)
      ensures Booked(m, t.crank.market, t.accounts) == Total(setup.config, m, t.crank)
    {
      PlaceBalanced(setup, s, act, lock, a, slot, t, m);
    }
    PlaceCrankOk(setup, s, act, lock, a, slot, t);
    PlaceRegistered(setup, s, act, lock, a, slot, t);
    AccountAt(s, act.owner);
    LockFundsEffect(PcFree, s.accounts[act.owner], act.side, lock);
    BalancedIsBacked(setup, t);
  }

  lemma PlaceRegistered(setup: Setup, s: State, act: Action, lock: nat, a: Account, slot: nat, t: State)
    requires act.PlaceOrder? && act.owner < |s.accounts| && Inv(setup, s) && Placed(setup, s, act, lock, a, slot, t)
    ensures AllRegistered(t)
  {
    hide LockAmount, CrankOk, Balanced, EventQueueOk, Solvent;
    AccountAt(s, act.owner);
    LockFundsEffect(PcFree, s.accounts[act.owner], act.side, lock);
    RegisteredMonotone(s.accounts, t.accounts, s);
  }

  // ----- Cancel -----

  lemma EnqueueKeeps(setup: Setup, s: State, r: Request)
    requires Inv(setup, s) && r.CancelOrder? && s.nextSeq + 1 < TWO64
    ensures Enqueue(setup, s, r).Ok? ==> Inv(setup, Enqueue(setup, s, r).value)
  {
    if |s.crank.requests| < setup.requestCap {
      var t := Enqueue(setup, s, r).value;
      forall m | Meaningful(m, |t.accounts|)
        ensures SumRequests(setup.config, m, t.crank.requests) == SumRequests(setup.config, m, s.crank.requests)
      {
        SumRequestsConcat(setup.config, m, s.crank.requests, [r]);
        OneRequest(setup.config, m, r);
      }
      hide SumRequests, BookOk, EventQueueOk, OrderOk, SeqOf, Registered, Booked, BookSum, SumEvents;
      SumRequestsConcat(setup.config, PcFree, s.crank.requests, [r]);
    }
  }

  lemma CancelKeeps(setup: Setup, s: State, owner: nat, side: Side, id: nat, slot: nat, clientId: nat)
    requires Inv(setup, s)
    ensures var r := Cancel(setup, s, owner, side, id, slot, clientId); r.Ok? ==> Inv(setup, r.value)
  {
    hide Inv, Enqueue;
    if owner < |s.accounts| && s.nextSeq + 1 < TWO64 {
      EnqueueKeeps(setup, s, CancelOrder(side, id, s.nextSeq, slot, owner, clientId));
    }
  }

  // ----- Settle and Sweep -----

  /** In a reachable state the free funds of an account are covered by the deposits and the vaults. */
  lemma SettleCovered(setup: Setup, s: State, owner: nat)
    requires Inv(setup, s) && owner < |s.accounts|
    ensures var a, k := s.accounts[owner], s.crank.market;
            && 0 <= a.coinFree <= a.coinTotal && 0 <= a.pcFree <= a.pcTotal
            && a.coinFree <= k.coinDeposits && a.pcFree <= k.pcDeposits && 0 <= a.referrals <= k.referrals
  {
    hide LeafOk, Ascending, EventOk, InOrder, AllRegistered;
    AccountAt(s, owner);
    MeasureCovered(setup, s, PcFree);
    MeasureCovered(setup, s, CoinFree);
    MeasureCovered(setup, s, Referral);
    MeasureCovered(setup, s, PcLock(owner));
    MeasureCovered(setup, s, CoinLock(owner));
    SumAccountsNonNegative(PcFree, s.accounts);
    SumAccountsNonNegative(CoinFree, s.accounts);
    SumAccountsNonNegative(Referral, s.accounts);
  }

  lemma MeasureCovered(setup: Setup, s: State, m: Measure)
    requires Inv(setup, s) && Meaningful(m, |s.accounts|) && m != PcNet && m != CoinNet
    ensures 0 <= Booked(m, s.crank.market, s.accounts)
    ensures 0 <= BookSum(setup.config, m, s.crank.book) && 0 <= SumRequests(setup.config, m, s.crank.requests)
    ensures 0 <= SumEvents(m, s.crank.events)
  {
    hide LeafOk, Ascending, EventOk, InOrder, AllRegistered, OrderOk;
    LeavesNonNegative(setup.config, m, Bid, s.crank.book.bids);
    LeavesNonNegative(setup.config, m, Ask, s.crank.book.asks);
    RequestsNonNegative(setup.config, m, s.crank.requests);
    EventsNonNegative(m, s.crank.events);
  }

  /** Settlement of an existing account never fails, and keeps the invariant. */
  lemma SettleKeeps(setup: Setup, s: State, owner: nat, withReferrer: bool)
    requires Inv(setup, s) && owner < |s.accounts|
    ensures Settle(s, owner, withReferrer).Ok? && Inv(setup, Settle(s, owner, withReferrer).value)
  {
    SettleCovered(setup, s, owner);
    AccountAt(s, owner);
    hide BookOk, RequestsOk, InOrder, EventOk, NothingAfterOut, Total, Registered, Backing, Booked;
    var t := Settle(s, owner, withReferrer).value;
    forall m | Meaningful(m, |t.accounts|)
      ensures Booked(m, t.crank.market, t.accounts) == Total(setup.config, m, t.crank)
    {
      SettleBalanced(setup, s, owner, withReferrer, m);
    }
    RegisteredMonotone(s.accounts, t.accounts, s);
    BalancedIsBacked(setup, t);
  }

  lemma SettleBalanced(setup: Setup, s: State, owner: nat, withReferrer: bool, m: Measure)
    requires Balanced(setup.config, s) && owner < |s.accounts| && Settle(s, owner, withReferrer).Ok?
    requires Meaningful(m, |s.accounts|)
    ensures var t := Settle(s, owner, withReferrer).value;
            && t.crank == s.crank.(market := t.crank.market) && |t.accounts| == |s.accounts|
            && Booked(m, t.crank.market, t.accounts) == Total(setup.config, m, t.crank)
  {
    hide SumAccounts, SumEvents, SumRequests, BookSum;
    var t := Settle(s, owner, withReferrer).value;
    BookedUpdate(m, t.crank.market, s.accounts, owner, Settled(s.accounts[owner]));
    assert Booked(m, s.crank.market, s.accounts) == Total(setup.config, m, s.crank);
  }

  /** Sweeping the fees never fails, and keeps the invariant. */
  lemma SweepKeeps(setup: Setup, s: State)
    requires Inv(setup, s)
    ensures Sweep(s).Ok? && Inv(setup, Sweep(s).value)
  {
    hide BookOk, RequestsOk, InOrder, EventQueueOk, Registered, AccountsOk, SumAccounts, SumEvents, SumRequests,
        BookSum;
    BackingNonNegative(setup.config, s.crank);
  }
}
