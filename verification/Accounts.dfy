/**
 An OpenOrders account (dex/src/state.rs) as a value: balances, the 128 order
 slots and the referrer rebates it has earned.  A slot is occupied when it is a
 key of `orders`; the program keeps the same set in its two bitmaps.
 */
module Accounts {
  import opened Numbers
  import opened Orders
  import opened Accounting

  datatype OpenOrder = OpenOrder(id: nat, side: Side, clientId: nat)

  datatype Account = Account(
    coinFree: int, coinTotal: int, pcFree: int, pcTotal: int,
    orders: map<nat, OpenOrder>, referrals: int)

  const EMPTY_ACCOUNT := Account(0, 0, 0, 0, map[], 0)

  const SLOT_COUNT: nat := 128

  /** First free slot at or after `k`. */
  function FreeFrom(orders: map<nat, OpenOrder>, k: nat): (r: Option<nat>)
    requires k <= SLOT_COUNT
    ensures r.Some? ==> k <= r.value < SLOT_COUNT && r.value !in orders
    ensures r.Some? ==> forall i :: k <= i < r.value ==> i in orders
    ensures r.None? ==> forall i :: k <= i < SLOT_COUNT ==> i in orders
    decreases SLOT_COUNT - k
  {
    if k == SLOT_COUNT then None
    else if k !in orders then Some(k)
    else FreeFrom(orders, k + 1)
  }

  /** First occupied slot at or after `k` with the given client id. */
  function ClientSlotFrom(orders: map<nat, OpenOrder>, clientId: nat, k: nat): (r: Option<nat>)
    requires k <= SLOT_COUNT
    ensures r.Some? ==> k <= r.value < SLOT_COUNT && r.value in orders && orders[r.value].clientId == clientId
    ensures r.Some? ==> forall i :: k <= i < r.value && i in orders ==> orders[i].clientId != clientId
    ensures r.None? ==> forall i :: k <= i < SLOT_COUNT && i in orders ==> orders[i].clientId != clientId
    decreases SLOT_COUNT - k
  {
    if k == SLOT_COUNT then None
    else if k in orders && orders[k].clientId == clientId then Some(k)
    else ClientSlotFrom(orders, clientId, k + 1)
  }

  /** add_order: take the lowest free slot. */
  function AddOrder(a: Account, order: OpenOrder): Result<(Account, nat)> {
    match FreeFrom(a.orders, 0)
    case None => Err(TooManyOpenOrders)
    case Some(slot) => Ok((a.(orders := a.orders[slot := order]), slot))
  }

  /** Lock funds of one currency: free funds first, the rest is to be deposited. */
  function LockFunds(a: Account, side: Side, amount: int): (Account, int) {
    if side == Bid then
      var used := Min(amount, a.pcFree);
      (a.(pcFree := a.pcFree - used, pcTotal := a.pcTotal + amount - used), amount - used)
    else
      var used := Min(amount, a.coinFree);
      (a.(coinFree := a.coinFree - used, coinTotal := a.coinTotal + amount - used), amount - used)
  }

  /** Does the slot an event names hold the order it names? */
  predicate SlotMatches(a: Account, e: Event) {
    e.slot < SLOT_COUNT && e.slot in a.orders && a.orders[e.slot].side == e.side && a.orders[e.slot].id == e.id
  }

  function Credited(a: Account, e: Event): Account {
    a.(pcFree := a.pcFree + PcFreeInc(e), pcTotal := a.pcTotal + PcTotalInc(e),
       coinFree := a.coinFree + CoinFreeInc(e), coinTotal := a.coinTotal + CoinTotalInc(e),
       referrals := a.referrals + ReferralInc(e))
  }

  /** The exact effect of an event on its account: credits, and a fully-out event frees the slot. */
  function Posted(a: Account, e: Event): Account {
    var b := Credited(a, e);
    if FullyOut(e) then b.(orders := b.orders - {e.slot}) else b
  }

  /** Balances as the release build stores them, each modulo 2^64. */
  function Stored(a: Account): Account {
    a.(coinFree := Wrap(a.coinFree), coinTotal := Wrap(a.coinTotal), pcFree := Wrap(a.pcFree),
       pcTotal := Wrap(a.pcTotal), referrals := Wrap(a.referrals))
  }

  /** The check after an out event: what is free is within the total. */
  predicate UnlockCovered(a: Account, e: Event) {
    e.Out? ==> if e.side == Bid then a.pcFree <= a.pcTotal else a.coinFree <= a.coinTotal
  }

  /** One event of `process_consume_events`: unchecked additions, with the program's consistency checks. */
  function ApplyEvent(a: Account, e: Event): Result<Account> {
    var b := Stored(Posted(a, e));
    if !SlotMatches(a, e) || !UnlockCovered(b, e) then Err(AssertionError) else Ok(b)
  }

  /** Settlement pays out everything that is free. */
  function Settled(a: Account): Account {
    a.(coinFree := 0, pcFree := 0, coinTotal := a.coinTotal - a.coinFree, pcTotal := a.pcTotal - a.pcFree,
       referrals := 0)
  }
}
