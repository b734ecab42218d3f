/**
 The OpenOrders account in place (dex/src/state.rs).  The two slot bitmaps are
 the sets of their one-bits; the 128-entry tables are sequences of that length.
 */
module OpenOrdersAccount {
  import opened Numbers
  import opened Orders
  import opened Accounts

  class OpenOrders {
    var nativeCoinFree: u64
    var nativeCoinTotal: u64
    var nativePcFree: u64
    var nativePcTotal: u64
    var freeSlotBits: set<nat>
    var isBidBits: set<nat>
    var orders: seq<nat>
    var clientOrderIds: seq<nat>
    var referrerRebatesAccrued: u64

    ghost predicate Valid()
      reads this
    {
      && |orders| == SLOT_COUNT && |clientOrderIds| == SLOT_COUNT
      && (forall i :: i in freeSlotBits ==> i < SLOT_COUNT) && isBidBits !! freeSlotBits
    }

    constructor ()
      ensures Valid() && View() == EMPTY_ACCOUNT
    {
      hide Below;
      nativeCoinFree, nativeCoinTotal, nativePcFree, nativePcTotal, referrerRebatesAccrued := 0, 0, 0, 0, 0;
      freeSlotBits, isBidBits := Below(SLOT_COUNT), {};
      orders, clientOrderIds := seq(SLOT_COUNT, _ => 0), seq(SLOT_COUNT, _ => 0);
    }

    /** slot_side */
    function SlotSide(slot: nat): Option<Side>
      reads this
    {
      if slot in freeSlotBits then None else if slot in isBidBits then Some(Bid) else Some(Ask)
    }

    ghost function Occupied(): (m: map<nat, OpenOrder>)
      requires Valid()
      reads this
      ensures forall i: nat :: i in m <==> i < SLOT_COUNT && i !in freeSlotBits
    {
      map i: nat | 0 <= i < SLOT_COUNT && i !in freeSlotBits ::
        OpenOrder(orders[i], if i in isBidBits then Bid else Ask, clientOrderIds[i])
    }

    ghost function View(): Account
      requires Valid()
      reads this
    {
      Account(nativeCoinFree, nativeCoinTotal, nativePcFree, nativePcTotal, Occupied(), referrerRebatesAccrued)
    }

    /** Index of the lowest one-bit of the free-slot bitmap. */
    function TrailingZeros(k: nat): (r: nat)
      requires exists i :: k <= i < SLOT_COUNT && i in freeSlotBits
      reads this
      ensures k <= r < SLOT_COUNT && r in freeSlotBits && forall i :: k <= i < r ==> i !in freeSlotBits
      decreases SLOT_COUNT - k
    {
      if k in freeSlotBits then k else TrailingZeros(k + 1)
    }

    /** add_order, and the client id that process_new_order writes into the new slot. */
    method AddOrder(id: nat, side: Side, clientId: nat) returns (r: Result<nat>)
      requires Valid()
      modifies this
      ensures Valid()
      ensures var out := Accounts.AddOrder(old(View()), OpenOrder(id, side, clientId));
              if out.Err? then r == Err(out.error) else r == Ok(out.value.1) && View() == out.value.0
    {
      hide FreeFrom, TrailingZeros;
      FreeIsBit(0);
      if freeSlotBits == {} {
        return Err(TooManyOpenOrders);
      }
      var slot := TrailingZeros(0);
      ghost var before := Occupied();
      FreeIs(slot);
      freeSlotBits := freeSlotBits - {slot};
      isBidBits := if side == Bid then isBidBits + {slot} else isBidBits - {slot};
      orders := orders[slot := id];
      clientOrderIds := clientOrderIds[slot := clientId];
      assert Occupied() == before[slot := OpenOrder(id, side, clientId)];
      return Ok(slot);
    }

    lemma FreeIsBit(k: nat)
      requires Valid() && k <= SLOT_COUNT
      ensures FreeFrom(Occupied(), k).None? <==> forall i :: k <= i < SLOT_COUNT ==> i !in freeSlotBits
    {
    }

    lemma FreeIs(slot: nat)
      requires Valid() && slot in freeSlotBits && slot < SLOT_COUNT && forall i :: 0 <= i < slot ==> i !in freeSlotBits
      ensures FreeFrom(Occupied(), 0) == Some(slot)
    {
      FreeIsBit(0);
    }

    /** remove_order */
    method RemoveOrder(slot: nat) returns (ok: bool)
      requires Valid()
      modifies this
      ensures Valid()
      ensures ok <==> slot in old(Occupied())
      ensures View() == if ok then old(View()).(orders := old(Occupied()) - {slot}) else old(View())
    {
      if slot >= SLOT_COUNT || slot in freeSlotBits {
        return false;
      }
      ghost var before := Occupied();
      orders := orders[slot := 0];
      clientOrderIds := clientOrderIds[slot := 0];
      freeSlotBits := freeSlotBits + {slot};
      isBidBits := isBidBits - {slot};
      assert Occupied() == before - {slot};
      return true;
    }

    /** Take `amount` for an order: from the free balance first; the rest is what has to be deposited. */
    method Lock(side: Side, amount: u64) returns (ok: bool, deposit: u64)
      requires Valid()
      modifies this
      ensures Valid()
      ensures var (a, d) := LockFunds(old(View()), side, amount);
              && (ok <==> FitsU64(a.pcTotal) && FitsU64(a.coinTotal))
              && (ok ==> View() == a && deposit == d)
    {
      deposit := 0;
      if side == Bid {
        var freeQtyToLock: u64 := Min(amount, nativePcFree);
        deposit := amount - freeQtyToLock;
        if nativePcTotal + deposit >= TWO64 {
          return false, deposit;
        }
        nativePcFree := nativePcFree - freeQtyToLock;
        nativePcTotal := nativePcTotal + deposit;
      } else {
        var freeQtyToLock: u64 := Min(amount, nativeCoinFree);
        deposit := amount - freeQtyToLock;
        if nativeCoinTotal + deposit >= TWO64 {
          return false, deposit;
        }
        nativeCoinFree := nativeCoinFree - freeQtyToLock;
        nativeCoinTotal := nativeCoinTotal + deposit;
      }
      return true, deposit;
    }

    /** A fill event: wrapping 64-bit additions and subtractions, as the release build performs them. */
    method ApplyFill(e: Event)
      requires Valid() && e.Fill?
      modifies this
      ensures Valid()
      ensures View() == Stored(Credited(old(View()), e))
    {
      if e.side == Bid {
        nativePcTotal := Wrap(nativePcTotal - e.paid);
        nativeCoinTotal := Wrap(nativeCoinTotal + e.received);
        nativeCoinFree := Wrap(nativeCoinFree + e.received);
        if e.maker {
          nativePcFree := Wrap(nativePcFree + e.fee);
        }
      } else {
        nativeCoinTotal := Wrap(nativeCoinTotal - e.paid);
        nativePcTotal := Wrap(nativePcTotal + e.received);
        nativePcFree := Wrap(nativePcFree + e.received);
      }
      if !e.maker {
        referrerRebatesAccrued := Wrap(referrerRebatesAccrued + e.fee / 5);
      }
    }

    /** One event of process_consume_events, checks included. */
    method Apply(e: Event) returns (ok: bool)
      requires Valid()
      modifies this
      ensures Valid()
      ensures var out := ApplyEvent(old(View()), e);
              && (ok <==> out.Ok?)
              && (ok ==> View() == out.value)
    {
      if e.slot >= SLOT_COUNT {
        return false;
      }
      if SlotSide(e.slot) != Some(e.side) || orders[e.slot] != e.id {
        return false;
      }
      if e.Fill? {
        ApplyFill(e);
        return true;
      }
      ghost var occupied := Occupied();
      if e.side == Bid {
        nativePcFree := Wrap(nativePcFree + e.unlocked);
        if nativePcFree > nativePcTotal {
          return false;
        }
      } else {
        nativeCoinFree := Wrap(nativeCoinFree + e.unlocked);
        if nativeCoinFree > nativeCoinTotal {
          return false;
        }
      }
      assert Occupied() == occupied;
      if e.locked == 0 {
        ok := RemoveOrder(e.slot);
        return;
      }
      return true;
    }

    /** The balances that settlement pays out, zeroed. */
    method TakeFree() returns (ok: bool, coin: u64, pc: u64, rebates: u64)
      requires Valid()
      modifies this
      ensures Valid()
      ensures coin == old(nativeCoinFree) && pc == old(nativePcFree) && rebates == old(referrerRebatesAccrued)
      ensures ok <==> old(nativeCoinFree) <= old(nativeCoinTotal) && old(nativePcFree) <= old(nativePcTotal)
      ensures ok ==> View() == Settled(old(View()))
    {
      coin, pc, rebates := nativeCoinFree, nativePcFree, referrerRebatesAccrued;
      if nativeCoinTotal < coin || nativePcTotal < pc {
        return false, coin, pc, rebates;
      }
      nativeCoinFree, nativePcFree := 0, 0;
      nativeCoinTotal := nativeCoinTotal - coin;
      nativePcTotal := nativePcTotal - pc;
      referrerRebatesAccrued := 0;
      return true, coin, pc, rebates;
    }
  }
}
