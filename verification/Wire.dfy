/**
 The fixed-size records that the queues store (dex/src/state.rs): a request or
 event is packed into flag bits and shared fields, and read back with checks.
 `None` stands for a failed check or a stop of the program.
 */
module Wire {
  import opened Fees
  import opened Orders

  // ----- fee tiers as bytes -----

  function TierCode(t: FeeTier): nat {
    match t
    case Base => 0
    case SRM2 => 1
    case SRM3 => 2
    case SRM4 => 3
    case SRM5 => 4
    case SRM6 => 5
    case MSRM => 6
  }

  function TierFrom(n: nat): Option<FeeTier> {
    if n == 0 then Some(Base) else if n == 1 then Some(SRM2) else if n == 2 then Some(SRM3)
    else if n == 3 then Some(SRM4) else if n == 4 then Some(SRM5) else if n == 5 then Some(SRM6)
    else if n == 6 then Some(MSRM) else None
  }

  // ----- requests -----

  datatype RawRequest = RawRequest(
    flags: bv8, slot: nat, tier: nat, selfTrade: nat, coinQtyOrCancelId: nat, pcLocked: nat,
    id: nat, owner: nat, clientId: nat)

  const NEW_ORDER: bv8 := 0x01
  const CANCEL_ORDER: bv8 := 0x02
  const REQUEST_BID: bv8 := 0x04
  const POST_ONLY: bv8 := 0x08
  const IMMEDIATE_OR_CANCEL: bv8 := 0x10

  function SideFlag(side: Side): bv8 {
    if side == Bid then REQUEST_BID else 0
  }

  function TypeFlag(t: OrderType): bv8 {
    match t
    case Limit => 0
    case ImmediateOrCancel => IMMEDIATE_OR_CANCEL
    case PostOnly => POST_ONLY
  }

  /** Request::new */
  function PackRequest(r: Request): RawRequest {
    match r
    case NewOrder(o) =>
      RawRequest(NEW_ORDER | SideFlag(o.side) | TypeFlag(o.orderType), o.slot, TierCode(o.tier),
          SelfTradeCode(o.selfTrade),
                 o.coinQty, o.pcLocked, o.id, o.owner, o.clientId)
    case CancelOrder(side, id, cancelId, slot, owner, clientId) =>
      RawRequest(CANCEL_ORDER | SideFlag(side), slot, 0, 0, cancelId, 0, id, owner, clientId)
  }

  /** Are all flags of `flags` among `allowed`? */
  predicate Within(flags: bv8, allowed: bv8) {
    flags | allowed == allowed
  }

  predicate Has(flags: bv8, flag: bv8) {
    flags & flag != 0
  }

  /** Request::as_view */
  function ViewRequest(w: RawRequest): Option<Request> {
    var side := if Has(w.flags, REQUEST_BID) then Bid else Ask;
    if Has(w.flags, NEW_ORDER) then
      var postOnly, ioc := Has(w.flags, POST_ONLY), Has(w.flags, IMMEDIATE_OR_CANCEL);
      var tier, selfTrade := TierFrom(w.tier), SelfTradeFrom(w.selfTrade);
      if !Within(w.flags, NEW_ORDER | REQUEST_BID | POST_ONLY | IMMEDIATE_OR_CANCEL) || (postOnly && ioc)
         || tier.None? || selfTrade.None? || w.coinQtyOrCancelId == 0
      then None
      else
        var orderType := if postOnly then PostOnly else if ioc then ImmediateOrCancel else Limit;
        Some(NewOrder(Order(side, orderType, w.id, w.owner, w.slot, tier.value,
                            w.coinQtyOrCancelId, w.pcLocked, w.clientId, selfTrade.value)))
    else if !Has(w.flags, CANCEL_ORDER) || !Within(w.flags, CANCEL_ORDER | REQUEST_BID) then None
    else Some(CancelOrder(side, w.id, w.coinQtyOrCancelId, w.slot, w.owner, w.clientId))
  }

  /** A request read back is the request that was stored: a suspended order resumes unchanged. */
  lemma RequestRoundTrip(r: Request)
    requires r.NewOrder? ==> r.order.coinQty > 0
    ensures ViewRequest(PackRequest(r)) == Some(r)
  {
    match r
    case NewOrder(o) =>
      match o.orderType {
        case Limit =>
        case ImmediateOrCancel =>
        case PostOnly =>
      }
    case CancelOrder(_, _, _, _, _, _) =>
  }

  /** A stored record that reads as a request is the packing of that request, up to the fields a cancel ignores. */
  lemma RequestCanonical(w: RawRequest)
    requires ViewRequest(w).Some?
    ensures var r := ViewRequest(w).value;
            PackRequest(r) == if r.NewOrder? then w else w.(tier := 0, selfTrade := 0, pcLocked := 0)
  {
    FlagBits(w.flags);
  }

  /** The flag byte is determined by the flags it has. */
  lemma FlagBits(f: bv8)
    ensures Within(f, CANCEL_ORDER | REQUEST_BID) && Has(f, CANCEL_ORDER) ==>
              f == CANCEL_ORDER | (if Has(f, REQUEST_BID) then REQUEST_BID else 0)
    ensures Within(f, NEW_ORDER | REQUEST_BID | POST_ONLY | IMMEDIATE_OR_CANCEL) && Has(f, NEW_ORDER) ==>
              f == NEW_ORDER | (if Has(f, REQUEST_BID) then REQUEST_BID else 0)
                 | (if Has(f, POST_ONLY) then POST_ONLY else 0)
                 | (if Has(f, IMMEDIATE_OR_CANCEL) then IMMEDIATE_OR_CANCEL else 0)
  {
  }

  // ----- events -----

  datatype RawEvent = RawEvent(
    flags: bv8, slot: nat, tier: nat, released: int, paid: int, fee: int, id: nat, owner: nat, clientId: nat)

  const FILL: bv8 := 0x1
  const OUT: bv8 := 0x2
  const EVENT_BID: bv8 := 0x4
  const MAKER: bv8 := 0x8

  /** Event::new */
  function PackEvent(e: Event): RawEvent {
    match e
    case Fill(side, maker, paid, received, fee, id, owner, slot, tier, clientId) =>
      RawEvent((if side == Bid then EVENT_BID else 0) | FILL | (if maker then MAKER else 0), slot, TierCode(tier),
               received, paid, fee, id, owner, clientId)
    case Out(side, unlocked, locked, id, owner, slot, clientId) =>
      RawEvent((if side == Bid then EVENT_BID else 0) | OUT, slot, 0, unlocked, locked, 0, id, owner, clientId)
  }

  /** Event::as_view: whatever is not a fill is read as an out event. */
  function ViewEvent(w: RawEvent): Option<Event> {
    var side := if Has(w.flags, EVENT_BID) then Bid else Ask;
    if Has(w.flags, FILL) then
      var tier := TierFrom(w.tier);
      if !Within(w.flags, FILL | EVENT_BID | MAKER) || tier.None? then None
      else Some(Fill(side, Has(w.flags, MAKER), w.paid, w.released, w.fee, w.id, w.owner, w.slot, tier.value,
          w.clientId))
    else if !Within(w.flags, OUT | EVENT_BID | MAKER) then None
    else Some(Out(side, w.released, w.paid, w.id, w.owner, w.slot, w.clientId))
  }

  /** An event read back is the event that was stored. */
  lemma EventRoundTrip(e: Event)
    ensures ViewEvent(PackEvent(e)) == Some(e)
  {
    match e
    case Fill(_, _, _, _, _, _, _, _, _, _) =>
    case Out(_, _, _, _, _, _, _) =>
  }

  /**
   Reading refuses no out flag: a record reads as an out event exactly when it has no fill flag and no
   unknown one, so an all-zero record is an out event although none is ever stored like that.
   */
  lemma ReadsAsOut(w: RawEvent)
    ensures (ViewEvent(w).Some? && ViewEvent(w).value.Out?)
          <==> !Has(w.flags, FILL) && Within(w.flags, OUT | EVENT_BID | MAKER)
    ensures w.flags == 0 ==> ViewEvent(w).Some? && PackEvent(ViewEvent(w).value).flags != w.flags
  {
  }

  // ----- the stored fields -----

  /** The byte of a tier is its position in the list of tiers. */
  predicate TierAt(n: nat, t: FeeTier) {
    n < 7 && [Base, SRM2, SRM3, SRM4, SRM5, SRM6, MSRM][n] == t
  }

  /** Which flags and fields a stored order has. */
  lemma NewOrderRecord(o: Order)
    ensures var w := PackRequest(NewOrder(o));
            && w.flags == (match o.orderType
                           case Limit => if o.side == Bid then 0x05 else 0x01
                           case PostOnly => if o.side == Bid then 0x0D else 0x09
                           case ImmediateOrCancel => if o.side == Bid then 0x15 else 0x11)
            && w.slot == o.slot && TierAt(w.tier, o.tier)
                && w.selfTrade == (if o.selfTrade == DecrementTake then 0 else 1)
            && w.coinQtyOrCancelId == o.coinQty && w.pcLocked == o.pcLocked && w.id == o.id && w.owner == o.owner
            && w.clientId == o.clientId
  {
  }

  /** Which flags and fields a stored cancel has. */
  lemma CancelRecord(side: Side, id: nat, cancelId: nat, slot: nat, owner: nat, clientId: nat)
    ensures PackRequest(CancelOrder(side, id, cancelId, slot, owner, clientId))
         == RawRequest(if side == Bid then 0x06 else 0x02, slot, 0, 0, cancelId, 0, id, owner, clientId)
  {
  }

  /** Which flags and fields a stored event has. */
  lemma EventRecord(e: Event)
    ensures var w := PackEvent(e);
            && w.id == e.id && w.owner == e.owner && w.slot == e.slot && w.clientId == e.clientId
            && (e.Fill? ==>
                  && w.flags == (if e.side
                      == Bid then (if e.maker then 0x0D else 0x05) else if e.maker then 0x09 else 0x01)
                  && TierAt(w.tier, e.tier) && w.released == e.received && w.paid == e.paid && w.fee == e.fee)
            && (e.Out? ==>
                  && w.flags == (if e.side == Bid then 0x06 else 0x02)
                  && w.tier == 0 && w.released == e.unlocked && w.paid == e.locked && w.fee == 0)
  {
  }
}
