/**
 The instruction wire format (dex/src/instruction.rs): a version byte, a 32-bit
 discriminant and fixed-width little-endian fields.
 */
module Instruction {
  import opened Numbers
  import opened Orders

  type byte = x: int | 0 <= x < 256
  type u16 = x: int | 0 <= x < 0x1_0000
  type NonZeroU64 = x: int | 0 < x < 0x1_0000_0000_0000_0000 witness 1

  datatype NewOrderV1 = NewOrderV1(side: Side, limitPrice: NonZeroU64, maxQty: NonZeroU64, orderType: OrderType,
      clientId: u64)

  datatype MarketInstruction =
    | InitializeMarket(coinLotSize: u64, pcLotSize: u64, feeRateBps: u16, vaultSignerNonce: u64, pcDustThreshold: u64)
    | NewOrder(v1: NewOrderV1)
    | MatchOrders(limit: u16)
    | ConsumeEvents(limit: u16)
    | CancelOrder(side: Side, orderId: u128, owner0: u64, owner1: u64, owner2: u64, owner3: u64, ownerSlot: byte)
    | SettleFunds
    | CancelOrderByClientId(clientId: u64)
    | DisableMarket
    | SweepFees
    | NewOrderV2(v1: NewOrderV1, selfTradeBehavior: SelfTrade)

  // ----- little-endian fields -----

  function Power(w: nat): (p: nat)
    ensures p > 0
  {
    if w == 0 then 1 else 256 * Power(w - 1)
  }

  function ToBytes(n: nat, w: nat): (s: seq<byte>)
    ensures |s| == w
  {
    if w == 0 then [] else [n % 256] + ToBytes(n / 256, w - 1)
  }

  function FromBytes(s: seq<byte>): nat {
    if s == [] then 0 else s[0] + 256 * FromBytes(s[1..])
  }

  lemma {:induction false} FromToBytes(n: nat, w: nat)
    requires n < Power(w)
    ensures FromBytes(ToBytes(n, w)) == n
  {
    if w > 0 {
      FromToBytes(n / 256, w - 1);
      assert ToBytes(n, w)[1..] == ToBytes(n / 256, w - 1);
    }
  }

  lemma {:induction false} ToFromBytes(s: seq<byte>)
    ensures ToBytes(FromBytes(s), |s|) == s && FromBytes(s) < Power(|s|)
  {
    if s != [] {
      ToFromBytes(s[1..]);
      var n := FromBytes(s);
      assert n % 256 == s[0] && n / 256 == FromBytes(s[1..]);
      assert [s[0]] + s[1..] == s;
    }
  }

  function Width(ws: seq<nat>): nat {
    if ws == [] then 0 else ws[0] + Width(ws[1..])
  }

  /** Cut `data` into fields of the given widths. */
  function Split(ws: seq<nat>, data: seq<byte>): (vs: seq<nat>)
    requires |data| == Width(ws)
    ensures |vs| == |ws|
  {
    if ws == [] then [] else [FromBytes(data[..ws[0]])] + Split(ws[1..], data[ws[0]..])
  }

  function Join(ws: seq<nat>, vs: seq<nat>): (data: seq<byte>)
    requires |ws| == |vs|
    ensures |data| == Width(ws)
  {
    if ws == [] then [] else ToBytes(vs[0], ws[0]) + Join(ws[1..], vs[1..])
  }

  ghost predicate Fit(ws: seq<nat>, vs: seq<nat>) {
    |ws| == |vs| && forall i :: 0 <= i < |ws| ==> vs[i] < Power(ws[i])
  }

  lemma {:induction false} SplitJoin(ws: seq<nat>, vs: seq<nat>)
    requires Fit(ws, vs)
    ensures Split(ws, Join(ws, vs)) == vs
  {
    if ws != [] {
      FromToBytes(vs[0], ws[0]);
      SplitJoin(ws[1..], vs[1..]);
      var data := Join(ws, vs);
      assert data[..ws[0]] == ToBytes(vs[0], ws[0]) && data[ws[0]..] == Join(ws[1..], vs[1..]);
      assert [vs[0]] + vs[1..] == vs;
    }
  }

  lemma {:induction false} JoinSplit(ws: seq<nat>, data: seq<byte>)
    requires |data| == Width(ws)
    ensures Join(ws, Split(ws, data)) == data && Fit(ws, Split(ws, data))
  {
    if ws != [] {
      ToFromBytes(data[..ws[0]]);
      JoinSplit(ws[1..], data[ws[0]..]);
      var vs := Split(ws, data);
      assert vs[1..] == Split(ws[1..], data[ws[0]..]);
      assert data[..ws[0]] + data[ws[0]..] == data;
      assert forall i :: 1 <= i < |ws| ==> vs[i] == vs[1..][i - 1] && ws[i] == ws[1..][i - 1];
    }
  }

  // ----- enumerations -----

  function SideCode(s: Side): nat {
    if s == Bid then 0 else 1
  }

  function SideFrom(n: nat): Option<Side> {
    if n == 0 then Some(Bid) else if n == 1 then Some(Ask) else None
  }

  function TypeCode(t: OrderType): nat {
    match t
    case Limit => 0
    case ImmediateOrCancel => 1
    case PostOnly => 2
  }

  function TypeFrom(n: nat): Option<OrderType> {
    if n == 0 then Some(Limit) else if n == 1 then Some(ImmediateOrCancel) else if n == 2 then Some(PostOnly) else None
  }

  // ----- layout -----

  const V1_WIDTHS: seq<nat> := [4, 8, 8, 4, 8]

  /** Field widths of the variant with discriminant `d`. */
  function Widths(d: nat): seq<nat>
    requires d < 10
  {
    if d == 0 then [8, 8, 2, 8, 8]
    else if d == 1 then V1_WIDTHS
    else if d == 2 || d == 3 then [2]
    else if d == 4 then [4, 16, 8, 8, 8, 8, 1]
    else if d == 6 then [8]
    else if d == 9 then V1_WIDTHS + [4]
    else []
  }

  function Discriminant(i: MarketInstruction): (d: nat)
    ensures d < 10
  {
    match i
    case InitializeMarket(_, _, _, _, _) => 0
    case NewOrder(_) => 1
    case MatchOrders(_) => 2
    case ConsumeEvents(_) => 3
    case CancelOrder(_, _, _, _, _, _, _) => 4
    case SettleFunds => 5
    case CancelOrderByClientId(_) => 6
    case DisableMarket => 7
    case SweepFees => 8
    case NewOrderV2(_, _) => 9
  }

  function V1Values(o: NewOrderV1): seq<nat> {
    [SideCode(o.side), o.limitPrice, o.maxQty, TypeCode(o.orderType), o.clientId]
  }

  function Values(i: MarketInstruction): seq<nat> {
    match i
    case InitializeMarket(a, b, c, d, e) => [a, b, c, d, e]
    case NewOrder(v1) => V1Values(v1)
    case MatchOrders(limit) => [limit]
    case ConsumeEvents(limit) => [limit]
    case CancelOrder(side, id, o0, o1, o2, o3, slot) => [SideCode(side), id, o0, o1, o2, o3, slot]
    case SettleFunds => []
    case CancelOrderByClientId(id) => [id]
    case DisableMarket => []
    case SweepFees => []
    case NewOrderV2(v1, b) => V1Values(v1) + [SelfTradeCode(b)]
  }

  /** `bincode::serialize(&(0u8, self))` */
  function Pack(i: MarketInstruction): seq<byte> {
    ValuesMatch(i);
    [0] + ToBytes(Discriminant(i), 4) + Join(Widths(Discriminant(i)), Values(i))
  }

  lemma ValuesMatch(i: MarketInstruction)
    ensures |Values(i)| == |Widths(Discriminant(i))|
  {
  }

  function UnpackV1(vs: seq<nat>): Option<NewOrderV1>
    requires Fit(V1_WIDTHS, vs)
  {
    PowerValues();
    assert V1_WIDTHS[1] == 8 && V1_WIDTHS[2] == 8 && V1_WIDTHS[4] == 8;
    var side, orderType := SideFrom(vs[0]), TypeFrom(vs[3]);
    if side.None? || vs[1] == 0 || vs[2] == 0 || orderType.None? then None
    else Some(NewOrderV1(side.value, vs[1], vs[2], orderType.value, vs[4]))
  }

  lemma PowerValues()
    ensures Power(1) == 256 && Power(2) == 0x1_0000 && Power(4) == 0x1_0000_0000
    ensures Power(8) == TWO64 && Power(16) == TWO128
  {
    assert Power(4) == 256 * 256 * 256 * 256;
    assert Power(8) == 256 * 256 * 256 * 256 * Power(4);
    assert Power(12) == 256 * 256 * 256 * 256 * Power(8);
    assert Power(16) == 256 * 256 * 256 * 256 * Power(12);
  }

  /** Decode the fields of one variant. */
  function Decode(d: nat, vs: seq<nat>): (r: Option<MarketInstruction>)
    requires d < 10 && Fit(Widths(d), vs)
  {
    PowerValues();
    if d == 0 then Some(InitializeMarket(vs[0], vs[1], vs[2], vs[3], vs[4]))
    else if d == 1 then
      var v1 := UnpackV1(vs);
      if v1.None? then None else Some(MarketInstruction.NewOrder(v1.value))
    else if d == 2 then Some(MatchOrders(vs[0]))
    else if d == 3 then Some(ConsumeEvents(vs[0]))
    else if d == 4 then
      var side := SideFrom(vs[0]);
      if side.None? then None
      else Some(MarketInstruction.CancelOrder(side.value, vs[1], vs[2], vs[3], vs[4], vs[5], vs[6]))
    else if d == 5 then Some(SettleFunds)
    else if d == 6 then Some(CancelOrderByClientId(vs[0]))
    else if d == 7 then Some(DisableMarket)
    else if d == 8 then Some(SweepFees)
    else
      var v1, b := UnpackV1(V2Head(vs)), SelfTradeFrom(vs[5]);
      if v1.None? || b.None? then None else Some(NewOrderV2(v1.value, b.value))
  }

  function V2Head(vs: seq<nat>): (r: seq<nat>)
    requires Fit(V1_WIDTHS + [4], vs)
    ensures Fit(V1_WIDTHS, r) && r + [vs[5]] == vs
  {
    assert forall i :: 0 <= i < 5 ==> (V1_WIDTHS + [4])[i] == V1_WIDTHS[i];
    vs[..5]
  }

  /** Everything but the exact layout of a known variant is refused. */
  function Unpack(b: seq<byte>): Option<MarketInstruction> {
    if |b| < 5 || |b| > 58 || b[0] != 0 then None
    else
      var d, data := FromBytes(b[1..5]), b[5..];
      if d >= 10 || |data| != Width(Widths(d)) then None
      else
        JoinSplit(Widths(d), data);
        Decode(d, Split(Widths(d), data))
  }

  // ----- bijection -----

  lemma ValuesFit(i: MarketInstruction)
    ensures Fit(Widths(Discriminant(i)), Values(i))
  {
    PowerValues();
  }

  lemma DecodeValues(i: MarketInstruction)
    requires Fit(Widths(Discriminant(i)), Values(i))
    ensures Decode(Discriminant(i), Values(i)) == Some(i)
  {
    hide Power;
    if i.NewOrderV2? {
      assert V2Head(Values(i)) + [Values(i)[5]] == V1Values(i.v1) + [SelfTradeCode(i.selfTradeBehavior)];
      assert V2Head(Values(i)) == V1Values(i.v1);
    }
  }

  lemma WidthBound(d: nat)
    requires d < 10
    ensures Width(Widths(d)) <= 53
  {
    hide Width;
    WidthCons(1, []);
    WidthCons(2, []);
    WidthCons(8, []);
    if d == 0 {
      WidthOf([8, 8, 2, 8, 8], 34);
    } else if d == 1 || d == 9 {
      WidthOf(V1_WIDTHS, 32);
      WidthAppend(V1_WIDTHS, 4);
    } else if d == 4 {
      WidthOf([4, 16, 8, 8, 8, 8, 1], 53);
    }
  }

  lemma WidthCons(w: nat, ws: seq<nat>)
    ensures Width([w] + ws) == w + Width(ws) && Width([]) == 0 && Width([w]) == w
  {
    assert ([w] + ws)[1..] == ws && [w][1..] == [];
  }

  lemma WidthOf(ws: seq<nat>, total: nat)
    requires 5 <= |ws| <= 7
    requires total == ws[0] + ws[1] + ws[2] + ws[3] + ws[4]
                      + (if |ws| > 5 then ws[5] else 0) + (if |ws| > 6 then ws[6] else 0)
    ensures Width(ws) == total
  {
    assert Width(ws) == ws[0] + ws[1] + Width(ws[2..]);
    assert Width(ws[2..]) == ws[2] + ws[3] + Width(ws[4..]);
    assert Width(ws[4..]) == ws[4] + Width(ws[5..]);
    if |ws| > 5 {
      assert Width(ws[5..]) == ws[5] + Width(ws[6..]);
    }
    if |ws| > 6 {
      assert Width(ws[6..]) == ws[6] + Width(ws[7..]);
    }
  }

  lemma {:induction false} WidthAppend(ws: seq<nat>, w: nat)
    ensures Width(ws + [w]) == Width(ws) + w
  {
    if ws == [] {
      assert [w][1..] == [];
    } else {
      assert (ws + [w])[1..] == ws[1..] + [w];
      WidthAppend(ws[1..], w);
    }
  }

  /** Every instruction survives packing and unpacking. */
  lemma UnpackPack(i: MarketInstruction)
    ensures Unpack(Pack(i)) == Some(i)
  {
    hide Power, Widths, Values, Decode, Width, Split, Join, ToBytes, FromBytes;
    var d := Discriminant(i);
    ValuesFit(i);
    WidthBound(d);
    CodeRoundTrip(d);
    SplitJoin(Widths(d), Values(i));
    DecodeValues(i);
    var b := Pack(i);
    assert b[1..5] == ToBytes(d, 4) && b[5..] == Join(Widths(d), Values(i));
  }

  lemma CodeRoundTrip(d: nat)
    requires d < 10
    ensures FromBytes(ToBytes(d, 4)) == d
  {
    PowerValues();
    FromToBytes(d, 4);
  }

  /** What decodes to an instruction is its field list. */
  lemma DecodeInverse(d: nat, vs: seq<nat>)
    requires d < 10 && Fit(Widths(d), vs) && Decode(d, vs).Some?
    ensures Discriminant(Decode(d, vs).value) == d && Values(Decode(d, vs).value) == vs
  {
    hide Power;
    if d == 9 {
      assert V2Head(vs) == V1Values(UnpackV1(V2Head(vs)).value);
    }
  }

  /** Every accepted byte string is the packing of what it decodes to. */
  lemma PackUnpack(b: seq<byte>)
    requires Unpack(b).Some?
    ensures Pack(Unpack(b).value) == b
  {
    hide Power, Widths, Values, Decode, Width, Split, Join, ToBytes, FromBytes, Discriminant;
    var d, data := FromBytes(b[1..5]), b[5..];
    JoinSplit(Widths(d), data);
    DecodeInverse(d, Split(Widths(d), data));
    ToFromBytes(b[1..5]);
    assert b == [b[0]] + b[1..5] + b[5..];
  }

  // ----- the layout, byte by byte -----

  /** The little-endian number in `w` bytes from position `p` on. */
  function Field(b: seq<byte>, p: nat, w: nat): nat
    requires p + w <= |b|
  {
    FromBytes(b[p..p + w])
  }

  lemma SliceOfRest(b: seq<byte>, from: nat, p: nat, w: nat)
    requires from + p + w <= |b|
    ensures b[from..][p..p + w] == b[from + p..from + p + w]
  {
  }

  lemma {:induction false} FieldOfJoin(ws: seq<nat>, vs: seq<nat>, k: nat)
    requires Fit(ws, vs) && k < |ws|
    ensures Width(ws[..k]) + ws[k] <= Width(ws) && Field(Join(ws, vs), Width(ws[..k]), ws[k]) == vs[k]
  {
    var data := Join(ws, vs);
    if k == 0 {
      FromToBytes(vs[0], ws[0]);
      assert data[..ws[0]] == ToBytes(vs[0], ws[0]) && Width(ws[..0]) == 0;
    } else {
      FieldOfJoin(ws[1..], vs[1..], k - 1);
      assert ws[..k][1..] == ws[1..][..k - 1];
      var p := Width(ws[1..][..k - 1]);
      assert data[ws[0]..] == Join(ws[1..], vs[1..]);
      SliceOfRest(data, ws[0], p, ws[k]);
    }
  }

  /** A packed instruction: version 0, the discriminant in 4 bytes, and then its fields. */
  lemma FieldOfPack(i: MarketInstruction, k: nat)
    requires k < |Values(i)|
    ensures var b, ws, vs := Pack(i), Widths(Discriminant(i)), Values(i);
            && |ws| == |vs| && 5 + Width(ws[..k]) + ws[k] <= |b| && Field(b, 5 + Width(ws[..k]), ws[k]) == vs[k]
  {
    ValuesMatch(i);
    ValuesFit(i);
    hide Power, Widths, Values, Width;
    var b, ws, vs := Pack(i), Widths(Discriminant(i)), Values(i);
    FieldOfJoin(ws, vs, k);
    var p := Width(ws[..k]);
    assert b[5..] == Join(ws, vs);
    SliceOfRest(b, 5, p, ws[k]);
  }

  lemma Header(i: MarketInstruction)
    ensures var b := Pack(i);
            |b| == 5 + Width(Widths(Discriminant(i))) && b[0] == 0 && Field(b, 1, 4) == Discriminant(i)
  {
    ValuesMatch(i);
    PowerValues();
    FromToBytes(Discriminant(i), 4);
    assert Pack(i)[1..5] == ToBytes(Discriminant(i), 4);
  }

  /** The fields of an order instruction. */
  predicate OrderFields(b: seq<byte>, o: NewOrderV1)
    requires |b| >= 37
  {
    && Field(b, 5, 4) == (if o.side == Bid then 0 else 1) && Field(b, 9, 8) == o.limitPrice
        && Field(b, 17, 8) == o.maxQty
    && Field(b, 25, 4) == (match o.orderType case Limit => 0 case ImmediateOrCancel => 1 case PostOnly => 2)
    && Field(b, 29, 8) == o.clientId
  }

  /** Where each instruction keeps what. */
  predicate LaidOut(i: MarketInstruction, b: seq<byte>) {
    && |b| >= 5 && b[0] == 0
    && match i
       case InitializeMarket(coinLot, pcLot, feeBps, nonce, dust) =>
         && |b| == 39 && Field(b, 1, 4) == 0 && Field(b, 5, 8) == coinLot && Field(b, 13, 8) == pcLot
         && Field(b, 21, 2) == feeBps && Field(b, 23, 8) == nonce && Field(b, 31, 8) == dust
       case NewOrder(v1) => |b| == 37 && Field(b, 1, 4) == 1 && OrderFields(b, v1)
       case MatchOrders(limit) => |b| == 7 && Field(b, 1, 4) == 2 && Field(b, 5, 2) == limit
       case ConsumeEvents(limit) => |b| == 7 && Field(b, 1, 4) == 3 && Field(b, 5, 2) == limit
       case CancelOrder(side, id, o0, o1, o2, o3, slot) =>
         && |b| == 58 && Field(b, 1, 4) == 4 && Field(b, 5, 4) == (if side == Bid then 0 else 1)
         && Field(b, 9, 16) == id && Field(b, 25, 8) == o0 && Field(b, 33, 8) == o1 && Field(b, 41, 8) == o2
         && Field(b, 49, 8) == o3 && Field(b, 57, 1) == slot
       case SettleFunds => |b| == 5 && Field(b, 1, 4) == 5
       case CancelOrderByClientId(id) => |b| == 13 && Field(b, 1, 4) == 6 && Field(b, 5, 8) == id
       case DisableMarket => |b| == 5 && Field(b, 1, 4) == 7
       case SweepFees => |b| == 5 && Field(b, 1, 4) == 8
       case NewOrderV2(v1, behavior) =>
         && |b| == 41 && Field(b, 1, 4) == 9 && OrderFields(b, v1)
         && Field(b, 37, 4) == (if behavior == DecrementTake then 0 else 1)
  }

  lemma Layout(i: MarketInstruction)
    ensures LaidOut(i, Pack(i))
  {
    hide LaidOut, Pack;
    if i.NewOrder? || i.NewOrderV2? {
      OrderLayout(i);
    } else if i.CancelOrder? {
      CancelLayout(i);
    } else {
      OtherLayout(i);
    }
  }

  /** One field, at an explicit place. */
  lemma FieldIs(i: MarketInstruction, k: nat, p: nat, w: nat, v: nat)
    requires k < |Values(i)| == |Widths(Discriminant(i))|
    requires Widths(Discriminant(i))[k] == w && 5 + Width(Widths(Discriminant(i))[..k]) == p && Values(i)[k] == v
    ensures p + w <= |Pack(i)| && Field(Pack(i), p, w) == v
  {
    FieldOfPack(i, k);
  }

  lemma OrderWidths(i: MarketInstruction)
    requires i.NewOrder? || i.NewOrderV2?
    ensures var ws := Widths(Discriminant(i));
            && ws == (if i.NewOrder? then [4, 8, 8, 4, 8] else [4, 8, 8, 4, 8, 4])
            && Width(ws[..0]) == 0 && Width(ws[..1]) == 4 && Width(ws[..2]) == 12 && Width(ws[..3]) == 20
                && Width(ws[..4]) == 24
            && (i.NewOrderV2? ==> Width(ws[..5]) == 32)
            && Width(ws) == (if i.NewOrder? then 32 else 36)
  {
    var ws := Widths(Discriminant(i));
    assert ws == if i.NewOrder? then [4, 8, 8, 4, 8] else [4, 8, 8, 4, 8, 4];
    hide Width, Widths;
    Sums(ws);
  }

  lemma OrderValues(i: MarketInstruction)
    requires i.NewOrder? || i.NewOrderV2?
    ensures var vs := Values(i);
            && |vs| == |Widths(Discriminant(i))|
            && vs[0] == SideCode(i.v1.side) && vs[1] == i.v1.limitPrice && vs[2] == i.v1.maxQty
            && vs[3] == TypeCode(i.v1.orderType) && vs[4] == i.v1.clientId
            && (i.NewOrderV2? ==> vs[5] == SelfTradeCode(i.selfTradeBehavior))
  {
  }

  lemma OrderLayout(i: MarketInstruction)
    requires i.NewOrder? || i.NewOrderV2?
    ensures LaidOut(i, Pack(i))
  {
    OrderWidths(i);
    OrderValues(i);
    Header(i);
    hide Pack, Field, Power, Widths, Width, Values;
    FieldIs(i, 0, 5, 4, SideCode(i.v1.side));
    FieldIs(i, 1, 9, 8, i.v1.limitPrice);
    FieldIs(i, 2, 17, 8, i.v1.maxQty);
    FieldIs(i, 3, 25, 4, TypeCode(i.v1.orderType));
    FieldIs(i, 4, 29, 8, i.v1.clientId);
    if i.NewOrderV2? {
      FieldIs(i, 5, 37, 4, SelfTradeCode(i.selfTradeBehavior));
    }
  }

  lemma CancelWidths(i: MarketInstruction)
    requires i.CancelOrder?
    ensures var ws := Widths(Discriminant(i));
            && ws == [4, 16, 8, 8, 8, 8, 1]
            && Width(ws[..0]) == 0 && Width(ws[..1]) == 4 && Width(ws[..2]) == 20 && Width(ws[..3]) == 28
                && Width(ws[..4]) == 36
            && Width(ws[..5]) == 44 && Width(ws[..6]) == 52 && Width(ws) == 53
  {
    var ws := Widths(Discriminant(i));
    hide Width, Widths;
    Sums(ws);
  }

  lemma CancelLayout(i: MarketInstruction)
    requires i.CancelOrder?
    ensures LaidOut(i, Pack(i))
  {
    CancelWidths(i);
    Header(i);
    ValuesMatch(i);
    hide Pack, Field, Power, Widths, Width;
    FieldIs(i, 0, 5, 4, SideCode(i.side));
    FieldIs(i, 1, 9, 16, i.orderId);
    FieldIs(i, 2, 25, 8, i.owner0);
    FieldIs(i, 3, 33, 8, i.owner1);
    FieldIs(i, 4, 41, 8, i.owner2);
    FieldIs(i, 5, 49, 8, i.owner3);
    FieldIs(i, 6, 57, 1, i.ownerSlot);
  }

  lemma OtherLayout(i: MarketInstruction)
    requires !i.NewOrder? && !i.NewOrderV2? && !i.CancelOrder?
    ensures LaidOut(i, Pack(i))
  {
    Header(i);
    FieldsAt(i);
    var ws, vs := Widths(Discriminant(i)), Values(i);
    hide Pack, Field, Power;
    Sums(ws);
  }

  lemma FieldsAt(i: MarketInstruction)
    ensures var b, ws := Pack(i), Widths(Discriminant(i));
            && |ws| == |Values(i)|
            && forall k: nat :: k < |ws| ==>
                 5 + Width(ws[..k]) + ws[k] <= |b| && Field(b, 5 + Width(ws[..k]), ws[k]) == Values(i)[k]
  {
    ValuesMatch(i);
    hide Pack, Field, Power, Width, Widths, Values;
    forall k: nat | k < |Values(i)|
      ensures var b, ws := Pack(i), Widths(Discriminant(i));
              5 + Width(ws[..k]) + ws[k] <= |b| && Field(b, 5 + Width(ws[..k]), ws[k]) == Values(i)[k]
    {
      FieldOfPack(i, k);
    }
  }

  /** The widths before each of up to seven fields. */
  lemma Sums(ws: seq<nat>)
    ensures Width(ws[..0]) == 0 && ws[..|ws|] == ws
    ensures |ws| > 0 ==> Width(ws[..1]) == ws[0]
    ensures |ws| > 1 ==> Width(ws[..2]) == ws[0] + ws[1]
    ensures |ws| > 2 ==> Width(ws[..3]) == ws[0] + ws[1] + ws[2]
    ensures |ws| > 3 ==> Width(ws[..4]) == ws[0] + ws[1] + ws[2] + ws[3]
    ensures |ws| > 4 ==> Width(ws[..5]) == ws[0] + ws[1] + ws[2] + ws[3] + ws[4]
    ensures |ws| > 5 ==> Width(ws[..6]) == ws[0] + ws[1] + ws[2] + ws[3] + ws[4] + ws[5]
    ensures |ws| > 6 ==> Width(ws[..7]) == ws[0] + ws[1] + ws[2] + ws[3] + ws[4] + ws[5] + ws[6]
  {
    hide Width;
    PrefixWidths(ws);
    assert |ws| > 0 ==> Width(ws[..0 + 1]) == ws[0];
    assert |ws| > 1 ==> Width(ws[..1 + 1]) == ws[0] + ws[1];
    assert |ws| > 2 ==> Width(ws[..2 + 1]) == ws[0] + ws[1] + ws[2];
    assert |ws| > 3 ==> Width(ws[..3 + 1]) == ws[0] + ws[1] + ws[2] + ws[3];
    assert |ws| > 4 ==> Width(ws[..4 + 1]) == ws[0] + ws[1] + ws[2] + ws[3] + ws[4];
    assert |ws| > 5 ==> Width(ws[..5 + 1]) == ws[0] + ws[1] + ws[2] + ws[3] + ws[4] + ws[5];
    assert |ws| > 6 ==> Width(ws[..6 + 1]) == ws[0] + ws[1] + ws[2] + ws[3] + ws[4] + ws[5] + ws[6];
  }

  lemma PrefixWidths(ws: seq<nat>)
    ensures Width([]) == 0 && Width(ws[..0]) == 0 && ws[..|ws|] == ws
    ensures forall k :: 0 <= k < |ws| ==> Width(ws[..k + 1]) == Width(ws[..k]) + ws[k]
  {
    forall k | 0 <= k < |ws| ensures Width(ws[..k + 1]) == Width(ws[..k]) + ws[k] {
      WidthAppend(ws[..k], ws[k]);
      assert ws[..k] + [ws[k]] == ws[..k + 1];
    }
  }
}
