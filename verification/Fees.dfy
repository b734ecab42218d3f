/**
 Fee schedule of the exchange (dex/src/fees.rs): U64F64 fixed point rates,
 taker fees rounded up, maker rebates rounded down, and the inverse
 `RemoveTakerFee` that a bid uses to find out how much it can spend.
 */
module Fees {
  import opened Numbers

  datatype FeeTier = Base | SRM2 | SRM3 | SRM4 | SRM5 | SRM6 | MSRM

  /** A rate in U64F64: the numerator over 2^64. */
  function FeeBps(bps: nat): nat {
    bps * TWO64 / 10000
  }

  function RebateBps(bps: nat): nat {
    FeeBps(bps) + 1
  }

  function TakerRate(t: FeeTier): nat {
    match t
    case Base => FeeBps(22)
    case SRM2 => FeeBps(20)
    case SRM3 => FeeBps(18)
    case SRM4 => FeeBps(16)
    case SRM5 => FeeBps(14)
    case SRM6 => FeeBps(12)
    case MSRM => FeeBps(10)
  }

  function RebateRate(t: FeeTier): nat {
    if t == MSRM then RebateBps(5) else RebateBps(3)
  }

  /** floor of the exact fee, plus one when the fraction is not zero */
  function TakerFee(t: FeeTier, pcQty: int): int {
    var exact := TakerRate(t) * pcQty;
    exact / TWO64 + (if exact % TWO64 != 0 then 1 else 0)
  }

  function MakerRebate(t: FeeTier, pcQty: int): int {
    RebateRate(t) * pcQty / TWO64
  }

  function RemoveTakerFee(t: FeeTier, pcQtyInclFee: int): int {
    pcQtyInclFee * TWO64 / (TWO64 + TakerRate(t))
  }

  function ReferrerRebate(amount: int): int {
    amount / 5
  }

  // ----- the exact rates are bracketed by what was asked for -----

  lemma RateBounds(t: FeeTier)
    ensures FeeBps(10) <= TakerRate(t) <= FeeBps(22) < TWO64
    ensures RebateRate(t) <= FeeBps(5) + 1
    ensures 5 * (FeeBps(5) + 1) < 4 * FeeBps(10)
  {
  }

  /** A taker fee is the least whole number covering the exact fee. */
  lemma TakerFeeIsCeiling(t: FeeTier, q: nat)
    ensures TakerRate(t) * q <= TakerFee(t, q) * TWO64 < TakerRate(t) * q + TWO64
    ensures 0 <= TakerFee(t, q)
  {
    var exact := TakerRate(t) * q;
    assert 0 <= exact;
    assert exact == exact / TWO64 * TWO64 + exact % TWO64;
  }

  lemma MakerRebateIsFloor(t: FeeTier, q: nat)
    ensures MakerRebate(t, q) * TWO64 <= RebateRate(t) * q < MakerRebate(t, q) * TWO64 + TWO64
    ensures 0 <= MakerRebate(t, q)
  {
    assert 0 <= RebateRate(t) * q;
  }

  lemma RemoveTakerFeeIsFloor(t: FeeTier, total: nat)
    ensures var w, unit := RemoveTakerFee(t, total), TWO64 + TakerRate(t);
            0 <= w && w * unit <= total * TWO64 < (w + 1) * unit
  {
    var unit := TWO64 + TakerRate(t);
    FloorTimes(total * TWO64, unit);
    var w := total * TWO64 / unit;
    assert (w + 1) * unit == w * unit + unit;
  }

  /** Every trade leaves the exchange a strictly positive net fee, whatever the two tiers. */
  lemma NetFeePositive(taker: FeeTier, maker: FeeTier, q: int)
    requires 1 <= q
    ensures TakerFee(taker, q) > MakerRebate(maker, q) + ReferrerRebate(TakerFee(taker, q))
  {
    var lo, hi := FeeBps(10), FeeBps(5) + 1;
    assert lo * q <= TakerFee(taker, q) * TWO64 by {
      TakerFeeIsCeiling(taker, q);
      RateBounds(taker);
      ProductMonotone(lo, TakerRate(taker), q);
    }
    assert MakerRebate(maker, q) * TWO64 <= hi * q by {
      MakerRebateIsFloor(maker, q);
      RateBounds(maker);
      ProductMonotone(RebateRate(maker), hi, q);
    }
    RateBounds(taker);
    FeeBeatsRebate(lo, hi, q, TakerFee(taker, q), MakerRebate(maker, q));
  }

  /** The net fee is three basis points of the amount, up to less than one unit of rounding. */
  lemma NetFeeMargin(taker: FeeTier, maker: FeeTier, q: u64)
    ensures var fee, rebate := TakerFee(taker, q), MakerRebate(maker, q);
            (fee - (rebate + ReferrerRebate(fee))) * 10000 + 6848 > 3 * q
  {
    var lo, hi := FeeBps(10), FeeBps(5) + 1;
    assert lo * q <= TakerFee(taker, q) * TWO64 by {
      TakerFeeIsCeiling(taker, q);
      RateBounds(taker);
      ProductMonotone(lo, TakerRate(taker), q);
    }
    assert MakerRebate(maker, q) * TWO64 <= hi * q by {
      MakerRebateIsFloor(maker, q);
      RateBounds(maker);
      ProductMonotone(RebateRate(maker), hi, q);
    }
    assert 8000 * lo - 10000 * hi == 3 * TWO64 - 6848;
    hide TakerFee, MakerRebate, FeeBps;
    MarginOf(lo, hi, q, TakerFee(taker, q), MakerRebate(maker, q));
  }

  lemma MarginOf(lo: nat, hi: nat, q: u64, fee: int, rebate: int)
    requires 8000 * lo - 10000 * hi == 3 * TWO64 - 6848
    requires lo * q <= fee * TWO64 && rebate * TWO64 <= hi * q
    ensures (fee - (rebate + ReferrerRebate(fee))) * 10000 + 6848 > 3 * q
  {
    assert (8000 * lo - 10000 * hi) * q == 8000 * (lo * q) - 10000 * (hi * q);
    assert (3 * TWO64 - 6848) * q == 3 * q * TWO64 - 6848 * q;
    assert (8000 * fee - 10000 * rebate) * TWO64 >= 3 * q * TWO64 - 6848 * q;
  }

  /** The net fee is at most a 400th part of what the seller gets, up to two units of rounding. */
  lemma FeeShare(taker: FeeTier, q: nat)
    ensures 401 * TakerFee(taker, q) <= q + 800
  {
    var fee := TakerFee(taker, q);
    TakerFeeIsCeiling(taker, q);
    RateBounds(taker);
    ProductMonotone(TakerRate(taker), FeeBps(22), q);
    assert 10000 * FeeBps(22) <= 22 * TWO64;
    hide TakerFee, TakerRate, FeeBps;
    ProductMonotone(10000 * FeeBps(22), 22 * TWO64, q);
    assert 10000 * (fee * TWO64) <= 22 * TWO64 * q + 10000 * TWO64;
  }

  lemma FeeBeatsRebate(lo: nat, hi: nat, q: nat, fee: int, rebate: int)
    requires 5 * hi < 4 * lo && 1 <= q
    requires lo * q <= fee * TWO64 && rebate * TWO64 <= hi * q
    ensures 5 * rebate < 4 * fee && fee > rebate + ReferrerRebate(fee)
  {
    ProductMonotone(1, q, 4 * lo - 5 * hi);
    assert (4 * lo - 5 * hi) * q == 4 * (lo * q) - 5 * (hi * q);
  }

  /** What the matcher needs of one fill: no subtraction on the fee path can wrap. */
  lemma FillFeesNonNegative(taker: FeeTier, maker: FeeTier, q: nat)
    ensures var fee, rebate := TakerFee(taker, q), MakerRebate(maker, q);
            && 0 <= rebate && rebate <= fee && fee <= q
            && 0 <= ReferrerRebate(fee) <= fee - rebate
  {
    TakerFeeIsCeiling(taker, q);
    MakerRebateIsFloor(maker, q);
    RateBounds(taker);
    if q >= 1 {
      NetFeePositive(taker, maker, q);
      ProductMonotone(TakerRate(taker), TWO64 - 1, q);
      assert TakerFee(taker, q) * TWO64 < (TWO64 - 1) * q + TWO64;
      FeeAtMostPrincipal(taker, q);
    } else {
      assert TakerRate(taker) * q == 0 && RebateRate(maker) * q == 0;
    }
  }

  lemma FeeAtMostPrincipal(t: FeeTier, q: int)
    requires 1 <= q
    ensures TakerFee(t, q) <= q
  {
    TakerFeeIsCeiling(t, q);
    RateBounds(t);
    var rate, fee := TakerRate(t), TakerFee(t, q);
    ProductMonotone(rate, TWO64 - 1, q);
    assert (TWO64 - 1) * q == TWO64 * q - q;
    hide TakerRate, TakerFee, FeeBps;
    assert fee * TWO64 < TWO64 * q + TWO64;
  }

  lemma TakerFeeMonotone(t: FeeTier, a: nat, b: nat)
    requires a <= b
    ensures TakerFee(t, a) <= TakerFee(t, b)
  {
    TakerFeeIsCeiling(t, a);
    TakerFeeIsCeiling(t, b);
    ProductMonotone(a, b, TakerRate(t));
  }

  /** The amount withheld is the fee on what is left, or one unit more. */
  lemma WithheldIsFeeOrOneMore(t: FeeTier, total: nat)
    ensures var w := RemoveTakerFee(t, total);
            0 <= w <= total && (total - w == TakerFee(t, w) || total - w == TakerFee(t, w) + 1)
  {
    hide RemoveTakerFee, TakerFee, TakerRate, FeeBps;
    var w, r := RemoveTakerFee(t, total), TakerRate(t);
    RemoveTakerFeeIsFloor(t, total);
    TakerFeeIsCeiling(t, w);
    RateBounds(t);
    assert w * (TWO64 + r) == w * TWO64 + w * r;
    assert (w + 1) * (TWO64 + r) == w * TWO64 + w * r + TWO64 + r;
    assert 0 <= w * r;
  }

  /** Any fill up to the reduced amount can be paid for, fee included. */
  lemma FillFitsLock(t: FeeTier, total: nat, fill: nat)
    requires fill <= RemoveTakerFee(t, total)
    ensures fill + TakerFee(t, fill) <= total
  {
    WithheldIsFeeOrOneMore(t, total);
    TakerFeeMonotone(t, fill, RemoveTakerFee(t, total));
  }

  /** Adding the fee and removing it again is exact: the documented tolerance of one is not needed. */
  lemma RemoveUndoesAdd(t: FeeTier, q: nat)
    ensures RemoveTakerFee(t, q + TakerFee(t, q)) == q
  {
    hide RemoveTakerFee, TakerFee, TakerRate, FeeBps;
    var r, fee := TakerRate(t), TakerFee(t, q);
    TakerFeeIsCeiling(t, q);
    var w := RemoveTakerFee(t, q + fee);
    RemoveTakerFeeIsFloor(t, q + fee);
    var unit := TWO64 + r;
    assert q * unit == q * TWO64 + r * q;
    assert (q + 1) * unit == q * unit + unit;
    assert (q + fee) * TWO64 == q * TWO64 + fee * TWO64;
    if w < q {
      ProductMonotone(w + 1, q, unit);
    } else if w > q {
      ProductMonotone(q + 1, w, unit);
    }
  }

  /** The u64 results and u128 intermediates of the fee code are in range for u64 inputs. */
  lemma FeesFit(t: FeeTier, q: u64)
    ensures FitsU64(TakerFee(t, q)) && FitsU64(MakerRebate(t, q)) && FitsU64(RemoveTakerFee(t, q))
    ensures TakerRate(t) * q < TWO128 && RebateRate(t) * q < TWO128 && q * TWO64 < TWO128
  {
    FillFeesNonNegative(t, t, q);
    WithheldIsFeeOrOneMore(t, q);
    RateBounds(t);
    ProductMonotone(TakerRate(t), TWO64, q);
    ProductMonotone(RebateRate(t), TWO64, q);
  }

  // ----- the schedule in basis points -----

  /** Taker fees are 22, 20, 18, 16, 14, 12 and 10 basis points, up to less than one unit. */
  lemma TakerFeeInBps(t: FeeTier, q: u64)
    ensures var bps := match t
                       case Base => 22
                       case SRM2 => 20
                       case SRM3 => 18
                       case SRM4 => 16
                       case SRM5 => 14
                       case SRM6 => 12
                       case MSRM => 10;
            bps * q - 10000 < 10000 * TakerFee(t, q) < bps * q + 10000
  {
    var rate, fee := TakerRate(t), TakerFee(t, q);
    var bps := match t
               case Base => 22
               case SRM2 => 20
               case SRM3 => 18
               case SRM4 => 16
               case SRM5 => 14
               case SRM6 => 12
               case MSRM => 10;
    assert bps * TWO64 - 10000 < 10000 * rate <= bps * TWO64;
    TakerFeeIsCeiling(t, q);
    hide TakerFee, TakerRate;
    NearBps(bps, rate, q, fee);
  }

  /** Maker rebates are 5 basis points for the last tier and 3 for all others, up to less than one unit. */
  lemma MakerRebateInBps(t: FeeTier, q: u64)
    ensures var bps := if t.MSRM? then 5 else 3;
            bps * q - 10000 < 10000 * MakerRebate(t, q) < bps * q + 10000
  {
    var rate, rebate := RebateRate(t), MakerRebate(t, q);
    var bps := if t.MSRM? then 5 else 3;
    assert bps * TWO64 < 10000 * rate <= bps * TWO64 + 10000;
    MakerRebateIsFloor(t, q);
    hide MakerRebate, RebateRate;
    ProductMonotone(bps * TWO64, 10000 * rate, q);
    ProductMonotone(10000 * rate, bps * TWO64 + 10000, q);
    RebateNear(bps, rate, q, rebate);
  }

  lemma NearBps(bps: nat, rate: nat, q: u64, fee: int)
    requires bps * TWO64 - 10000 < 10000 * rate <= bps * TWO64
    requires rate * q <= fee * TWO64 < rate * q + TWO64
    ensures bps * q - 10000 < 10000 * fee < bps * q + 10000
  {
    ProductMonotone(bps * TWO64 - 10000, 10000 * rate, q);
    ProductMonotone(10000 * rate, bps * TWO64, q);
    assert (bps * TWO64 - 10000) * q == bps * q * TWO64 - 10000 * q && bps * TWO64 * q == bps * q * TWO64;
    assert 10000 * (rate * q) == 10000 * rate * q;
    assert (bps * q - 10000) * TWO64 < 10000 * fee * TWO64 < (bps * q + 10000) * TWO64;
  }

  lemma RebateNear(bps: nat, rate: nat, q: u64, rebate: int)
    requires bps * TWO64 * q <= 10000 * rate * q <= (bps * TWO64 + 10000) * q
    requires rebate * TWO64 <= rate * q < rebate * TWO64 + TWO64
    ensures bps * q - 10000 < 10000 * rebate < bps * q + 10000
  {
    assert (bps * TWO64 + 10000) * q == bps * q * TWO64 + 10000 * q && bps * TWO64 * q == bps * q * TWO64;
    assert 10000 * (rate * q) == 10000 * rate * q;
    assert (bps * q - 10000) * TWO64 < 10000 * rebate * TWO64 < (bps * q + 10000) * TWO64;
  }

  /** The referrer gets a fifth, rounded down. */
  lemma ReferrerGetsAFifth(amount: nat)
    ensures 5 * ReferrerRebate(amount) <= amount < 5 * ReferrerRebate(amount) + 5
  {
  }
}
