/**
 The vesting account of the lockup program (lockup/src/accounts/vesting.rs) and
 its schedule arithmetic in the release build: subtractions wrap.  `None` stands
 for a stop of the program, by a failed assertion or a division by zero.
 */
module Vesting {
  import opened Numbers
  import opened Orders

  datatype Account = Account(
    claimed: bool, balance: int, startBalance: int, startSlot: int, endSlot: int, periodCount: int, whitelistOwned: int)

  function LinearUnlock(v: Account, now: int): Option<int> {
    if v.periodCount == 0 then None
    else
      var overflow := Wrap(v.endSlot - v.startSlot) % v.periodCount;
      var start := Wrap(v.startSlot - overflow);
      var period := Wrap(v.endSlot - start) / v.periodCount;
      if period == 0 then None
      else Some(Wrap(Min(Wrap(now - start) / period, v.periodCount) * (v.startBalance / v.periodCount)))
  }

  /** The same in a build with overflow checks, where a subtraction below zero stops too. */
  function LinearUnlockChecked(v: Account, now: int): Option<int> {
    if v.periodCount == 0 || v.endSlot < v.startSlot then None
    else
      var overflow := (v.endSlot - v.startSlot) % v.periodCount;
      var start := v.startSlot - overflow;
      if start < 0 || v.endSlot < start || (v.endSlot - start) / v.periodCount == 0 || now < start then None
      else
        var periods := Min((now - start) / ((v.endSlot - start) / v.periodCount), v.periodCount);
        var unlocked := periods * (v.startBalance / v.periodCount);
        if FitsU64(unlocked) then Some(unlocked) else None
  }

  function TotalVested(v: Account, now: int): Option<int> {
    if now < v.startSlot then None
    else if now >= v.endSlot then Some(v.startBalance)
    else LinearUnlock(v, now)
  }

  function AvailableForWhitelist(v: Account): int {
    Wrap(v.balance - v.whitelistOwned)
  }

  function BalanceVested(v: Account, now: int): Option<int> {
    var total := TotalVested(v, now);
    if total.None? then None else Some(Wrap(total.value - Wrap(v.startBalance - v.balance)))
  }

  function AvailableForWithdrawal(v: Account, now: int): Option<int> {
    var vested := BalanceVested(v, now);
    if vested.None? then None else Some(Min(vested.value, AvailableForWhitelist(v)))
  }

  /** What `create_vesting` checks of a schedule. */
  predicate Accepted(v: Account) {
    && 0 <= v.startSlot < v.endSlot < TWO64 && 0 < v.periodCount < TWO64 && 0 < v.startBalance < TWO64
  }

  function Length(v: Account): int {
    v.endSlot - v.startSlot
  }

  /** The slots by which the start is moved back so that the window divides better. */
  function Remainder(v: Account): int
    requires v.periodCount > 0
  {
    Length(v) % v.periodCount
  }

  /**
   The schedules on which the release build never stops: two periods per slot at most, and a moved window
   below 2^64.
   */
  predicate Sound(v: Account) {
    0 < v.periodCount <= 2 * Length(v) && Length(v) + Remainder(v) < TWO64
  }

  /** The schedule without machine words; the moved start may be negative. */
  function Schedule(v: Account, now: int): int
    requires Accepted(v) && Sound(v)
  {
    var start := v.startSlot - Remainder(v);
    PeriodPositive(Length(v), v.periodCount);
    Min((now - start) / ((v.endSlot - start) / v.periodCount), v.periodCount) * (v.startBalance / v.periodCount)
  }

  /** The moved window is at least one slot per period exactly when there are at most two periods per slot. */
  lemma PeriodPositive(length: int, count: int)
    requires 0 < length && 0 < count
    ensures (length + length % count) / count > 0 <==> count <= 2 * length
    ensures 0 <= length % count <= length && 0 <= (length + length % count) / count
  {
    var moved := length + length % count;
    FloorTimes(moved, count);
    FloorTimes(length, count);
    assert length == length / count * count + length % count;
    if count > length {
      SmallQuotient(length, count);
    } else {
      QuotientAtLeast(moved, count, 1);
    }
    if moved < count {
      SmallQuotient(moved, count);
    } else {
      QuotientAtLeast(moved, count, 1);
    }
  }

  lemma SmallQuotient(x: int, d: int)
    requires 0 <= x < d
    ensures x / d == 0 && x % d == x
  {
  }

  /**
   The wrapped subtractions: the moved window loses 2^64 if it reaches that, the elapsed time does so at most
   with it.
   */
  lemma WrappedWindow(v: Account, now: int)
    requires Accepted(v) && v.startSlot <= now < v.endSlot
    ensures var overflow := Wrap(v.endSlot - v.startSlot) % v.periodCount;
            var start := Wrap(v.startSlot - overflow);
            && overflow == Remainder(v) && 0 <= overflow < v.periodCount
            && Wrap(v.endSlot - start) == Wrap(Length(v) + overflow)
            && Wrap(now - start) == Wrap(now - v.startSlot + overflow)
  {
    var overflow := Remainder(v);
    PeriodPositive(Length(v), v.periodCount);
    WrapMinus(v.endSlot, v.startSlot - overflow);
    WrapMinus(now, v.startSlot - overflow);
  }

  lemma SmallWindow(window: int, count: int)
    requires 0 < window < 2 * TWO64 && 0 < count
    requires window >= TWO64 ==> window - TWO64 < count
    ensures Wrap(window) / count > 0 <==> window < TWO64 && window / count > 0
    ensures 0 <= window / count && 0 <= Wrap(window) / count
  {
    FloorTimes(window, count);
    if window >= TWO64 {
      SameResidue(window - TWO64, 1);
      SmallQuotient(window - TWO64, count);
    }
  }

  /**
   On an accepted schedule, before the end, the release build computes an amount if and only if the schedule
   is sound.
   */
  lemma VestedDefinedIff(v: Account, now: int)
    requires Accepted(v) && v.startSlot <= now < v.endSlot
    ensures TotalVested(v, now).Some? <==> Sound(v)
  {
    WrappedWindow(v, now);
    PeriodPositive(Length(v), v.periodCount);
    SmallWindow(Length(v) + Remainder(v), v.periodCount);
    hide Wrap;
  }

  /** And then that amount is the one of the schedule without machine words: the wrapped subtractions cancel. */
  lemma VestedIsSchedule(v: Account, now: int)
    requires Accepted(v) && Sound(v) && v.startSlot <= now < v.endSlot
    ensures TotalVested(v, now) == Some(Schedule(v, now))
    ensures 0 <= Schedule(v, now) <= v.startBalance
  {
    WrappedWindow(v, now);
    PeriodPositive(Length(v), v.periodCount);
    var window, elapsed := Length(v) + Remainder(v), now - v.startSlot + Remainder(v);
    assert v.endSlot - (v.startSlot - Remainder(v)) == window && now - (v.startSlot - Remainder(v)) == elapsed;
    assert Wrap(window) == window && Wrap(elapsed) == elapsed;
    hide Wrap;
    ShareBounded(elapsed, window / v.periodCount, v.periodCount, v.startBalance);
  }

  lemma ShareBounded(elapsed: int, period: int, count: int, balance: int)
    requires 0 <= elapsed && 0 < period && 0 < count && 0 <= balance
    ensures 0 <= Min(elapsed / period, count) * (balance / count) <= balance
  {
    FloorTimes(elapsed, period);
    FloorTimes(balance, count);
    var share, periods := balance / count, Min(elapsed / period, count);
    ProductMonotone(periods, count, share);
    ProductMonotone(0, periods, share);
  }

  /** With overflow checks the program stops in one more case, a moved start before slot zero, and agrees otherwise. */
  lemma CheckedDefinedIff(v: Account, now: int)
    requires Accepted(v) && v.startSlot <= now < v.endSlot
    ensures var checked := LinearUnlockChecked(v, now);
            && (checked.Some? <==> v.periodCount <= 2 * Length(v) && Remainder(v) <= v.startSlot)
            && (checked.Some? ==> checked == TotalVested(v, now))
  {
    PeriodPositive(Length(v), v.periodCount);
    assert v.endSlot - (v.startSlot - Remainder(v)) == Length(v) + Remainder(v);
    if Sound(v) {
      VestedIsSchedule(v, now);
    }
    hide Wrap, LinearUnlock;
  }

  /** create_vesting accepts schedules on which redemption stops until the end slot, in every build. */
  lemma AcceptedButUndefined()
    ensures var v := Account(true, 10, 10, 100, 101, 3, 0);
            Accepted(v) && TotalVested(v, 100) == None && AvailableForWithdrawal(v, 100) == None
  {
  }

  /** A moved start before slot zero stops a build with overflow checks only. */
  lemma NegativeStart()
    ensures var v := Account(true, 10, 10, 1, 8, 5, 0);
            Accepted(v) && Sound(v) && TotalVested(v, 3) == Some(8) && LinearUnlockChecked(v, 3) == None
  {
    hide LinearUnlock, LinearUnlockChecked;
    var v := Account(true, 10, 10, 1, 8, 5, 0);
    CheckedDefinedIff(v, 3);
    VestedIsSchedule(v, 3);
  }

  /** The vested amount is in range, and all of the deposit from the end slot on. */
  lemma VestedBounded(v: Account, now: int)
    requires Accepted(v) && TotalVested(v, now).Some?
    ensures 0 <= TotalVested(v, now).value <= v.startBalance
    ensures now >= v.endSlot ==> TotalVested(v, now).value == v.startBalance
  {
    if now < v.endSlot {
      VestedDefinedIff(v, now);
      VestedIsSchedule(v, now);
    }
  }

  /** The vested amount never decreases, and once defined it stays defined. */
  lemma VestedMonotone(v: Account, now: int, later: int)
    requires Accepted(v) && now <= later && TotalVested(v, now).Some?
    ensures TotalVested(v, later).Some? && TotalVested(v, now).value <= TotalVested(v, later).value
  {
    VestedBounded(v, now);
    if later < v.endSlot {
      VestedDefinedIff(v, now);
      VestedIsSchedule(v, now);
      VestedIsSchedule(v, later);
      ScheduleMonotone(v, now, later);
      hide LinearUnlock;
    }
  }

  lemma ScheduleMonotone(v: Account, now: int, later: int)
    requires Accepted(v) && Sound(v) && v.startSlot <= now <= later
    ensures Schedule(v, now) <= Schedule(v, later)
  {
    var start := v.startSlot - Remainder(v);
    PeriodPositive(Length(v), v.periodCount);
    var period := (v.endSlot - start) / v.periodCount;
    QuotientMonotone(now - start, later - start, period);
    FloorTimes(v.startBalance, v.periodCount);
    ProductMonotone(Min((now - start) / period, v.periodCount), Min((later - start) / period, v.periodCount),
                    v.startBalance / v.periodCount);
  }

  /** The amount vested by now, counting a stopped schedule as zero. */
  function VestedSoFar(v: Account, now: int): int {
    var t := TotalVested(v, now);
    if t.Some? then t.value else 0
  }
}
