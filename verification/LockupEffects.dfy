/**
 What each instruction of the lockup program does to the safe, field by field, and
 when it succeeds; and that the schedule of an account is for good the one it was
 created with.
 */
module LockupEffects {
  import opened Numbers
  import opened Vesting
  import opened Lockup

  // ----- creation -----

  /** The account that a creation at slot `clock` opens. */
  function Opened(act: Action, clock: int): Account
    requires act.CreateAction?
  {
    Account(false, act.deposit, act.deposit, clock, act.endSlot, act.periodCount, 0)
  }

  /**
   A creation is accepted on these conditions, then opens exactly the account of the instruction and takes the
   deposit.
   */
  lemma CreateEffect(s: Safe, act: Action)
    requires act.CreateAction?
    ensures var accepted :=
              && s.clock < act.endSlot && act.periodCount != 0 && act.deposit != 0 && Supply(s, act.mint) == 0
              && act.deposit <= act.depositorFunds && s.vault + act.deposit < TWO64;
            Execute(s, act)
              == if accepted then s.(entries := s.entries + [Entry(Opened(act, s.clock), act.mint)],
                  vault := s.vault + act.deposit)
                 else s
  {
  }

  // ----- the other instructions -----

  /** Only entry `i`, the supply of its mint and the vault differ between `s` and `t`. */
  ghost predicate Changes(s: Safe, i: nat, v: Account, receipts: int, vault: int, t: Safe)
    requires i < |s.entries|
  {
    && t.entries == s.entries[i := Entry(v, s.entries[i].mint)] && t.vault == vault && t.clock == s.clock
    && forall m: nat :: Supply(t, m) == if m == s.entries[i].mint then receipts else Supply(s, m)
  }

  /** Receipts for the whole deposit are minted, once. */
  lemma ClaimEffect(s: Safe, i: nat)
    requires i < |s.entries|
    ensures var v, supply := s.entries[i].vesting, Supply(s, s.entries[i].mint);
            var t := Execute(s, ClaimAction(i));
            if !v.claimed && supply + v.startBalance < TWO64
            then Changes(s, i, v.(claimed := true), supply + v.startBalance, s.vault, t) else t == s
  {
  }

  /** A redemption takes its amount off the balance, the supply of the mint and the vault. */
  lemma RedeemEffect(s: Safe, i: nat, amount: u64, held: nat)
    requires SafeInv(s) && i < |s.entries|
    ensures var v, supply := s.entries[i].vesting, Supply(s, s.entries[i].mint);
            var t, total := Execute(s, RedeemAction(i, amount, held)), TotalVested(v, s.clock);
            var allowed := && v.claimed && total.Some? && amount <= total.value - (v.startBalance - v.balance)
                           && amount <= v.balance - v.whitelistOwned && amount <= held;
            if allowed then Changes(s, i, v.(balance := v.balance - amount), supply - amount, s.vault - amount, t)
            else t == s
  {
    hide TotalVested, Owed, Claimed, AvailableForWithdrawal, Redeem;
    var e := s.entries[i];
    assert e in s.entries && EntryOk(e.vesting, s.clock);
    OwedCovers(s.entries, s.clock);
    ClaimedCovers(s.entries, s.clock, e.mint);
    RedeemAtPosition(PositionOf(s, i), s.clock, amount, held);
  }

  lemma RedeemAtPosition(p: Position, now: int, amount: u64, held: nat)
    requires EntryOk(p.vesting, now) && p.vesting.balance - p.vesting.whitelistOwned <= p.vault
    requires p.vesting.claimed ==> p.vesting.balance <= p.receipts
    ensures var v, r, total := p.vesting, Redeem(p, now, amount, held), TotalVested(p.vesting, now);
            var allowed := && v.claimed && total.Some? && amount <= total.value - (v.startBalance - v.balance)
                           && amount <= v.balance - v.whitelistOwned && amount <= held;
            && (r.Done? <==> allowed)
            && (r.Done? ==>
                  r.value == Position(v.(balance := v.balance - amount), p.receipts - amount, p.vault - amount))
  {
    AvailableMeaning(p.vesting, now);
    hide TotalVested, AvailableForWithdrawal, Accepted, VestedSoFar;
  }

  /** The whole approved amount counts as whitelist-owned, and the vault changes by what the relayed call did. */
  lemma WhitelistWithdrawEffect(s: Safe, i: nat, amount: u64, whitelisted: bool, relayed: int)
    requires i < |s.entries| && EntryOk(s.entries[i].vesting, s.clock)
    ensures var v, supply := s.entries[i].vesting, Supply(s, s.entries[i].mint);
            var t := Execute(s, WithdrawAction(i, amount, whitelisted, relayed));
            var allowed := && v.claimed && amount <= v.balance - v.whitelistOwned && whitelisted
                           && 0 <= amount + relayed && FitsU64(s.vault + relayed);
            if allowed then Changes(s, i, v.(whitelistOwned := v.whitelistOwned + amount), supply, s.vault + relayed, t)
            else t == s
  {
    AvailableMeaning(s.entries[i].vesting, s.clock);
    hide TotalVested, AvailableForWhitelist;
  }

  /** What the relayed call returned is no longer whitelist-owned. */
  lemma WhitelistDepositEffect(s: Safe, i: nat, whitelisted: bool, relayed: int)
    requires i < |s.entries|
    ensures var v, supply := s.entries[i].vesting, Supply(s, s.entries[i].mint);
            var t := Execute(s, DepositAction(i, whitelisted, relayed));
            var allowed := v.claimed && whitelisted && FitsU64(s.vault + relayed) && 0 < relayed <= v.whitelistOwned;
            if allowed then Changes(s, i, v.(whitelistOwned := v.whitelistOwned - relayed), supply, s.vault + relayed,
                t)
            else t == s
  {
  }

  // ----- the schedule over time -----

  ghost predicate SameTerms(e: Entry, f: Entry) {
    && f.mint == e.mint && f.vesting.startBalance == e.vesting.startBalance
        && f.vesting.startSlot == e.vesting.startSlot
    && f.vesting.endSlot == e.vesting.endSlot && f.vesting.periodCount == e.vesting.periodCount
  }

  lemma TermsKept(s: Safe, act: Action, i: nat)
    requires i < |s.entries|
    ensures i < |Execute(s, act).entries| && SameTerms(s.entries[i], Execute(s, act).entries[i])
    ensures s.clock <= Execute(s, act).clock
  {
    hide AvailableForWithdrawal, AvailableForWhitelist;
  }

  /** Deposit, start, end, periods and mint of an account never change. */
  lemma {:induction false} TermsForGood(history: seq<Action>, later: seq<Action>, i: nat)
    requires history <= later && i < |Reach(history).entries|
    ensures i < |Reach(later).entries| && SameTerms(Reach(history).entries[i], Reach(later).entries[i])
    ensures Reach(history).clock <= Reach(later).clock
    decreases |later|
  {
    hide Execute;
    if |later| == |history| {
      assert later == history;
    } else {
      var n := |later| - 1;
      assert history <= later[..n];
      TermsForGood(history, later[..n], i);
      TermsKept(Reach(later[..n]), later[n], i);
    }
  }

  /**
   For good, what has been redeemed of an account and what is available never exceed together what the schedule
   with the arguments of its creation gives by then; before the end slot that is `Schedule`.
   */
  lemma RedeemedWithinSchedule(history: seq<Action>, act: Action, later: seq<Action>)
    requires act.CreateAction? && |Reach(history + [act]).entries| > |Reach(history).entries|
    requires history + [act] <= later
    ensures var i, s, terms := |Reach(history).entries|, Reach(later), Opened(act, Reach(history).clock);
            && i < |s.entries|
            && var v := s.entries[i].vesting;
               var available := AvailableForWithdrawal(v, s.clock);
               && s.entries[i].mint == act.mint && v.startBalance == act.deposit && v.balance <= act.deposit
               && Accepted(terms) && Reach(history).clock <= s.clock
               && (s.clock >= act.endSlot && available.Some?
                   ==> act.deposit - v.balance + available.value <= act.deposit)
               && (s.clock < act.endSlot && Vesting.Sound(terms) ==>
                     available.Some? && act.deposit - v.balance + available.value <= Schedule(terms, s.clock))
               && (s.clock < act.endSlot && !Vesting.Sound(terms) ==> available.None? && v.balance == act.deposit)
  {
    var first := Reach(history);
    CreatedEntry(history, act, later);
    hide Reach, EntryOk, TotalVested, AvailableForWithdrawal, Schedule, Accepted;
    WithinTerms(Reach(later).entries[|first.entries|].vesting, Opened(act, first.clock), Reach(later).clock);
  }

  /** The entry that a creation adds keeps the terms of the instruction, and is consistent. */
  lemma CreatedEntry(history: seq<Action>, act: Action, later: seq<Action>)
    requires act.CreateAction? && |Reach(history + [act]).entries| > |Reach(history).entries|
    requires history + [act] <= later
    ensures var i, s, terms := |Reach(history).entries|, Reach(later), Opened(act, Reach(history).clock);
            && i < |s.entries| && s.entries[i].mint == act.mint && Reach(history).clock <= s.clock
            && var v := s.entries[i].vesting;
               EntryOk(v, s.clock) && v.balance <= v.startBalance
               && v == terms.(balance := v.balance, whitelistOwned := v.whitelistOwned, claimed := v.claimed)
  {
    var first := Reach(history);
    assert (history + [act])[..|history|] == history;
    CreateEffect(first, act);
    TermsForGood(history + [act], later, |first.entries|);
    ReachableSafe(later);
    hide Reach;
    assert Reach(later).entries[|first.entries|] in Reach(later).entries;
    hide Execute, Owed, Claimed, Accepted, VestedSoFar;
  }

  lemma WithinTerms(v: Account, terms: Account, now: int)
    requires EntryOk(v, now)
          && v == terms.(balance := v.balance, whitelistOwned := v.whitelistOwned, claimed := v.claimed)
    ensures Accepted(terms)
    ensures var available, redeemed := AvailableForWithdrawal(v, now), terms.startBalance - v.balance;
            && (now >= terms.endSlot && available.Some? ==> redeemed + available.value <= terms.startBalance)
            && (now < terms.endSlot && Vesting.Sound(terms) ==>
                  available.Some? && redeemed + available.value <= Schedule(terms, now))
            && (now < terms.endSlot && !Vesting.Sound(terms) ==> available.None? && redeemed == 0)
  {
    hide LinearUnlock;
    AvailableMeaning(v, now);
    VestedIgnoresBalance(terms, v, now);
    if now < terms.endSlot {
      VestedDefinedIff(terms, now);
      if Vesting.Sound(terms) {
        VestedIsSchedule(terms, now);
      }
    }
    hide AvailableForWithdrawal, Schedule;
  }
}
