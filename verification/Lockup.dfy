/**
 The lockup program (lockup/program/src): one safe whose vault backs all vesting
 accounts.  Each account names a mint for its receipts; several accounts may name
 the same one.  Receipts are tokens that their holders may pass on, so what a
 redemption burns is the balance of the receipt account it is given.  Tokens are
 moved between balances; a relayed call to a whitelisted program is represented
 by its net effect on the vault.
 */
module Lockup {
  import opened Numbers
  import opened Orders
  import opened Vesting

  datatype LockupError =
    | InvalidSlot | InvalidPeriod | InvalidDepositAmount | InvalidMintSupply
    | NotInitialized | AlreadyClaimed | NotYetClaimed
    | InsufficientWithdrawalBalance | InsufficientWhitelistBalance | WhitelistNotFound
    | TokenProgram | Stopped

  datatype Result<+T> = Done(value: T) | Failed(error: LockupError) {
    predicate IsFailure() {
      Failed?
    }

    function PropagateFailure<U>(): Result<U>
      requires Failed?
    {
      Failed(error)
    }

    function Extract(): T
      requires Done?
    {
      value
    }
  }

  /** A vesting account, the supply of its receipt mint and the vault of its safe. */
  datatype Position = Position(vesting: Account, receipts: int, vault: int)

  // ----- the handlers, as functions -----

  function Create(now: int, endSlot: int, periodCount: int, deposit: int, depositorFunds: int, mintSupply: int,
      vault: int)
    : Result<Position>
  {
    if endSlot <= now then Failed(InvalidSlot)
    else if periodCount == 0 then Failed(InvalidPeriod)
    else if deposit == 0 then Failed(InvalidDepositAmount)
    else if mintSupply != 0 then Failed(InvalidMintSupply)
    else if depositorFunds < deposit || vault + deposit >= TWO64 then Failed(TokenProgram)
    else Done(Position(Account(false, deposit, deposit, now, endSlot, periodCount, 0), mintSupply, vault + deposit))
  }

  function Claim(p: Position): Result<Position> {
    if p.vesting.claimed then Failed(AlreadyClaimed)
    else if p.receipts + p.vesting.startBalance >= TWO64 then Failed(TokenProgram)
    else Done(p.(vesting := p.vesting.(claimed := true), receipts := p.receipts + p.vesting.startBalance))
  }

  /** `held` is the balance of the receipt account that is burned from. */
  function Redeem(p: Position, now: int, amount: int, held: int): Result<Position> {
    var available := AvailableForWithdrawal(p.vesting, now);
    if !p.vesting.claimed then Failed(NotYetClaimed)
    else if available.None? then Failed(Stopped)
    else if amount > available.value then Failed(InsufficientWithdrawalBalance)
    else if held < amount || p.receipts < amount || p.vault < amount then Failed(TokenProgram)
    else Done(Position(p.vesting.(balance := Wrap(p.vesting.balance - amount)), p.receipts - amount, p.vault - amount))
  }

  /** `relayed` is what the whitelisted program's call adds to the vault; its delegation is `amount`. */
  function WhitelistWithdraw(p: Position, amount: int, whitelisted: bool, relayed: int): Result<Position> {
    if !p.vesting.claimed then Failed(NotYetClaimed)
    else if amount > AvailableForWhitelist(p.vesting) then Failed(InsufficientWhitelistBalance)
    else if !whitelisted then Failed(WhitelistNotFound)
    else if relayed < -amount || !FitsU64(p.vault + relayed) then Failed(TokenProgram)
    else Done(p.(vesting := p.vesting.(whitelistOwned := Wrap(p.vesting.whitelistOwned + amount)),
        vault := p.vault + relayed))
  }

  function WhitelistDeposit(p: Position, whitelisted: bool, relayed: int): Result<Position> {
    if !p.vesting.claimed then Failed(NotYetClaimed)
    else if !whitelisted then Failed(WhitelistNotFound)
    else if !FitsU64(p.vault + relayed) then Failed(TokenProgram)
    else if relayed <= 0 || relayed > p.vesting.whitelistOwned then Failed(Stopped)
    else Done(p.(vesting := p.vesting.(whitelistOwned := p.vesting.whitelistOwned - relayed),
        vault := p.vault + relayed))
  }

  // ----- the handlers, in place -----

  class TokenAccount {
    var amount: u64
    /** Allowance of the current delegate. */
    var delegatedAmount: u64

    constructor (amount: u64)
      ensures this.amount == amount
    {
      this.amount, delegatedAmount := amount, 0;
    }
  }

  class Mint {
    var supply: u64

    constructor ()
      ensures supply == 0
    {
      supply := 0;
    }
  }

  class VestingAccount {
    var claimed: bool
    var balance: u64
    var startBalance: u64
    var startSlot: u64
    var endSlot: u64
    var periodCount: u64
    var whitelistOwned: u64

    function View(): Account
      reads this
    {
      Account(claimed, balance, startBalance, startSlot, endSlot, periodCount, whitelistOwned)
    }

    ghost function At(mint: Mint, vault: TokenAccount): Position
      reads this, mint, vault
    {
      Position(View(), mint.supply, vault.amount)
    }

    /** create_vesting on a fresh account. */
    method CreateVesting(now: u64, end: u64, periods: u64, deposit: u64, depositorFunds: u64, mint: Mint,
        vault: TokenAccount)
      returns (r: Result<()>)
      modifies this, vault
      ensures var out := Create(now, end, periods, deposit, depositorFunds, mint.supply, old(vault.amount));
              if out.Failed? then r == Failed(out.error) else r == Done(()) && At(mint, vault) == out.value
    {
      if end <= now {
        return Failed(InvalidSlot);
      }
      if periods == 0 {
        return Failed(InvalidPeriod);
      }
      if deposit == 0 {
        return Failed(InvalidDepositAmount);
      }
      if mint.supply != 0 {
        return Failed(InvalidMintSupply);
      }
      claimed := false;
      periodCount := periods;
      startBalance := deposit;
      endSlot := end;
      startSlot := now;
      balance := deposit;
      whitelistOwned := 0;
      if depositorFunds < deposit || vault.amount + deposit >= TWO64 {
        return Failed(TokenProgram);
      }
      vault.amount := vault.amount + deposit;
      return Done(());
    }

    /** claim: mint the receipts, once. */
    method ClaimReceipts(mint: Mint, ghost vault: TokenAccount) returns (r: Result<()>)
      modifies this, mint
      ensures var out := Claim(old(At(mint, vault)));
              if out.Failed? then r == Failed(out.error) else r == Done(()) && At(mint, vault) == out.value
    {
      if claimed {
        return Failed(AlreadyClaimed);
      }
      if mint.supply + startBalance >= TWO64 {
        return Failed(TokenProgram);
      }
      mint.supply := mint.supply + startBalance;
      claimed := true;
      return Done(());
    }

    /** redeem: burn receipts against vested tokens. */
    method RedeemVested(now: u64, amount: u64, held: TokenAccount, mint: Mint, vault: TokenAccount)
        returns (r: Result<()>)
      requires held != vault
      modifies this, mint, vault, held
      ensures var out := Redeem(old(At(mint, vault)), now, amount, old(held.amount));
              if out.Failed? then r == Failed(out.error)
              else r == Done(()) && At(mint, vault) == out.value && held.amount == old(held.amount) - amount
    {
      hide TotalVested;
      if !claimed {
        return Failed(NotYetClaimed);
      }
      var available := AvailableForWithdrawal(View(), now);
      if available.None? {
        return Failed(Stopped);
      }
      if amount > available.value {
        return Failed(InsufficientWithdrawalBalance);
      }
      balance := Wrap(balance - amount);
      if held.amount < amount || mint.supply < amount {
        return Failed(TokenProgram);
      }
      held.amount := held.amount - amount;
      mint.supply := mint.supply - amount;
      if vault.amount < amount {
        return Failed(TokenProgram);
      }
      vault.amount := vault.amount - amount;
      return Done(());
    }

    /** whitelist_withdraw: approve, relay, revoke; the allowance is read after it was revoked. */
    method SendToWhitelist(amount: u64, whitelisted: bool, relayed: int, ghost mint: Mint, vault: TokenAccount)
        returns (r: Result<()>)
      modifies this, vault
      ensures var out := WhitelistWithdraw(old(At(mint, vault)), amount, whitelisted, relayed);
              if out.Failed? then r == Failed(out.error) else r == Done(()) && At(mint, vault) == out.value
    {
      if !claimed {
        return Failed(NotYetClaimed);
      }
      if amount > AvailableForWhitelist(View()) {
        return Failed(InsufficientWhitelistBalance);
      }
      if !whitelisted {
        return Failed(WhitelistNotFound);
      }
      vault.delegatedAmount := amount;
      if relayed + vault.delegatedAmount < 0 || !FitsU64(vault.amount + relayed) {
        return Failed(TokenProgram);
      }
      vault.amount := vault.amount + relayed;
      vault.delegatedAmount := 0;
      var amountTransferred: u64 := amount - vault.delegatedAmount;
      whitelistOwned := Wrap(whitelistOwned + amountTransferred);
      return Done(());
    }

    /** whitelist_deposit: what the relayed call put into the vault is no longer owned by whitelisted programs. */
    method ReturnFromWhitelist(whitelisted: bool, relayed: int, ghost mint: Mint, vault: TokenAccount)
        returns (r: Result<()>)
      modifies this, vault
      ensures var out := WhitelistDeposit(old(At(mint, vault)), whitelisted, relayed);
              if out.Failed? then r == Failed(out.error) else r == Done(()) && At(mint, vault) == out.value
    {
      if !claimed {
        return Failed(NotYetClaimed);
      }
      if !whitelisted {
        return Failed(WhitelistNotFound);
      }
      var beforeAmount := vault.amount;
      if !FitsU64(vault.amount + relayed) {
        return Failed(TokenProgram);
      }
      vault.amount := vault.amount + relayed;
      if vault.amount <= beforeAmount {
        return Failed(Stopped);
      }
      var depositAmount: u64 := vault.amount - beforeAmount;
      if depositAmount > whitelistOwned {
        return Failed(Stopped);
      }
      whitelistOwned := whitelistOwned - depositAmount;
      return Done(());
    }
  }

  // ----- the safe over time -----

  /** A vesting account and the number of its receipt mint. */
  datatype Entry = Entry(vesting: Account, mint: nat)

  /** A mint that is not listed has no supply. */
  datatype Safe = Safe(entries: seq<Entry>, supplies: map<nat, int>, vault: int, clock: nat)

  datatype Action =
    | Tick(slots: nat)
    | CreateAction(endSlot: u64, periodCount: u64, deposit: u64, depositorFunds: u64, mint: nat)
    | ClaimAction(i: nat)
    | RedeemAction(i: nat, amount: u64, held: nat)
    | WithdrawAction(i: nat, amount: u64, whitelisted: bool, relayed: int)
    | DepositAction(i: nat, whitelisted: bool, relayed: int)

  function Supply(s: Safe, mint: nat): int {
    if mint in s.supplies then s.supplies[mint] else 0
  }

  function PositionOf(s: Safe, i: nat): Position
    requires i < |s.entries|
  {
    Position(s.entries[i].vesting, Supply(s, s.entries[i].mint), s.vault)
  }

  function WithPosition(s: Safe, i: nat, p: Position): Safe
    requires i < |s.entries|
  {
    var mint := s.entries[i].mint;
    s.(entries := s.entries[i := Entry(p.vesting, mint)], supplies := s.supplies[mint := p.receipts], vault := p.vault)
  }

  function Handle(s: Safe, act: Action): Result<Position>
    requires !act.Tick? && !act.CreateAction? && act.i < |s.entries|
  {
    var p := PositionOf(s, act.i);
    match act
    case ClaimAction(_) => Claim(p)
    case RedeemAction(_, amount, held) => Redeem(p, s.clock, amount, held)
    case WithdrawAction(_, amount, whitelisted, relayed) => WhitelistWithdraw(p, amount, whitelisted, relayed)
    case DepositAction(_, whitelisted, relayed) => WhitelistDeposit(p, whitelisted, relayed)
  }

  /** A failed instruction changes nothing; the clock never runs backwards. */
  function Execute(s: Safe, act: Action): Safe {
    if act.Tick? then s.(clock := s.clock + act.slots)
    else if act.CreateAction? then
      var r := Create(s.clock, act.endSlot, act.periodCount, act.deposit, act.depositorFunds, Supply(s, act.mint),
          s.vault);
      if r.Failed? then s else s.(entries := s.entries + [Entry(r.value.vesting, act.mint)], vault := r.value.vault)
    else if act.i >= |s.entries| then s
    else
      var r := Handle(s, act);
      if r.Failed? then s else WithPosition(s, act.i, r.value)
  }

  function Reach(history: seq<Action>): Safe {
    if history == [] then Safe([], map[], 0, 0)
    else Execute(Reach(history[..|history| - 1]), history[|history| - 1])
  }

  /** What the vault must still hold for the accounts. */
  function Owed(s: seq<Entry>): int {
    if s == [] then 0
    else Owed(s[..|s| - 1]) + s[|s| - 1].vesting.balance - s[|s| - 1].vesting.whitelistOwned
  }

  /** Balance that an account has turned into receipts of the given mint. */
  function ClaimedOf(e: Entry, mint: nat): int {
    if e.mint == mint && e.vesting.claimed then e.vesting.balance else 0
  }

  function Claimed(s: seq<Entry>, mint: nat): int {
    if s == [] then 0 else Claimed(s[..|s| - 1], mint) + ClaimedOf(s[|s| - 1], mint)
  }

  ghost predicate EntryOk(v: Account, now: int) {
    && Accepted(v) && v.startSlot <= now
    && 0 <= v.whitelistOwned <= v.balance <= v.startBalance
    && v.startBalance - v.balance <= VestedSoFar(v, now)
    && (!v.claimed ==> v.balance == v.startBalance && v.whitelistOwned == 0)
  }

  /**
   No subtraction of the program underflows, receipts match the claimed balances, and the vault covers every
   account.
   */
  ghost predicate SafeInv(s: Safe) {
    && (forall e :: e in s.entries ==> EntryOk(e.vesting, s.clock))
    && (forall m: nat :: Supply(s, m) == Claimed(s.entries, m))
    && Owed(s.entries) <= s.vault && FitsU64(s.vault)
  }

  lemma {:induction false} OwedUpdate(s: seq<Entry>, i: nat, e: Entry)
    requires i < |s|
    ensures Owed(s[i := e]) == Owed(s) - (s[i].vesting.balance - s[i].vesting.whitelistOwned)
                             + (e.vesting.balance - e.vesting.whitelistOwned)
  {
    var n := |s| - 1;
    if i == n {
      assert s[i := e][..n] == s[..n];
    } else {
      assert s[i := e][..n] == s[..n][i := e];
      OwedUpdate(s[..n], i, e);
    }
  }

  lemma {:induction false} ClaimedUpdate(s: seq<Entry>, i: nat, e: Entry, mint: nat)
    requires i < |s|
    ensures Claimed(s[i := e], mint) == Claimed(s, mint) - ClaimedOf(s[i], mint) + ClaimedOf(e, mint)
  {
    var n := |s| - 1;
    if i == n {
      assert s[i := e][..n] == s[..n];
    } else {
      assert s[i := e][..n] == s[..n][i := e];
      ClaimedUpdate(s[..n], i, e, mint);
    }
  }

  lemma {:induction false} OwedCovers(s: seq<Entry>, now: int)
    requires forall e :: e in s ==> EntryOk(e.vesting, now)
    ensures 0 <= Owed(s)
    ensures forall e :: e in s ==> e.vesting.balance - e.vesting.whitelistOwned <= Owed(s)
  {
    hide Accepted, VestedSoFar;
    if s != [] {
      var n := |s| - 1;
      assert s[n] in s;
      assert forall e :: e in s ==> e == s[n] || e in s[..n];
      OwedCovers(s[..n], now);
    }
  }

  lemma {:induction false} ClaimedCovers(s: seq<Entry>, now: int, mint: nat)
    requires forall e :: e in s ==> EntryOk(e.vesting, now)
    ensures 0 <= Claimed(s, mint)
    ensures forall e :: e in s ==> ClaimedOf(e, mint) <= Claimed(s, mint)
  {
    hide Accepted, VestedSoFar;
    if s != [] {
      var n := |s| - 1;
      assert s[n] in s;
      assert forall e :: e in s ==> e == s[n] || e in s[..n];
      ClaimedCovers(s[..n], now, mint);
    }
  }

  lemma EntryLater(v: Account, now: int, later: int)
    requires EntryOk(v, now) && now <= later
    ensures EntryOk(v, later)
  {
    if TotalVested(v, now).Some? {
      VestedMonotone(v, now, later);
    } else if TotalVested(v, later).Some? {
      VestedBounded(v, later);
    }
  }

  /** On a consistent account the unchecked subtractions are exact. */
  lemma AvailableMeaning(v: Account, now: int)
    requires EntryOk(v, now)
    ensures AvailableForWhitelist(v) == v.balance - v.whitelistOwned
    ensures AvailableForWithdrawal(v, now).Some? <==> TotalVested(v, now).Some?
    ensures TotalVested(v, now).Some? ==>
              AvailableForWithdrawal(v, now).value
              == Min(TotalVested(v, now).value - (v.startBalance - v.balance), v.balance - v.whitelistOwned)
  {
    if TotalVested(v, now).Some? {
      VestedBounded(v, now);
    }
    hide TotalVested;
  }

  /** Balances do not matter to the schedule. */
  lemma SameSchedule(v: Account, w: Account, now: int)
    requires w == v.(balance := w.balance, whitelistOwned := w.whitelistOwned, claimed := w.claimed)
    ensures Accepted(v) ==> Accepted(w)
    ensures VestedSoFar(w, now) == VestedSoFar(v, now)
  {
    VestedIgnoresBalance(v, w, now);
    hide TotalVested;
  }

  lemma VestedIgnoresBalance(v: Account, w: Account, now: int)
    requires w == v.(balance := w.balance, whitelistOwned := w.whitelistOwned, claimed := w.claimed)
    ensures TotalVested(w, now) == TotalVested(v, now)
  {
  }

  /** Each handler moves vault and receipts with the account. */
  lemma HandleKeeps(s: Safe, act: Action)
    requires SafeInv(s) && !act.Tick? && !act.CreateAction? && act.i < |s.entries| && Handle(s, act).Done?
    ensures var p, e := Handle(s, act).value, s.entries[act.i];
            && EntryOk(p.vesting, s.clock) && FitsU64(p.vault)
            && p.vault - s.vault >= (p.vesting.balance - p.vesting.whitelistOwned)
                                  - (e.vesting.balance - e.vesting.whitelistOwned)
            && p.receipts - Supply(s, e.mint) == ClaimedOf(Entry(p.vesting, e.mint), e.mint) - ClaimedOf(e, e.mint)
  {
    var e, p := s.entries[act.i], Handle(s, act).value;
    assert e in s.entries && EntryOk(e.vesting, s.clock);
    SameSchedule(e.vesting, p.vesting, s.clock);
    AvailableMeaning(e.vesting, s.clock);
    hide TotalVested, AvailableForWithdrawal, AvailableForWhitelist, Owed, Claimed;
  }

  lemma ExecuteKeeps(s: Safe, act: Action)
    requires SafeInv(s)
    ensures SafeInv(Execute(s, act))
  {
    if act.Tick? {
      forall e | e in s.entries ensures EntryOk(e.vesting, s.clock + act.slots) {
        EntryLater(e.vesting, s.clock, s.clock + act.slots);
      }
    } else if act.CreateAction? {
      CreateKeeps(s, act);
    } else if act.i < |s.entries| && Handle(s, act).Done? {
      HandledKeeps(s, act);
    }
  }

  lemma HandledKeeps(s: Safe, act: Action)
    requires SafeInv(s) && !act.Tick? && !act.CreateAction? && act.i < |s.entries| && Handle(s, act).Done?
    ensures SafeInv(WithPosition(s, act.i, Handle(s, act).value))
  {
    var p, mint := Handle(s, act).value, s.entries[act.i].mint;
    HandleKeeps(s, act);
    var e := Entry(p.vesting, mint);
    var t := WithPosition(s, act.i, p);
    OwedUpdate(s.entries, act.i, e);
    hide EntryOk, Handle, Owed, Claimed;
    forall m: nat ensures Supply(t, m) == Claimed(t.entries, m) {
      ClaimedUpdate(s.entries, act.i, e, m);
    }
  }

  lemma CreateKeeps(s: Safe, act: Action)
    requires SafeInv(s) && act.CreateAction?
    ensures SafeInv(Execute(s, act))
  {
    var r := Create(s.clock, act.endSlot, act.periodCount, act.deposit, act.depositorFunds, Supply(s, act.mint),
        s.vault);
    if r.Done? {
      var t := Execute(s, act);
      assert t.entries[..|s.entries|] == s.entries;
      FreshVested(r.value.vesting, s.clock);
    }
  }

  lemma FreshVested(v: Account, now: int)
    requires Accepted(v)
    ensures 0 <= VestedSoFar(v, now)
  {
    if TotalVested(v, now).Some? {
      VestedBounded(v, now);
    }
  }

  /** In every reachable state of the safe the balances are consistent and backed by the vault. */
  lemma {:induction false} ReachableSafe(history: seq<Action>)
    ensures SafeInv(Reach(history))
  {
    hide SafeInv, Execute;
    if history == [] {
      EmptySafe();
    } else {
      ReachableSafe(history[..|history| - 1]);
      ExecuteKeeps(Reach(history[..|history| - 1]), history[|history| - 1]);
    }
  }

  lemma EmptySafe()
    ensures SafeInv(Safe([], map[], 0, 0))
  {
  }

  /** Receipts of a mint that only one account names are that account's balance, once claimed. */
  lemma OwnMint(history: seq<Action>, i: nat)
    requires i < |Reach(history).entries|
    requires forall j :: 0 <= j < |Reach(history).entries| && j != i ==>
               Reach(history).entries[j].mint != Reach(history).entries[i].mint
    ensures var s := Reach(history);
            Supply(s, s.entries[i].mint) == if s.entries[i].vesting.claimed then s.entries[i].vesting.balance else 0
  {
    ReachableSafe(history);
    hide Reach;
    OnlyClaim(Reach(history).entries, i);
  }

  lemma {:induction false} OnlyClaim(s: seq<Entry>, i: nat)
    requires i < |s| && forall j :: 0 <= j < |s| && j != i ==> s[j].mint != s[i].mint
    ensures Claimed(s, s[i].mint) == ClaimedOf(s[i], s[i].mint)
  {
    var n := |s| - 1;
    if i == n {
      NoClaim(s[..n], s[i].mint);
    } else {
      OnlyClaim(s[..n], i);
    }
  }

  lemma {:induction false} NoClaim(s: seq<Entry>, mint: nat)
    requires forall e :: e in s ==> e.mint != mint
    ensures Claimed(s, mint) == 0
  {
    if s != [] {
      assert s[|s| - 1] in s;
      NoClaim(s[..|s| - 1], mint);
    }
  }

  /**
   In every reachable state the amount available for withdrawal is defined exactly when the clock has
   reached the end or the schedule is sound; and a redemption succeeds if and only if the available amount
   and the receipt account cover it: the supply of the mint and the vault always suffice.
   */
  lemma RedemptionHonoured(history: seq<Action>, i: nat, amount: u64, held: nat)
    requires i < |Reach(history).entries| && Reach(history).entries[i].vesting.claimed
    ensures var s := Reach(history);
            var v := s.entries[i].vesting;
            var available := AvailableForWithdrawal(v, s.clock);
            && (available.Some? <==> s.clock >= v.endSlot || Sound(v))
            && (available.Some? ==> 0 <= available.value <= v.balance)
            && (Redeem(PositionOf(s, i), s.clock, amount, held).Done? <==>
                  available.Some? && amount <= available.value && amount <= held)
  {
    var s := Reach(history);
    ReachableSafe(history);
    hide Reach;
    OwedCovers(s.entries, s.clock);
    var e := s.entries[i];
    ClaimedCovers(s.entries, s.clock, e.mint);
    assert e in s.entries && EntryOk(e.vesting, s.clock);
    if s.clock < e.vesting.endSlot {
      VestedDefinedIff(e.vesting, s.clock);
    }
    AvailableMeaning(e.vesting, s.clock);
    hide Owed, Claimed, LinearUnlock, Sound, AvailableForWithdrawal, AvailableForWhitelist;
  }

  /** After the end slot everything that is not with whitelisted programs can be redeemed. */
  lemma FullyVested(history: seq<Action>, i: nat)
    requires i < |Reach(history).entries|
    requires var s := Reach(history); s.clock >= s.entries[i].vesting.endSlot && s.entries[i].vesting.claimed
    ensures var s := Reach(history);
            var v := s.entries[i].vesting;
            AvailableForWithdrawal(v, s.clock) == Some(v.balance - v.whitelistOwned)
  {
    ReachableSafe(history);
    var s := Reach(history);
    assert s.entries[i] in s.entries && EntryOk(s.entries[i].vesting, s.clock);
    hide Reach, Owed;
    AvailableMeaning(s.entries[i].vesting, s.clock);
  }
}
