/** Per-asset rate limits over windows of block heights. */
module Limits {
  import opened Base
  import opened Text
  import opened Listing

  datatype RateLimit = RateLimit(assetID: string, windowBlocks: U64, maxAmount: int)

  datatype WindowUsage = WindowUsage(assetID: string, windowStart: U64, used: int)

  datatype LimitsState = LimitsState(limits: map<string, RateLimit>, usage: map<string, WindowUsage>)

  datatype LimitsSnapshot = LimitsSnapshot(limits: seq<RateLimit>, usage: seq<WindowUsage>)

  datatype LimitsError = InvalidRateLimit | LimitNotFound | InvalidTransfer | RateLimitExceeded

  predicate ValidLimit(l: RateLimit) {
    Trim(l.assetID) != "" && l.windowBlocks != 0 && l.maxAmount > 0
  }

  predicate ValidUsage(u: WindowUsage) {
    Trim(u.assetID) != "" && u.used >= 0
  }

  function CanonicalLimit(l: RateLimit): RateLimit {
    l.(assetID := Trim(l.assetID))
  }

  function CanonicalUsage(u: WindowUsage): WindowUsage {
    u.(assetID := Trim(u.assetID))
  }

  /** `activeUsage`; the end of the window is computed in wrapping uint64 arithmetic. */
  function ActiveUsage(limit: RateLimit, usage: Option<WindowUsage>, height: U64): WindowUsage {
    var u := if usage.None? then WindowUsage(limit.assetID, 0, 0) else CanonicalUsage(usage.value);
    var v := if u.assetID == "" then u.(assetID := limit.assetID) else u;
    if v.windowStart == 0 then v
    else if height >= Add64(v.windowStart, limit.windowBlocks) then WindowUsage(limit.assetID, height, 0)
    else v
  }

  function UsageOf(s: LimitsState, key: string): Option<WindowUsage> {
    if key in s.usage then Some(s.usage[key]) else None
  }

  function CheckTransfer(s: LimitsState, assetID: string, amount: BigInt, height: U64): Option<LimitsError> {
    var key := Trim(assetID);
    if amount.None? || amount.value < 0 then Some(InvalidTransfer)
    else if key !in s.limits then Some(LimitNotFound)
    else if ActiveUsage(s.limits[key], UsageOf(s, key), height).used + amount.value > s.limits[key].maxAmount
      then Some(RateLimitExceeded)
    else None
  }

  function RecordTransfer(s: LimitsState, assetID: string, amount: BigInt, height: U64): LimitsState {
    if CheckTransfer(s, assetID, amount, height).Some? then s
    else
      var key := Trim(assetID);
      var u := ActiveUsage(s.limits[key], UsageOf(s, key), height);
      var start := if u.windowStart == 0 then height else u.windowStart;
      s.(usage := s.usage[key := CanonicalUsage(WindowUsage(s.limits[key].assetID, start, u.used + amount.value))])
  }

  function PutLimit(s: LimitsState, limit: RateLimit): LimitsState {
    if ValidLimit(limit) then s.(limits := s.limits[Trim(limit.assetID) := CanonicalLimit(limit)]) else s
  }

  /** Entries are stored valid, canonical and under their own key. */
  ghost predicate LimitsInv(s: LimitsState) {
    && (forall k | k in s.limits :: ValidLimit(s.limits[k]) && s.limits[k].assetID == k && Trim(k) == k)
    && (forall k | k in s.usage :: ValidUsage(s.usage[k]) && s.usage[k].assetID == k && Trim(k) == k)
  }

  lemma RecordKeepsInv(s: LimitsState, assetID: string, amount: BigInt, height: U64)
    requires LimitsInv(s)
    ensures LimitsInv(RecordTransfer(s, assetID, amount, height))
  {
    TrimTwice(assetID);
  }

  lemma SetLimitKeepsInv(s: LimitsState, limit: RateLimit)
    requires LimitsInv(s)
    ensures LimitsInv(PutLimit(s, limit))
  {
    TrimTwice(limit.assetID);
  }

  // ---- what a check and a record mean ---------------------------------------------------------------

  /** The window of the last record has ended; its end is computed in 64 bits. */
  predicate Ended(s: LimitsState, key: string, height: U64)
    requires key in s.limits && key in s.usage
  {
    s.usage[key].windowStart != 0 && height >= (s.usage[key].windowStart + s.limits[key].windowBlocks) % TWO_64
  }

  /** What the window at this height has already let through. */
  function Spent(s: LimitsState, key: string, height: U64): int
    requires key in s.limits
  {
    if key !in s.usage || Ended(s, key, height) then 0 else s.usage[key].used
  }

  /** There is a limit for the asset, and it has room for the amount. */
  predicate Room(s: LimitsState, assetID: string, amount: BigInt, height: U64) {
    && amount.Some? && amount.value >= 0
    && Trim(assetID) in s.limits
    && Spent(s, Trim(assetID), height) + amount.value <= s.limits[Trim(assetID)].maxAmount
  }

  /** A transfer is let through exactly when there is room, and refused for the reason given. */
  lemma CheckExact(s: LimitsState, assetID: string, amount: BigInt, height: U64)
    requires LimitsInv(s)
    ensures CheckTransfer(s, assetID, amount, height).None? <==> Room(s, assetID, amount, height)
    ensures CheckTransfer(s, assetID, amount, height) == Some(InvalidTransfer) <==> amount.None? || amount.value < 0
    ensures CheckTransfer(s, assetID, amount, height) == Some(LimitNotFound) <==>
      amount.Some? && amount.value >= 0 && Trim(assetID) !in s.limits
  {
    hide Trim, ValidLimit, ValidUsage;
    var key := Trim(assetID);
    if key in s.limits && key in s.usage { assert CanonicalUsage(s.usage[key]) == s.usage[key]; }
  }

  /** The state after a record: one more amount in the window of this height, and nothing else. */
  ghost predicate Spends(s: LimitsState, t: LimitsState, assetID: string, amount: int, height: U64)
    requires Trim(assetID) in s.limits
  {
    var key := Trim(assetID);
    && t.limits == s.limits && t.usage.Keys == s.usage.Keys + {key}
    && (forall k | k in s.usage && k != key :: t.usage[k] == s.usage[k])
    && t.usage[key].assetID == key
    && t.usage[key].used == Spent(s, key, height) + amount
    && t.usage[key].windowStart ==
         if key in s.usage && s.usage[key].windowStart != 0 && !Ended(s, key, height) then s.usage[key].windowStart
         else height
  }

  lemma RecordExact(s: LimitsState, assetID: string, amount: BigInt, height: U64)
    requires LimitsInv(s)
    ensures var t := RecordTransfer(s, assetID, amount, height);
      if Room(s, assetID, amount, height) then Spends(s, t, assetID, amount.value, height) else t == s
  {
    CheckExact(s, assetID, amount, height);
    hide Trim, ValidLimit, ValidUsage, CheckTransfer;
    var key := Trim(assetID);
    if key in s.limits { assert CanonicalUsage(WindowUsage(s.limits[key].assetID, 0, 0)).assetID == key; }
    if key in s.limits && key in s.usage { assert CanonicalUsage(s.usage[key]) == s.usage[key]; }
  }

  /** A limit is stored as given under its trimmed asset, if it is one. */
  lemma PutExact(s: LimitsState, limit: RateLimit)
    ensures var t := PutLimit(s, limit);
      var key := Trim(limit.assetID);
      && t.usage == s.usage
      && t.limits == if key != "" && limit.windowBlocks != 0 && limit.maxAmount > 0
                     then s.limits[key := RateLimit(key, limit.windowBlocks, limit.maxAmount)] else s.limits
  {
    hide Trim;
  }

  class LimitsKeeper {
    var limits: map<string, RateLimit>
    var usage: map<string, WindowUsage>

    ghost function State(): LimitsState
      reads this
    {
      LimitsState(limits, usage)
    }

    constructor ()
      ensures State() == LimitsState(map[], map[])
    {
      limits, usage := map[], map[];
    }

    method SetLimit(limit: RateLimit) returns (e: Option<LimitsError>)
      modifies this
      ensures e == if ValidLimit(limit) then None else Some(InvalidRateLimit)
      ensures State() == PutLimit(old(State()), limit)
    {
      if !ValidLimit(limit) {
        return Some(InvalidRateLimit);
      }
      var stored := CanonicalLimit(limit);
      TrimTwice(limit.assetID);
      limits := limits[Trim(stored.assetID) := stored];
      e := None;
    }

    method CheckTransferAtHeight(assetID: string, amount: BigInt, height: U64) returns (e: Option<LimitsError>)
      ensures e == CheckTransfer(State(), assetID, amount, height)
    {
      if amount.None? || amount.value < 0 {
        return Some(InvalidTransfer);
      }
      var key := Trim(assetID);
      if key !in limits {
        return Some(LimitNotFound);
      }
      var current := ActiveUsage(limits[key], if key in usage then Some(usage[key]) else None, height);
      var next := current.used + amount.value;
      if next > limits[key].maxAmount {
        return Some(RateLimitExceeded);
      }
      e := None;
    }

    method RecordTransferAtHeight(assetID: string, amount: BigInt, height: U64) returns (e: Option<LimitsError>)
      modifies this
      ensures e == CheckTransfer(old(State()), assetID, amount, height)
      ensures State() == RecordTransfer(old(State()), assetID, amount, height)
    {
      e := CheckTransferAtHeight(assetID, amount, height);
      if e.Some? {
        return;
      }
      var key := Trim(assetID);
      var limit := limits[key];
      var current := ActiveUsage(limit, if key in usage then Some(usage[key]) else None, height);
      current := current.(assetID := limit.assetID, used := current.used + amount.value);
      if current.windowStart == 0 {
        current := current.(windowStart := height);
      }
      usage := usage[key := CanonicalUsage(current)];
    }

    method ExportState() returns (snap: LimitsSnapshot)
      requires LimitsInv(State())
      ensures SnapshotOf(snap, State())
    {
      var ls := ExportMap(limits, (k: string, l: RateLimit) => CanonicalLimit(l));
      var us := ExportMap(usage, (k: string, u: WindowUsage) => CanonicalUsage(u));
      snap := LimitsSnapshot(ls, us);
    }

    /** Entries up to the first invalid one are taken; a bad limit leaves usage alone. */
    method ImportState(snap: LimitsSnapshot) returns (ok: bool)
      modifies this
      ensures forall s | LimitsInv(s) && SnapshotOf(snap, s) :: ok && State() == s
    {
      var taken: nat;
      limits, taken := ImportList(snap.limits, ValidLimit, LimitKey, CanonicalLimit);
      ok := taken == |snap.limits|;
      assert snap.limits[..|snap.limits|] == snap.limits;
      if ok {
        usage, taken := ImportList(snap.usage, ValidUsage, UsageKey, CanonicalUsage);
        ok := taken == |snap.usage|;
        assert snap.usage[..|snap.usage|] == snap.usage;
      }
      forall s | LimitsInv(s) && SnapshotOf(snap, s) ensures ok && State() == s {
        ImportExport(snap.limits, s.limits, LimitKey, CanonicalLimit);
        ImportExport(snap.usage, s.usage, UsageKey, CanonicalUsage);
      }
    }
  }

  function LimitKey(l: RateLimit): string { Trim(l.assetID) }

  function UsageKey(u: WindowUsage): string { Trim(u.assetID) }

  ghost predicate SnapshotOf(snap: LimitsSnapshot, s: LimitsState) {
    && Lists(snap.limits, s.limits, LimitKey, CanonicalLimit)
    && Lists(snap.usage, s.usage, UsageKey, CanonicalUsage)
    && (forall l | l in snap.limits :: ValidLimit(l))
    && (forall u | u in snap.usage :: ValidUsage(u))
  }

  // ---- what the limiter guarantees over a run --------------------------------------

  datatype Attempt = Attempt(assetID: string, amount: BigInt, height: U64)

  /** An accepted transfer of the asset stored under some key. */
  datatype Transfer = Transfer(height: U64, amount: int)

  /** State after a run of attempts; refused attempts change nothing. */
  function RunState(s: LimitsState, run: seq<Attempt>): LimitsState {
    if run == [] then s
    else
      var a := run[|run| - 1];
      RecordTransfer(RunState(s, run[..|run| - 1]), a.assetID, a.amount, a.height)
  }

  /** The transfer one attempt adds for `key`, if any. */
  function Accepted(before: LimitsState, a: Attempt, key: string): seq<Transfer> {
    if Trim(a.assetID) == key && CheckTransfer(before, a.assetID, a.amount, a.height).None?
    then [Transfer(a.height, a.amount.value)] else []
  }

  /** The transfers accepted for `key` along a run, oldest first. */
  function AcceptedLog(s: LimitsState, run: seq<Attempt>, key: string): seq<Transfer> {
    if run == [] then []
    else
      var front := run[..|run| - 1];
      AcceptedLog(s, front, key) + Accepted(RunState(s, front), run[|run| - 1], key)
  }

  function Total(log: seq<Transfer>): int {
    if log == [] then 0 else Total(log[..|log| - 1]) + log[|log| - 1].amount
  }

  /** What was transferred at heights `from <= h < from + blocks`. */
  function TotalIn(log: seq<Transfer>, from: nat, blocks: nat): int {
    if log == [] then 0
    else
      var t := log[|log| - 1];
      var rest := TotalIn(log[..|log| - 1], from, blocks);
      if from <= t.height < from + blocks then rest + t.amount else rest
  }

  ghost predicate NonDecreasing(run: seq<Attempt>) {
    forall i, j | 0 <= i < j < |run| :: run[i].height <= run[j].height
  }

  ghost predicate NoOverflow(run: seq<Attempt>, limit: RateLimit) {
    forall i | 0 <= i < |run| :: run[i].height + limit.windowBlocks < TWO_64
  }

  lemma {:induction false} TotalInSplit(log: seq<Transfer>, k: nat, from: nat, blocks: nat)
    requires k <= |log|
    ensures TotalIn(log, from, blocks) == TotalIn(log[..k], from, blocks) + TotalIn(log[k..], from, blocks)
  {
    if k == |log| {
      assert log[..k] == log && log[k..] == [];
    } else {
      var n := |log| - 1;
      TotalInSplit(log[..n], k, from, blocks);
      assert log[..n][..k] == log[..k] && log[..n][k..] == log[k..][..n - k];
    }
  }

  lemma {:induction false} TotalInBounds(log: seq<Transfer>, from: nat, blocks: nat)
    requires forall i | 0 <= i < |log| :: log[i].amount >= 0
    ensures 0 <= TotalIn(log, from, blocks) <= Total(log)
    ensures (forall i | 0 <= i < |log| :: log[i].height < from) ==> TotalIn(log, from, blocks) == 0
  {
    if log != [] {
      TotalInBounds(log[..|log| - 1], from, blocks);
    }
  }

  /** From `k` on the log is the window anchored at `start`, with what height 0 carried over, and sums to `used`. */
  ghost predicate CurrentWindow(log: seq<Transfer>, k: nat, start: nat, used: int) {
    && k <= |log|
    && Total(log[k..]) == used
    && (forall i | 0 <= i < k :: log[i].height < start)
    && (forall i | k <= i < |log| :: start <= log[i].height || log[i].height == 0)
  }

  /**
    The log falls into a past that is out of reach, the previous anchored window and the
    current one; `p` and `k` mark the cuts.
   */
  ghost predicate WindowInv(limit: RateLimit, usage: Option<WindowUsage>, log: seq<Transfer>, last: U64, p: nat,
    k: nat) {
    var start := if usage.None? then 0 else usage.value.windowStart;
    var used := if usage.None? then 0 else usage.value.used;
    && p <= k <= |log|
    && start <= last
    && (forall i | 0 <= i < |log| :: log[i].amount >= 0 && log[i].height <= last)
    && (start == 0 ==> k == 0 && forall i | 0 <= i < |log| :: log[i].height == 0)
    && (start != 0 ==> forall i | 0 <= i < |log| :: log[i].height < start + limit.windowBlocks)
    && (k > 0 ==> start > limit.windowBlocks)
    && CurrentWindow(log, k, start, used)
    && used <= limit.maxAmount
    && Total(log[p..k]) <= limit.maxAmount
    && (forall i | 0 <= i < p :: log[i].height + limit.windowBlocks <= start)
  }

  ghost predicate Bounded(limit: RateLimit, log: seq<Transfer>) {
    forall from: nat :: TotalIn(log, from, limit.windowBlocks) <= 2 * limit.maxAmount
  }

  lemma TotalAppend(log: seq<Transfer>, t: Transfer)
    ensures Total(log + [t]) == Total(log) + t.amount
  {
    assert (log + [t])[..|log|] == log;
  }

  /** An interval that reaches the newest transfer meets only the last two anchored windows. */
  lemma TwoWindows(log: seq<Transfer>, p: nat, k: nat, from: nat, w: nat, max: int)
    requires p <= k <= |log|
    requires forall i | 0 <= i < |log| :: log[i].amount >= 0
    requires forall i | 0 <= i < p :: log[i].height < from
    requires Total(log[p..k]) <= max && Total(log[k..]) <= max
    ensures TotalIn(log, from, w) <= 2 * max
  {
    TotalInSplit(log, k, from, w);
    TotalInSplit(log[..k], p, from, w);
    assert log[..k][..p] == log[..p] && log[..k][p..] == log[p..k];
    TotalInBounds(log[..p], from, w);
    TotalInBounds(log[p..k], from, w);
    TotalInBounds(log[k..], from, w);
  }

  /** One accepted transfer keeps the window structure. */
  lemma RecordKeepsWindows(limit: RateLimit, usage: Option<WindowUsage>, log: seq<Transfer>, last: U64, p: nat, k: nat,
                           amount: int, height: U64) returns (p': nat, k': nat)
    requires ValidLimit(limit) && WindowInv(limit, usage, log, last, p, k)
    requires last <= height && height + limit.windowBlocks < TWO_64 && amount >= 0
    requires ActiveUsage(limit, usage, height).used + amount <= limit.maxAmount
    ensures var u := ActiveUsage(limit, usage, height);
      var start := if u.windowStart == 0 then height else u.windowStart;
      WindowInv(limit, Some(WindowUsage(limit.assetID, start, u.used + amount)), log + [Transfer(height, amount)],
        height, p', k')
    ensures p' <= k' <= |log|
    ensures forall i | 0 <= i < p' :: log[i].height + limit.windowBlocks <= height
  {
    hide Trim, Total, WindowInv;
    var start := if usage.None? then 0 else usage.value.windowStart;
    if start != 0 && height >= start + limit.windowBlocks {
      p', k' := k, |log|;
      WindowExpires(limit, usage, log, last, p, k, amount, height);
    } else {
      p', k' := p, k;
      WindowGoesOn(limit, usage, log, last, p, k, amount, height);
    }
  }

  /** The window has expired: the record starts another, and everything before is past. */
  lemma WindowExpires(limit: RateLimit, usage: Option<WindowUsage>, log: seq<Transfer>, last: U64, p: nat, k: nat,
                      amount: int, height: U64)
    requires ValidLimit(limit) && WindowInv(limit, usage, log, last, p, k)
    requires last <= height && height + limit.windowBlocks < TWO_64 && amount >= 0 && amount <= limit.maxAmount
    requires usage.Some? && usage.value.windowStart != 0 && height >= usage.value.windowStart + limit.windowBlocks
    ensures WindowInv(limit, Some(WindowUsage(limit.assetID, height, amount)), log + [Transfer(height, amount)], height,
                      k, |log|)
    ensures k <= |log| && forall i | 0 <= i < k :: log[i].height + limit.windowBlocks <= height
  {
    hide Trim, Total;
    var t := Transfer(height, amount);
    var log' := log + [t];
    assert forall i | 0 <= i < |log| :: log'[i] == log[i];
    assert log'[|log|..] == [t] && log'[k..|log|] == log[k..];
    TotalOne(t);
  }

  /** The window is active, or the first one: the record adds to it. */
  lemma WindowGoesOn(limit: RateLimit, usage: Option<WindowUsage>, log: seq<Transfer>, last: U64, p: nat, k: nat,
                     amount: int, height: U64)
    requires ValidLimit(limit) && WindowInv(limit, usage, log, last, p, k)
    requires last <= height && height + limit.windowBlocks < TWO_64 && amount >= 0
    requires usage.Some? && usage.value.windowStart != 0 ==> height < usage.value.windowStart + limit.windowBlocks
    requires ActiveUsage(limit, usage, height).used + amount <= limit.maxAmount
    ensures var u := ActiveUsage(limit, usage, height);
      var start := if u.windowStart == 0 then height else u.windowStart;
      WindowInv(limit, Some(WindowUsage(limit.assetID, start, u.used + amount)), log + [Transfer(height, amount)],
        height, p, k)
    ensures p <= k <= |log| && forall i | 0 <= i < p :: log[i].height + limit.windowBlocks <= height
  {
    hide Trim, Total;
    var t := Transfer(height, amount);
    var log' := log + [t];
    assert forall i | 0 <= i < |log| :: log'[i] == log[i];
    TotalAppend(log[k..], t);
    assert log'[k..] == log[k..] + [t] && log'[p..k] == log[p..k];
  }

  lemma TotalOne(t: Transfer)
    ensures Total([t]) == t.amount
  {
    assert [t][..0] == [];
  }

  /** An interval either misses the newest transfer or reaches back no further than two windows. */
  lemma RecordKeepsBound(limit: RateLimit, log: seq<Transfer>, t: Transfer, p: nat, k: nat)
    requires ValidLimit(limit) && Bounded(limit, log) && p <= k <= |log|
    requires forall i | 0 <= i < |log| :: log[i].amount >= 0
    requires t.amount >= 0 && Total((log + [t])[p..k]) <= limit.maxAmount && Total((log + [t])[k..]) <= limit.maxAmount
    requires forall i | 0 <= i < p :: log[i].height + limit.windowBlocks <= t.height
    ensures Bounded(limit, log + [t])
  {
    var w := limit.windowBlocks;
    var log' := log + [t];
    assert log'[..|log|] == log;
    forall from: nat ensures TotalIn(log', from, w) <= 2 * limit.maxAmount {
      if from <= t.height < from + w {
        TwoWindows(log', p, k, from, w, limit.maxAmount);
      }
    }
  }

  /** What every attempt keeps for one asset with a limit, whichever asset the attempt is for. */
  lemma AttemptKeepsWindows(s: LimitsState, a: Attempt, key: string, log: seq<Transfer>, last: U64, p: nat, k: nat)
    returns (last': U64, p': nat, k': nat)
    requires LimitsInv(s) && key in s.limits
    requires WindowInv(s.limits[key], UsageOf(s, key), log, last, p, k) && Bounded(s.limits[key], log)
    requires last <= a.height && a.height + s.limits[key].windowBlocks < TWO_64
    ensures var s' := RecordTransfer(s, a.assetID, a.amount, a.height);
      && s'.limits == s.limits
      && WindowInv(s.limits[key], UsageOf(s', key), log + Accepted(s, a, key), last', p', k')
    ensures Bounded(s.limits[key], log + Accepted(s, a, key))
    ensures last' <= a.height
  {
    hide Trim, ActiveUsage, Bounded, Total, TotalIn;
    if Accepted(s, a, key) == [] {
      assert log + [] == log;
      last', p', k' := last, p, k;
    } else {
      last' := a.height;
      p', k' := RecordKeepsWindows(s.limits[key], UsageOf(s, key), log, last, p, k, a.amount.value, a.height);
      RecordKeepsBound(s.limits[key], log, Transfer(a.height, a.amount.value), p', k');
    }
  }

  lemma {:induction false} RunWindows(s: LimitsState, run: seq<Attempt>, key: string)
    returns (last: U64, p: nat, k: nat)
    requires LimitsInv(s) && key in s.limits && key !in s.usage
    requires NonDecreasing(run) && NoOverflow(run, s.limits[key])
    ensures LimitsInv(RunState(s, run)) && RunState(s, run).limits == s.limits
    ensures WindowInv(s.limits[key], UsageOf(RunState(s, run), key), AcceptedLog(s, run, key), last, p, k)
    ensures Bounded(s.limits[key], AcceptedLog(s, run, key))
    ensures last == 0 || (run != [] && last <= run[|run| - 1].height)
  {
    hide Trim, RecordTransfer, Accepted;
    last, p, k := 0, 0, 0;
    if run != [] {
      var front := run[..|run| - 1];
      var a := run[|run| - 1];
      last, p, k := RunWindows(s, front, key);
      assert front != [] ==> front[|front| - 1].height <= a.height;
      RecordKeepsInv(RunState(s, front), a.assetID, a.amount, a.height);
      last, p, k := AttemptKeepsWindows(RunState(s, front), a, key, AcceptedLog(s, front, key), last, p, k);
    }
  }

  /**
    Over any run with non-decreasing heights and no uint64 overflow, whatever is interleaved for
    other assets: the transfers recorded since the current window was anchored, with what height 0
    carried over, sum to at most the maximum, and those of any `WindowBlocks` consecutive heights to
    at most twice the maximum. Every prefix of a run is a run, so this speaks of each window in turn.
   */
  lemma SlidingBound(s: LimitsState, run: seq<Attempt>, key: string, from: nat)
    requires LimitsInv(s) && key in s.limits && key !in s.usage
    requires NonDecreasing(run) && NoOverflow(run, s.limits[key])
    ensures var limit := s.limits[key];
      && (key in RunState(s, run).usage ==>
            var u := RunState(s, run).usage[key];
            0 <= u.used <= limit.maxAmount && exists k: nat ::
              CurrentWindow(AcceptedLog(s, run, key), k, u.windowStart, u.used))
      && TotalIn(AcceptedLog(s, run, key), from, limit.windowBlocks) <= 2 * limit.maxAmount
  {
    var last, p, k := RunWindows(s, run, key);
  }

  lemma RunOne(s: LimitsState, front: seq<Attempt>, a: Attempt, key: string)
    ensures RunState(s, front + [a]) == RecordTransfer(RunState(s, front), a.assetID, a.amount, a.height)
    ensures AcceptedLog(s, front + [a], key) == AcceptedLog(s, front, key) + Accepted(RunState(s, front), a, key)
  {
    assert (front + [a])[..|front|] == front;
  }

  lemma RunNone(s: LimitsState, key: string)
    ensures RunState(s, []) == s && AcceptedLog(s, [], key) == []
  {
  }

  /** Three attempts and the transfers they add, one at a time. */
  lemma RunThree(s: LimitsState, a: Attempt, b: Attempt, c: Attempt, key: string)
    returns (s1: LimitsState, s2: LimitsState)
    ensures s1 == RecordTransfer(s, a.assetID, a.amount, a.height)
    ensures s2 == RecordTransfer(s1, b.assetID, b.amount, b.height)
    ensures AcceptedLog(s, [a, b, c], key) == Accepted(s, a, key) + Accepted(s1, b, key) + Accepted(s2, c, key)
  {
    hide RecordTransfer, Accepted, RunState, AcceptedLog;
    RunNone(s, key);
    RunOne(s, [], a, key);
    RunOne(s, [a], b, key);
    RunOne(s, [a, b], c, key);
    assert [] + [a] == [a] && [a] + [b] == [a, b] && [a, b] + [c] == [a, b, c];
    s1 := RunState(s, [a]);
    s2 := RunState(s, [a, b]);
  }

  lemma TotalInOne(log: seq<Transfer>, t: Transfer, from: nat, w: nat)
    ensures TotalIn(log + [t], from, w) == TotalIn(log, from, w) + (if from <= t.height < from + w then t.amount else 0)
  {
    assert (log + [t])[..|log|] == log;
  }

  lemma TotalInNone(from: nat, w: nat)
    ensures TotalIn([], from, w) == 0
  {
  }

  lemma TotalInThree(a: Transfer, b: Transfer, c: Transfer, from: nat, w: nat)
    ensures TotalIn([a, b, c], from, w)
      == (if from <= a.height < from + w then a.amount else 0)
       + (if from <= b.height < from + w then b.amount else 0)
       + (if from <= c.height < from + w then c.amount else 0)
  {
    hide TotalIn;
    TotalInNone(from, w);
    TotalInOne([], a, from, w);
    TotalInOne([a], b, from, w);
    TotalInOne([a, b], c, from, w);
    assert [] + [a] == [a] && [a] + [b] == [a, b] && [a, b] + [c] == [a, b, c];
  }

  /** The state once the asset's window is anchored at `start` and has `used` so much. */
  ghost function UsedAt(s: LimitsState, key: string, start: U64, used: int): LimitsState {
    s.(usage := s.usage[key := WindowUsage(key, start, used)])
  }

  lemma RecordUsed(s: LimitsState, key: string, start: U64, used: int, amount: int, h: U64)
    requires LimitsInv(s) && key in s.limits && 0 < start && start + s.limits[key].windowBlocks < TWO_64 && 0 <= amount
    requires (if h >= start + s.limits[key].windowBlocks then 0 else used) + amount <= s.limits[key].maxAmount
    ensures RecordTransfer(UsedAt(s, key, start, used), key, Some(amount), h)
      == if h >= start + s.limits[key].windowBlocks then UsedAt(s, key, h, amount)
        else UsedAt(s, key, start, used + amount)
    ensures Accepted(UsedAt(s, key, start, used), Attempt(key, Some(amount), h), key) == [Transfer(h, amount)]
  {
    hide Trim;
    assert Trim(key) == key && key != "";
  }

  lemma RecordFresh(s: LimitsState, key: string, amount: int, h: U64)
    requires LimitsInv(s) && key in s.limits && key !in s.usage && 0 <= amount <= s.limits[key].maxAmount
    ensures RecordTransfer(s, key, Some(amount), h) == UsedAt(s, key, h, amount)
    ensures Accepted(s, Attempt(key, Some(amount), h), key) == [Transfer(h, amount)]
  {
    hide Trim;
  }

  /** The factor two is reached: the limiter is a tumbling window, not the sliding one its type comment promises. */
  lemma SlidingBoundTight(s: LimitsState, key: string) returns (run: seq<Attempt>)
    requires LimitsInv(s) && key in s.limits && key !in s.usage
    requires 2 <= s.limits[key].windowBlocks && 2 * s.limits[key].windowBlocks < TWO_64
    ensures NonDecreasing(run) && NoOverflow(run, s.limits[key])
    ensures TotalIn(AcceptedLog(s, run, key), s.limits[key].windowBlocks, s.limits[key].windowBlocks)
      == 2 * s.limits[key].maxAmount
  {
    hide Trim, RecordTransfer, Accepted, AcceptedLog, TotalIn, UsedAt;
    var w, max := s.limits[key].windowBlocks, s.limits[key].maxAmount;
    var a0, a1, a2 := Attempt(key, Some(0), 1), Attempt(key, Some(max), w), Attempt(key, Some(max), w + 1);
    run := [a0, a1, a2];
    var s1, s2 := RunThree(s, a0, a1, a2, key);
    RecordFresh(s, key, 0, 1);
    RecordUsed(s, key, 1, 0, max, w);
    RecordUsed(s, key, 1, max, max, w + 1);
    var t0, t1, t2 := Transfer(1, 0), Transfer(w, max), Transfer(w + 1, max);
    assert AcceptedLog(s, run, key) == [t0, t1, t2];
    TotalInThree(t0, t1, t2, w, w);
  }

  /** A window of one block never holds more than the maximum. */
  lemma {:induction false} OneBlockWindows(s: LimitsState, run: seq<Attempt>, key: string, from: nat)
    requires LimitsInv(s) && key in s.limits && key !in s.usage && s.limits[key].windowBlocks == 1
    requires NonDecreasing(run) && NoOverflow(run, s.limits[key])
    ensures TotalIn(AcceptedLog(s, run, key), from, 1) <= s.limits[key].maxAmount
  {
    if run == [] {
      NothingYet(s, key, from);
    } else {
      hide AcceptedLog, TotalIn, Accepted, RunState, WindowInv, Bounded, LimitsInv;
      var front, a := run[..|run| - 1], run[|run| - 1];
      assert run == front + [a];
      OneBlockWindows(s, front, key, from);
      RunOne(s, front, a, key);
      AcceptedIs(RunState(s, front), a, key);
      var log := AcceptedLog(s, front, key);
      if from == a.height {
        var last, p, k := RunWindows(s, run, key);
        SinceAnchor(s.limits[key], UsageOf(RunState(s, run), key), AcceptedLog(s, run, key), last, p, k, from);
      } else if Accepted(RunState(s, front), a, key) == [] {
        assert log + [] == log;
      } else {
        TotalInOne(log, Transfer(a.height, a.amount.value), from, 1);
      }
    }
  }

  lemma NothingYet(s: LimitsState, key: string, from: nat)
    requires LimitsInv(s) && key in s.limits
    ensures TotalIn(AcceptedLog(s, [], key), from, 1) <= s.limits[key].maxAmount
  {
    hide Trim;
  }

  lemma AcceptedIs(before: LimitsState, a: Attempt, key: string)
    ensures Accepted(before, a, key) == []
      || (a.amount.Some? && Accepted(before, a, key) == [Transfer(a.height, a.amount.value)])
  {
  }

  /** From the last height reached on, only the current window counts. */
  lemma SinceAnchor(limit: RateLimit, usage: Option<WindowUsage>, log: seq<Transfer>, last: U64, p: nat, k: nat,
                    from: nat)
    requires WindowInv(limit, usage, log, last, p, k) && last <= from
    ensures TotalIn(log, from, 1) <= limit.maxAmount
  {
    hide Total, TotalIn;
    CurrentAtMost(log, k, from, 1, limit.maxAmount);
  }

  /** Heights from the anchor on belong to the current window. */
  lemma CurrentAtMost(log: seq<Transfer>, k: nat, from: nat, w: nat, max: int)
    requires k <= |log| && Total(log[k..]) <= max && forall i | 0 <= i < |log| :: log[i].amount >= 0
    requires forall i | 0 <= i < k :: log[i].height < from
    ensures TotalIn(log, from, w) <= max
  {
    TotalInSplit(log, k, from, w);
    TotalInBounds(log[..k], from, w);
    TotalInBounds(log[k..], from, w);
  }

  /** A window so wide that it cannot expire within uint64 heights never holds more than the maximum. */
  lemma WideWindows(s: LimitsState, run: seq<Attempt>, key: string, from: nat)
    requires LimitsInv(s) && key in s.limits && key !in s.usage && 2 * s.limits[key].windowBlocks >= TWO_64
    requires NonDecreasing(run) && NoOverflow(run, s.limits[key])
    ensures TotalIn(AcceptedLog(s, run, key), from, s.limits[key].windowBlocks) <= s.limits[key].maxAmount
  {
    hide Trim, RecordTransfer, Accepted, AcceptedLog;
    var last, p, k := RunWindows(s, run, key);
    assert last > 0 ==> last + s.limits[key].windowBlocks < TWO_64;
    CurrentAtMost(AcceptedLog(s, run, key), k, from, s.limits[key].windowBlocks, s.limits[key].maxAmount);
  }

  /**
    When the code does meet the sliding-window promise: over all runs the transfers of any `WindowBlocks`
    consecutive heights stay within the maximum if and only if the window is one block, or so wide that
    no window can expire before its end would overflow.
   */
  lemma SlidingExactIff(s: LimitsState, key: string)
    requires LimitsInv(s) && key in s.limits && key !in s.usage
    ensures var limit := s.limits[key];
      limit.windowBlocks == 1 || 2 * limit.windowBlocks >= TWO_64 <==>
        forall run, from: nat | NonDecreasing(run) && NoOverflow(run, limit) ::
          TotalIn(AcceptedLog(s, run, key), from, limit.windowBlocks) <= limit.maxAmount
  {
    hide Trim, AcceptedLog, TotalIn, NonDecreasing, NoOverflow;
    var limit := s.limits[key];
    if limit.windowBlocks == 1 || 2 * limit.windowBlocks >= TWO_64 {
      forall run, from: nat | NonDecreasing(run) && NoOverflow(run, limit)
        ensures TotalIn(AcceptedLog(s, run, key), from, limit.windowBlocks) <= limit.maxAmount
      {
        if limit.windowBlocks == 1 { OneBlockWindows(s, run, key, from); } else { WideWindows(s, run, key, from); }
      }
    } else {
      var run := SlidingBoundTight(s, key);
    }
  }

  /**
    When the end of the window wraps around, every transfer finds the window expired and the limit
    never binds. So, for a window anchored above height 0, the bound holds for every run at
    height `h` if and only if `h + WindowBlocks` stays below 2^64.
   */
  lemma BoundIffNoOverflow(s: LimitsState, key: string, h: U64)
    requires LimitsInv(s) && key in s.limits && key !in s.usage && h > 0
    ensures var limit := s.limits[key];
      h + limit.windowBlocks < TWO_64 <==>
        forall run: seq<Attempt> | (forall i | 0 <= i < |run| :: run[i].height == h) ::
          TotalIn(AcceptedLog(s, run, key), h, limit.windowBlocks) <= 2 * limit.maxAmount
  {
    var limit := s.limits[key];
    hide Trim, AcceptedLog, TotalIn;
    if h + limit.windowBlocks < TWO_64 {
      forall run: seq<Attempt> | (forall i | 0 <= i < |run| :: run[i].height == h)
        ensures TotalIn(AcceptedLog(s, run, key), h, limit.windowBlocks) <= 2 * limit.maxAmount
      {
        SlidingBound(s, run, key, h);
      }
    } else {
      var run := WrappedRun(s, key, h);
    }
  }

  lemma RecordWrapped(s: LimitsState, key: string, h: U64)
    requires LimitsInv(s) && key in s.limits && h > 0 && h + s.limits[key].windowBlocks >= TWO_64
    ensures var max := s.limits[key].maxAmount;
      && RecordTransfer(UsedAt(s, key, h, max), key, Some(max), h) == UsedAt(s, key, h, max)
      && Accepted(UsedAt(s, key, h, max), Attempt(key, Some(max), h), key) == [Transfer(h, max)]
  {
    hide Trim;
  }

  /** Three times the maximum at one height, once the window end wraps. */
  lemma WrappedRun(s: LimitsState, key: string, h: U64) returns (run: seq<Attempt>)
    requires LimitsInv(s) && key in s.limits && key !in s.usage && h > 0 && h + s.limits[key].windowBlocks >= TWO_64
    ensures forall i | 0 <= i < |run| :: run[i].height == h
    ensures TotalIn(AcceptedLog(s, run, key), h, s.limits[key].windowBlocks) == 3 * s.limits[key].maxAmount
  {
    hide Trim, RecordTransfer, Accepted, AcceptedLog, TotalIn, UsedAt;
    var w, max := s.limits[key].windowBlocks, s.limits[key].maxAmount;
    var a := Attempt(key, Some(max), h);
    var t := Transfer(h, max);
    run := [a, a, a];
    var s1, s2 := RunThree(s, a, a, a, key);
    RecordFresh(s, key, max, h);
    RecordWrapped(s, key, h);
    assert AcceptedLog(s, run, key) == [t, t, t];
    TotalInThree(t, t, t, h, w);
  }
}
