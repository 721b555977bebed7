/** The bridge relayer: watcher windows, retries, the replay store and the poll loops built on them. */
module Pipeline {
  import opened Base
  import opened Sorting

  /** A deposit event or a withdrawal, as far as the relayer's bookkeeping goes. */
  datatype Item = Item(height: U64, index: U64, txHash: string, key: string)

  predicate ItemLe(a: Item, b: Item) {
    a.height < b.height
    || (a.height == b.height && (a.index < b.index || (a.index == b.index && LexLe(a.txHash, b.txHash))))
  }

  // ---- the window a watcher looks at ------------------------------------------------------

  /** The last final height, when it has reached `from`. */
  function FinalTip(from: U64, latest: U64, confirmations: U64): Option<U64> {
    if latest < confirmations || from > latest - confirmations then None else Some(latest - confirmations)
  }

  function NextCursor(from: U64, tip: Option<U64>): U64 {
    if tip.None? then from else if tip.value == TWO_64 - 1 then tip.value else tip.value + 1
  }

  /** The final tip is the height `confirmations` below the latest, once that is no lower than the cursor. */
  lemma FinalTipExact(from: U64, latest: U64, confirmations: U64, tip: U64)
    ensures FinalTip(from, latest, confirmations) == Some(tip) <==> tip + confirmations == latest && from <= tip
    ensures FinalTip(from, latest, confirmations).None? <==> from + confirmations > latest
    ensures NextCursor(from, Some(tip)) == if tip < TWO_64 - 1 then tip + 1 else tip
    ensures NextCursor(from, None) == from
  {
  }

  /** Everything in the inclusive range, in the order the source holds it. */
  function Between(items: seq<Item>, from: U64, to: U64): seq<Item> {
    if items == [] then []
    else
      var n := |items| - 1;
      Between(items[..n], from, to) + if from <= items[n].height <= to then [items[n]] else []
  }

  function Observed(items: seq<Item>, from: U64, tip: Option<U64>): seq<Item> {
    if tip.None? then [] else Sort(Between(items, from, tip.value), ItemLe)
  }

  /** `Observe` of either watcher, once the source has answered. */
  method Observe(items: seq<Item>, from: U64, latest: U64, confirmations: U64)
    returns (observed: seq<Item>, cursor: U64)
    ensures observed == Observed(items, from, FinalTip(from, latest, confirmations))
    ensures cursor == NextCursor(from, FinalTip(from, latest, confirmations))
  {
    hide Sort, ItemLe;
    if latest < confirmations { return [], from; }
    var finalizedTip := latest - confirmations;
    if from > finalizedTip { return [], from; }
    observed := [];
    for i := 0 to |items|
      invariant observed == Between(items[..i], from, finalizedTip)
    {
      assert items[..i + 1][..i] == items[..i];
      if from <= items[i].height <= finalizedTip { observed := observed + [items[i]]; }
    }
    assert items[..|items|] == items;
    observed := Sort(observed, ItemLe);
    if finalizedTip == TWO_64 - 1 { return observed, finalizedTip; }
    cursor := finalizedTip + 1;
  }

  /** As often as it is there, and only in range. */
  lemma {:induction false} BetweenExact(items: seq<Item>, from: U64, to: U64, x: Item)
    ensures multiset(Between(items, from, to))[x] == if from <= x.height <= to then multiset(items)[x] else 0
  {
    if items != [] {
      var front, last := items[..|items| - 1], items[|items| - 1];
      BetweenExact(front, from, to, x);
      BetweenNext(items, from, to);
      hide Between;
      assert items == front + [last];
      OneMore(front, last, x);
      OneMore(Between(front, from, to), last, x);
    }
  }

  lemma BetweenNext(items: seq<Item>, from: U64, to: U64)
    requires items != []
    ensures var front, last := Between(items[..|items| - 1], from, to), items[|items| - 1];
      Between(items, from, to) == if from <= last.height <= to then front + [last] else front
  {
  }

  lemma OneMore(items: seq<Item>, last: Item, x: Item)
    ensures multiset(items + [last])[x] == multiset(items)[x] + if x == last then 1 else 0
  {
  }

  lemma ItemOrder()
    ensures TotalOrder(ItemLe)
  {
    LexOrder();
    hide LexLe;
  }

  /**
    A poll sees, in block order, exactly the items from its cursor up to the final tip, each as often as
    the source holds it; its next cursor leaves no gap and does not pass what is final.
   */
  lemma ObservedExact(items: seq<Item>, from: U64, latest: U64, confirmations: U64)
    ensures var tip := FinalTip(from, latest, confirmations);
      && Sorted(Observed(items, from, tip), ItemLe)
      && (forall x: Item :: multiset(Observed(items, from, tip))[x]
                        == if tip.Some? && from <= x.height <= tip.value then multiset(items)[x] else 0)
      && (forall x | x in items && from <= x.height < NextCursor(from, tip) :: x in Observed(items, from, tip))
      && from <= NextCursor(from, tip)
      && (from < NextCursor(from, tip) ==> NextCursor(from, tip) + confirmations <= latest + 1)
  {
    var tip := FinalTip(from, latest, confirmations);
    if tip.Some? {
      ItemOrder();
      SortSorts(Between(items, from, tip.value), ItemLe);
      hide Sort, Between, ItemLe;
      var observed := Observed(items, from, tip);
      forall x: Item ensures multiset(observed)[x] == if from <= x.height <= tip.value then multiset(items)[x] else 0 {
        BetweenExact(items, from, tip.value, x);
      }
      forall x | x in items && from <= x.height < NextCursor(from, tip) ensures x in observed {
        assert x in multiset(items) && x in multiset(observed);
      }
    }
  }

  /** What is observed comes from the source, at or above the cursor. */
  lemma ObservedComesFrom(items: seq<Item>, from: U64, latest: U64, confirmations: U64)
    ensures forall x | x in Observed(items, from, FinalTip(from, latest, confirmations)) ::
      x in items && from <= x.height
  {
    ObservedExact(items, from, latest, confirmations);
    hide Observed, FinalTip;
    var observed := Observed(items, from, FinalTip(from, latest, confirmations));
    forall x | x in observed ensures x in items && from <= x.height {
      assert x in multiset(observed) && x in multiset(items);
    }
  }

  // ---- the log query in chunks ------------------------------------------------------------------

  const MAX_LOG_RANGE: U64 := 10

  /** `chunkedLogRangeEnd`, wrap-around included. */
  function ChunkEnd(from: U64, to: U64): U64 {
    if to <= from then to
    else if MAX_LOG_RANGE <= 1 then from
    else
      var maxEnd := Add64(from, MAX_LOG_RANGE - 1);
      if maxEnd < from || maxEnd > to then to else maxEnd
  }

  /** All logs of an inclusive block range, block by block. */
  function LogsIn(at: U64 -> seq<Item>, from: U64, to: U64): seq<Item>
    decreases (to - from)
  {
    if from > to then []
    else if from == to then at(from)
    else at(from) + LogsIn(at, from + 1, to)
  }

  lemma {:induction false} LogsSplit(at: U64 -> seq<Item>, from: U64, mid: U64, to: U64)
    requires from <= mid < to
    ensures LogsIn(at, from, mid) + LogsIn(at, mid + 1, to) == LogsIn(at, from, to)
    decreases mid - from
  {
    if from < mid {
      LogsSplit(at, from + 1, mid, to);
      FirstBlock(at, from, mid);
      FirstBlock(at, from, to);
      hide LogsIn;
      Regroup(at(from), LogsIn(at, from + 1, mid), LogsIn(at, mid + 1, to));
    } else {
      FirstBlock(at, from, to);
    }
  }

  lemma FirstBlock(at: U64 -> seq<Item>, from: U64, to: U64)
    requires from < to
    ensures LogsIn(at, from, to) == at(from) + LogsIn(at, from + 1, to)
  {
  }

  /** No query spans more than ten blocks, and none is empty. */
  lemma ChunkFits(from: U64, to: U64)
    requires from <= to
    ensures from <= ChunkEnd(from, to) <= to && ChunkEnd(from, to) - from < MAX_LOG_RANGE
    ensures ChunkEnd(from, to) < to ==> ChunkEnd(from, to) == from + MAX_LOG_RANGE - 1
  {
  }

  lemma NoLogs(at: U64 -> seq<Item>, from: U64, to: U64)
    ensures from > to ==> LogsIn(at, from, to) == []
    ensures from == to ==> LogsIn(at, from, to) == at(from)
  {
  }

  lemma Regroup(a: seq<Item>, b: seq<Item>, c: seq<Item>)
    ensures a + (b + c) == (a + b) + c
  {
  }

  /**
    `DepositEvents`: chunk by chunk, every block of the range exactly once and in order; any failing query fails the
    call.
   */
  method DepositEvents(at: U64 -> seq<Item>, answers: U64 -> bool, from: U64, to: U64)
    returns (events: Option<seq<Item>>)
    ensures events.Some? ==> events.value == LogsIn(at, from, to)
    ensures (forall block :: answers(block)) ==> events.Some?
  {
    NoLogs(at, from, to);
    hide LogsIn, ChunkEnd;
    if from > to { return Some([]); }
    var found: seq<Item> := [];
    var start := from;
    while true
      invariant from <= start <= to
      invariant found + LogsIn(at, start, to) == LogsIn(at, from, to)
      decreases (to - start)
    {
      var end := ChunkEnd(start, to);
      ChunkFits(start, to);
      if !answers(start) { return None; }
      ghost var before := found;
      found := found + LogsIn(at, start, end);
      if end == TWO_64 - 1 || end >= to { return Some(found); }
      LogsSplit(at, start, end, to);
      Regroup(before, LogsIn(at, start, end), LogsIn(at, end + 1, to));
      start := end + 1;
    }
  }

  // ---- retries --------------------------------------------------------------------------------------

  /** How one remote call comes back. A call whose answer was lost is a failure here, whatever it did there. */
  datatype Attempt = Succeeded | FailedForNow | FailedForGood

  function Tries(limit: int): nat {
    if limit <= 0 then 1 else limit
  }

  /** The number of the attempt the retry loop stops at. */
  function StopsAt(calls: nat -> Attempt, attempt: nat, limit: nat): (n: nat)
    requires 1 <= attempt <= limit
    ensures attempt <= n <= limit
    ensures forall k | attempt <= k < n :: calls(k) == FailedForNow
    ensures n < limit ==> calls(n) != FailedForNow
    decreases limit - attempt
  {
    if calls(attempt) != FailedForNow || attempt == limit then attempt else StopsAt(calls, attempt + 1, limit)
  }

  predicate GoesThrough(calls: nat -> Attempt, limit: int) {
    calls(StopsAt(calls, 1, Tries(limit))) == Succeeded
  }

  /**
    `submitWithRetry` and `releaseWithRetry`. `made` is the number of calls; the number reported for a
    failure is the limit, also when a permanent error stopped the loop early.
   */
  method CallWithRetry(calls: nat -> Attempt, limit: int) returns (reported: nat, ok: bool, made: nat)
    ensures made == StopsAt(calls, 1, Tries(limit)) && ok == GoesThrough(calls, limit)
    ensures reported == made <==> ok || made == Tries(limit)
  {
    var attempts := limit;
    if attempts <= 0 { attempts := 1; }
    var attempt := 1;
    while attempt <= attempts
      invariant 1 <= attempt <= attempts == Tries(limit)
      invariant StopsAt(calls, 1, attempts) == StopsAt(calls, attempt, attempts)
      decreases attempts - attempt
    {
      var result := calls(attempt);
      if result == Succeeded { return attempt, true, attempt; }
      if result != FailedForNow || attempt == attempts { return attempts, false, attempt; }
      attempt := attempt + 1;
    }
  }

  // ---- the replay store -------------------------------------------------------------------------------

  datatype StoreState = StoreState(checkpoints: map<string, U64>, processed: set<string>)

  const EMPTY_STORE: StoreState := StoreState(map[], {})

  function Cursor(s: StoreState, name: string): U64 {
    if name in s.checkpoints then s.checkpoints[name] else 0
  }

  /**
    The store in memory and on disk. `accepted` is history: the keys of all calls that returned success.
    A store without a path never writes.
   */
  datatype Relay = Relay(memory: StoreState, disk: StoreState, durable: bool, broken: bool, accepted: set<string>)

  function Written(r: Relay, memory: StoreState, writes: bool): Relay {
    r.(memory := memory, disk := if r.durable && writes then memory else r.disk)
  }

  predicate WriteOk(r: Relay, writes: bool) {
    !r.broken && (!r.durable || writes)
  }

  function Mark(r: Relay, key: string, writes: bool): Relay {
    if r.broken then r else Written(r, r.memory.(processed := r.memory.processed + {key}), writes)
  }

  function Save(r: Relay, name: string, value: U64, writes: bool): Relay {
    if r.broken then r else Written(r, r.memory.(checkpoints := r.memory.checkpoints[name := value]), writes)
  }

  /** A restart loads what is on disk, or nothing when that cannot be read. */
  function Restart(r: Relay, readable: bool): Relay {
    r.(memory := if readable then r.disk else EMPTY_STORE, broken := !readable)
  }

  /** A mark and a checkpoint change memory by just that; the file follows memory as a whole or stays as it is. */
  lemma StoreExact(r: Relay, key: string, name: string, value: U64, writes: bool)
    requires !r.broken
    ensures var t := Mark(r, key, writes);
      && t == r.(memory := t.memory, disk := t.disk)
      && t.memory.processed == r.memory.processed + {key} && t.memory.checkpoints == r.memory.checkpoints
      && t.disk == if r.durable && writes then t.memory else r.disk
    ensures var t := Save(r, name, value, writes);
      && t == r.(memory := t.memory, disk := t.disk)
      && t.memory.processed == r.memory.processed && Cursor(t.memory, name) == value
      && (forall other | other != name :: Cursor(t.memory, other) == Cursor(r.memory, other))
      && t.disk == if r.durable && writes then t.memory else r.disk
  {
  }

  class Store {
    const durable: bool
    var checkpoints: map<string, U64>
    var processed: set<string>
    var loadFailed: bool
    var file: StoreState
    ghost var accepted: set<string>

    /** `NewStoreAt` on an existing file, or `NewStore` when not durable. */
    constructor (durable: bool, file: StoreState, readable: bool, ghost accepted: set<string>)
      requires !durable ==> file == EMPTY_STORE
      ensures State() == Restart(Relay(EMPTY_STORE, file, durable, false, accepted), readable)
    {
      this.durable, this.file, this.accepted := durable, file, accepted;
      checkpoints := if readable then file.checkpoints else map[];
      processed := if readable then file.processed else {};
      loadFailed := !readable;
    }

    ghost function State(): Relay
      reads this
    {
      Relay(StoreState(checkpoints, processed), file, durable, loadFailed, accepted)
    }

    /** `persistLocked`: the file is replaced as a whole or not at all. */
    method Persist(writes: bool) returns (ok: bool)
      requires !loadFailed
      modifies `file
      ensures State() == Written(old(State()), old(State()).memory, writes) && ok == (!durable || writes)
    {
      if !durable { return true; }
      if !writes { return false; }
      file := StoreState(checkpoints, processed);
      ok := true;
    }

    /** A failing write leaves memory ahead of the file. */
    method MarkProcessed(key: string, writes: bool) returns (ok: bool)
      modifies this
      ensures State() == Mark(old(State()), key, writes) && ok == WriteOk(old(State()), writes)
    {
      if loadFailed { return false; }
      processed := processed + {key};
      ok := Persist(writes);
    }

    method SaveCheckpoint(name: string, value: U64, writes: bool) returns (ok: bool)
      modifies this
      ensures State() == Save(old(State()), name, value, writes) && ok == WriteOk(old(State()), writes)
    {
      if loadFailed { return false; }
      checkpoints := checkpoints[name := value];
      ok := Persist(writes);
    }

    method Checkpoint(name: string) returns (value: U64)
      ensures value == Cursor(State().memory, name)
    {
      value := if name in checkpoints then checkpoints[name] else 0;
    }
  }

  // ---- one poll ------------------------------------------------------------------------------------------

  /** Everything about a poll that the relayer does not control. */
  datatype Weather = Weather(
    latest: Option<U64>,              // the source's height, or its refusal
    fetches: bool,                    // whether the range query is answered
    prepares: nat -> bool,            // whether validation and attestation of the i-th item succeed
    calls: nat -> nat -> Attempt,     // the attempts for the i-th item
    marks: nat -> bool,               // whether the i-th mark is written
    saves: bool)                      // whether the checkpoint is written

  /** One observed item: skip a known key, prepare, call, mark. */
  function Handle(r: Relay, x: Item, i: nat, w: Weather, limit: int): (Relay, bool) {
    if x.key in r.memory.processed then (r, true)
    else if !w.prepares(i) || !GoesThrough(w.calls(i), limit) then (r, false)
    else
      var called := r.(accepted := r.accepted + {x.key});
      (Mark(called, x.key, w.marks(i)), WriteOk(called, w.marks(i)))
  }

  /** The loop over the observed items stops at the first failure. */
  function HandleAll(r: Relay, xs: seq<Item>, w: Weather, limit: int): (Relay, bool) {
    if xs == [] then (r, true)
    else
      var n := |xs| - 1;
      var (before, ok) := HandleAll(r, xs[..n], w, limit);
      if !ok then (before, false) else Handle(before, xs[n], n, w, limit)
  }

  /** Items are handled in order up to the first that fails, and nothing after it is touched. */
  lemma {:induction false} StopsAtFirst(r: Relay, xs: seq<Item>, w: Weather, limit: int)
    ensures var (after, ok) := HandleAll(r, xs, w, limit);
      && (ok ==> forall k | 0 <= k < |xs| :: Goes(r, xs, k, w, limit))
      && (!ok ==> exists k | 0 <= k < |xs| ::
           !Goes(r, xs, k, w, limit) && after == Handle(HandleAll(r, xs[..k], w, limit).0, xs[k], k, w, limit).0
           && forall j | 0 <= j < k :: Goes(r, xs, j, w, limit))
    decreases |xs|
  {
    hide Handle;
    if xs != [] {
      var n := |xs| - 1;
      var front := xs[..n];
      StopsAtFirst(r, front, w, limit);
      assert forall k | 0 <= k < n :: front[..k] == xs[..k] && front[k] == xs[k];
      var (before, ok) := HandleAll(r, front, w, limit);
      if !ok {
        var k :| 0 <= k < n && !Goes(r, front, k, w, limit)
          && before == Handle(HandleAll(r, front[..k], w, limit).0, front[k], k, w, limit).0
          && forall j | 0 <= j < k :: Goes(r, front, j, w, limit);
        assert !Goes(r, xs, k, w, limit) && forall j | 0 <= j < k :: Goes(r, xs, j, w, limit) by {
          assert forall j | 0 <= j <= k :: Goes(r, xs, j, w, limit) == Goes(r, front, j, w, limit);
        }
      } else {
        assert forall k | 0 <= k < n :: Goes(r, xs, k, w, limit) == Goes(r, front, k, w, limit);
      }
    }
  }

  /** The `k`th item is handled with success, once those before it have been handled. */
  predicate Goes(r: Relay, xs: seq<Item>, k: nat, w: Weather, limit: int)
    requires k < |xs|
  {
    Handle(HandleAll(r, xs[..k], w, limit).0, xs[k], k, w, limit).1
  }

  /** `runDeposits` and `runWithdrawals` against a source holding `items`. */
  function Poll(r: Relay, name: string, items: seq<Item>, confirmations: U64, limit: int, w: Weather): (Relay, bool) {
    if r.broken || w.latest.None? then (r, false)
    else
      var from := Cursor(r.memory, name);
      var tip := FinalTip(from, w.latest.value, confirmations);
      if tip.Some? && !w.fetches then (r, false)
      else
        var (handled, ok) := HandleAll(r, Observed(items, from, tip), w, limit);
        if !ok then (handled, false)
        else (Save(handled, name, NextCursor(from, tip), w.saves), WriteOk(handled, w.saves))
  }

  datatype Summary = Summary(from: U64, nextCursor: U64, observed: nat, duplicates: nat, delivered: nat, attempts: nat)

  class Coordinator {
    const store: Store
    const evmConfirmations: U64
    const cosmosConfirmations: U64
    const retryLimit: int

    constructor (store: Store, evmConfirmations: U64, cosmosConfirmations: U64, retryLimit: int)
      ensures this.store == store && this.retryLimit == retryLimit
      ensures this.evmConfirmations == evmConfirmations && this.cosmosConfirmations == cosmosConfirmations
    {
      this.store, this.retryLimit := store, retryLimit;
      this.evmConfirmations, this.cosmosConfirmations := evmConfirmations, cosmosConfirmations;
    }

    /** One item of the loop; says whether the loop may go on, and what to add to the summary. */
    method HandleOne(x: Item, i: nat, w: Weather) returns (ok: bool, duplicate: bool, attempts: nat)
      modifies store
      ensures (store.State(), ok) == Handle(old(store.State()), x, i, w, retryLimit)
      ensures duplicate <==> x.key in old(store.State()).memory.processed
    {
      attempts := 0;
      duplicate := x.key in store.processed;
      if duplicate { return true, true, 0; }
      if !w.prepares(i) { return false, false, 0; }
      var reported, sent, _ := CallWithRetry(w.calls(i), retryLimit);
      attempts := reported;
      if !sent { return false, false, attempts; }
      store.accepted := store.accepted + {x.key};
      ok := store.MarkProcessed(x.key, w.marks(i));
    }

    /** `runDeposits` or `runWithdrawals`, by the name of the checkpoint. */
    method RunPoll(name: string, items: seq<Item>, confirmations: U64, w: Weather) returns (summary: Summary, ok: bool)
      modifies store
      ensures (store.State(), ok) == Poll(old(store.State()), name, items, confirmations, retryLimit, w)
      ensures summary.duplicates + summary.delivered <= summary.observed
      ensures ok ==> summary.duplicates + summary.delivered == summary.observed
      ensures ok ==> summary.nextCursor == Cursor(store.State().memory, name)
    {
      hide FinalTip, Handle, Observed;
      summary := Summary(0, 0, 0, 0, 0, 0);
      ok := false;
      if store.loadFailed || w.latest.None? { return; }
      var from := store.Checkpoint(name);
      summary := summary.(from := from);
      if FinalTip(from, w.latest.value, confirmations).Some? && !w.fetches { return; }
      var events, cursor := Observe(items, from, w.latest.value, confirmations);
      summary := summary.(observed := |events|);
      ghost var start := store.State();
      assert events[..0] == [];
      for i := 0 to |events|
        invariant (store.State(), true) == HandleAll(start, events[..i], w, retryLimit)
        invariant summary.duplicates + summary.delivered == i && summary.observed == |events|
      {
        assert events[..i + 1][..i] == events[..i];
        ghost var before := store.State();
        var goesOn, duplicate, attempts := HandleOne(events[i], i, w);
        assert (store.State(), goesOn) == HandleAll(start, events[..i + 1], w, retryLimit);
        summary := summary.(attempts := summary.attempts + attempts);
        if !goesOn {
          StopsEverything(start, events, i + 1, w, retryLimit);
          return;
        }
        if duplicate {
          summary := summary.(duplicates := summary.duplicates + 1);
        } else {
          summary := summary.(delivered := summary.delivered + 1);
        }
      }
      assert events[..|events|] == events;
      ok := store.SaveCheckpoint(name, cursor, w.saves);
      if ok { summary := summary.(nextCursor := cursor); }
    }

    /** `RunOnceWithSummary`: deposits, then withdrawals unless the deposits failed. */
    method RunOnce(deposits: seq<Item>, withdrawals: seq<Item>, w0: Weather, w1: Weather) returns (ok: bool)
      modifies store
      ensures var (r, first) := Poll(old(store.State()), DEPOSITS, deposits, evmConfirmations, retryLimit, w0);
        (store.State(), ok) == if first then Poll(r, WITHDRAWALS, withdrawals, cosmosConfirmations, retryLimit, w1)
          else (r, false)
    {
      hide Poll;
      var _, first := RunPoll(DEPOSITS, deposits, evmConfirmations, w0);
      if !first { return false; }
      var _, second := RunPoll(WITHDRAWALS, withdrawals, cosmosConfirmations, w1);
      ok := second;
    }
  }

  const DEPOSITS := "evm-deposits"
  const WITHDRAWALS := "cosmos-withdrawals"

  lemma {:induction false} StopsEverything(r: Relay, xs: seq<Item>, n: nat, w: Weather, limit: int)
    requires n <= |xs| && !HandleAll(r, xs[..n], w, limit).1
    ensures HandleAll(r, xs, w, limit) == HandleAll(r, xs[..n], w, limit)
    decreases |xs|
  {
    hide Handle;
    if n < |xs| {
      var front := xs[..|xs| - 1];
      assert front[..n] == xs[..n];
      StopsEverything(r, front, n, w, limit);
    } else {
      assert xs[..n] == xs;
    }
  }
}
