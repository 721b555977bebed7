/** The relayer between the two chains, one cycle at a time. */
module Relaying {
  import opened Base
  import opened Text
  import R = Router
  import opened Destination
  import opened TwoChain

  /**
    How one remote call ends: answered, lost before it took effect, carried out with its answer lost, or
    carried out by a destination that could not write its file. `filed` says whether it could in the third case.
   */
  datatype Wired = Answered | RequestLost | AnswerLost(filed: bool) | Unfiled

  /** Whether the destination could write, had it anything to write. */
  function Filed(w: Wired): bool {
    w.Answered? || (w.AnswerLost? && w.filed)
  }

  /** Whether the call succeeds for the relayer; `writing` says whether it makes the destination write. */
  predicate Heard(w: Wired, writing: bool) {
    w.Answered? || (w.Unfiled? && !writing)
  }

  datatype Summary = Summary(readyAcks: nat, completed: nat, failed: nat, timedOut: nat, observed: nat, delivered: nat,
    received: nat)

  function Recorded(m: Summary, status: AckStatus): Summary {
    match status
    case AckCompleted => m.(completed := m.completed + 1)
    case AckFailed => m.(failed := m.failed + 1)
    case AckTimedOut => m.(timedOut := m.timedOut + 1)
    case _ => m
  }

  function Settled(m: Summary): nat {
    m.completed + m.failed + m.timedOut
  }

  // ---- one cycle of the relayer, as a function ------------------------------------------------------------------

  /** How far a cycle has come: the system, the counters, the steps taken, and whether it may go on. */
  datatype Progress = Progress(system: System, summary: Summary, steps: seq<Step>, ok: bool)

  function Took(p: Progress, step: Step): Progress {
    p.(system := Next(p.system, step), steps := p.steps + [step])
  }

  /** Apply one acknowledgement, count it, confirm it; any failure on the way stops the cycle there. */
  function AckOne(p: Progress, a: AckRecord, applying: Wired, confirming: Wired): Progress {
    if VerdictOf(a).None? || applying.RequestLost? then p.(ok := false)
    else
      var applied := Took(p, Apply(a));
      if R.PendingError(p.system.router, a.transferID).Some? || !applying.Answered? then applied.(ok := false)
      else
        var counted := applied.(summary := Recorded(p.summary, a.status));
        if confirming.RequestLost? then counted.(ok := false)
        else
          var confirmed := Took(counted, ConfirmAck(a.transferID, Filed(confirming)));
          confirmed.(ok := SetAckError(p.system.target, a.transferID, Confirm).None?
                           && Heard(confirming, p.system.durable))
  }

  /** The first loop over the first `n` acknowledgements. */
  function AckFirst(p: Progress, acks: seq<AckRecord>, net: nat -> Wired, n: nat): Progress
    requires n <= |acks|
  {
    if n == 0 then p
    else
      var q := AckFirst(p, acks, net, n - 1);
      if q.ok then AckOne(q, acks[n - 1], net(2 * n - 1), net(2 * n)) else q
  }

  function DeliverOne(p: Progress, t: Transfer, wired: Wired): Progress {
    if wired.RequestLost? then p.(ok := false)
    else
      var sent := Took(p, Deliver(t, Filed(wired)));
      if BuildEnvelope(t).Err? || !Heard(wired, p.system.durable) then sent.(ok := false)
      else sent.(summary := p.summary.(delivered := p.summary.delivered + 1, received := p.summary.received + 1))
  }

  /** The second loop over the first `n` transfers. */
  function DeliverFirst(p: Progress, ts: seq<Transfer>, net: nat -> Wired, n: nat): Progress
    requires n <= |ts|
  {
    if n == 0 then p
    else
      var q := DeliverFirst(p, ts, net, n - 1);
      if q.ok then DeliverOne(q, ts[n - 1], net(n - 1)) else q
  }

  /** The acknowledgements a poll of `s` finds. */
  function Listed(s: System): seq<AckRecord> {
    ReadyRecords(AdvanceFirst(s.target, |s.target.packets|).packets)
  }

  const NOTHING: Summary := Summary(0, 0, 0, 0, 0, 0, 0)

  /** The cycle up to the query. */
  function AckCycle(s: System, poll: Wired, acking: nat -> Wired): Progress {
    var start := Progress(s, NOTHING, [], true);
    if poll.RequestLost? then start.(ok := false)
    else
      var polled := Took(start, Poll(Filed(poll)));
      if !Heard(poll, s.durable && Waiting(s.target.packets)) then polled.(ok := false)
      else AckFirst(polled.(summary := NOTHING.(readyAcks := |Listed(s)|)), Listed(s), acking, |Listed(s)|)
  }

  /** `RunOnceWithSummary`, given how each call ends and the transfers the query lists. */
  function Cycle(s: System, poll: Wired, acking: nat -> Wired, query: Wired, ts: seq<Transfer>,
                 delivering: nat -> Wired): Progress {
    var p := AckCycle(s, poll, acking);
    if !p.ok || !query.Answered? then p.(ok := false)
    else DeliverFirst(Took(p, Fetch).(summary := p.summary.(observed := |ts|)), ts, delivering, |ts|)
  }

  /** One wire for each of the IDs. */
  ghost predicate WiresOf(ts: seq<Transfer>, ids: set<string>, all: map<string, R.TransferRecord>) {
    && ids <= all.Keys && |ts| == |ids|
    && (forall t | t in ts :: exists id :: id in ids && Wire(all[id]) == t)
    && (forall id | id in ids :: Wire(all[id]) in ts)
  }

  lemma WiresOfGrows(ts: seq<Transfer>, ids: set<string>, all: map<string, R.TransferRecord>, id: string)
    ensures WiresOf([], {}, all)
    ensures WiresOf(ts, ids, all) && id in all && id !in ids ==> WiresOf(ts + [Wire(all[id])], ids + {id}, all)
  {
    hide Wire;
    if WiresOf(ts, ids, all) && id in all && id !in ids {
      var ts' := ts + [Wire(all[id])];
      forall t | t in ts' ensures exists x :: x in ids + {id} && Wire(all[x]) == t {
        if t in ts {
          var x :| x in ids && Wire(all[x]) == t;
          assert x in ids + {id};
        } else {
          assert id in ids + {id};
        }
      }
    }
  }

  lemma WiresOfPending(ts: seq<Transfer>, r: R.RouterState)
    requires WiresOf(ts, PendingIDs(r), r.transfers)
    ensures forall t :: t in ts <==> t in PendingWires(r)
    ensures |ts| == |PendingIDs(r)|
  {
    hide Wire;
    forall t ensures t in ts <==> t in PendingWires(r) {
      if t in ts {
        var id :| id in PendingIDs(r) && Wire(r.transfers[id]) == t;
      }
      if t in PendingWires(r) {
        var id :| id in r.transfers && r.transfers[id].status == R.Pending && Wire(r.transfers[id]) == t;
        assert id in PendingIDs(r);
      }
    }
  }

  class Relayer {
    const source: R.RouterKeeper
    const target: MockTarget
    const books: Books
    ghost var steps: seq<Step>

    constructor (source: R.RouterKeeper, target: MockTarget, books: Books)
      requires source.State() == R.EmptyRouter() && target.State() == target.file == Fresh(books, target.durable).target
      ensures this.source == source && this.target == target && this.books == books && steps == [] && Traced()
    {
      this.source, this.target, this.books, this.steps := source, target, books, [];
    }

    ghost function Now(): System
      reads this
    {
      Run(Fresh(books, target.durable), steps)
    }

    /** Both chains are where the recorded steps of the state machine take them. */
    ghost predicate Traced()
      reads this, source, target
    {
      && Now().router == source.State() && Now().target == target.State()
      && Now().saved.target == target.file && Now().durable == target.durable
    }

    /** The cycle begun with `before` behind it has come as far as `p`. */
    ghost predicate At(before: seq<Step>, p: Progress)
      reads this, source, target
    {
      Traced() && steps == before + p.steps && Now() == p.system
    }

    ghost method Record(step: Step)
      modifies `steps
      ensures steps == old(steps) + [step] && Now() == Next(old(Now()), step)
    {
      ghost var before := steps;
      steps := steps + [step];
      assert steps[..|steps| - 1] == before;
    }

    /** `PendingTransfers`: a query lists the pending transfers, one entry each, in some order. */
    method PendingTransfers() returns (transfers: seq<Transfer>)
      ensures forall t :: t in transfers <==> t in PendingWires(source.State())
      ensures |transfers| == |PendingIDs(source.State())|
    {
      hide WiresOf;
      transfers := [];
      var all := source.transfers;
      var left := all.Keys;
      ghost var taken: set<string> := {};
      WiresOfGrows([], {}, all, "");
      while left != {}
        invariant left <= all.Keys && taken == PendingIDs(source.State()) - left
        invariant WiresOf(transfers, taken, all)
        decreases |left|
      {
        var id :| id in left;
        left := left - {id};
        if all[id].status == R.Pending {
          WiresOfGrows(transfers, taken, all, id);
          transfers := transfers + [Wire(all[id])];
          taken := taken + {id};
        }
      }
      assert taken == PendingIDs(source.State());
      WiresOfPending(transfers, source.State());
    }

    /** The body of the first loop. */
    method AckTransfer(ghost before: seq<Step>, ghost p: Progress, summary: Summary, a: AckRecord, applying: Wired,
                       confirming: Wired)
      returns (summary': Summary, ok: bool)
      requires At(before, p) && p.summary == summary && a in p.system.acks && p.ok
      modifies this, source, target
      ensures var q := AckOne(p, a, applying, confirming);
        At(before, q) && q.summary == summary' && q.ok == ok && q.system.acks == p.system.acks
    {
      hide Run, SetAck, Recorded, Wire, Fresh, R.Acknowledge, Trim, SetAckError, R.PendingError, Next, Filed, Heard;
      summary' := summary;
      if VerdictOf(a).None? || applying.RequestLost? { return summary', false; }
      var refused := source.AcknowledgeTransfer(a.transferID, VerdictOf(a).value);
      Applied(Now(), a);
      Record(Apply(a));
      if refused.Some? || !applying.Answered? { return summary', false; }
      summary' := Recorded(summary, a.status);
      if confirming.RequestLost? { return summary', false; }
      var unready := target.SetAckState(a.transferID, Confirm, Filed(confirming));
      Confirmed(Now(), a.transferID, Filed(confirming));
      Record(ConfirmAck(a.transferID, Filed(confirming)));
      ok := unready.None? && !confirming.AnswerLost?;
      Answer(confirming, target.durable);
    }

    /** The first loop: apply each acknowledgement, then confirm it. */
    method AckAll(ghost before: seq<Step>, ghost p: Progress, summary0: Summary, acks: seq<AckRecord>,
                  net: nat -> Wired)
      returns (summary: Summary, ok: bool)
      requires At(before, p) && p.summary == summary0 && p.ok && forall a | a in acks :: a in p.system.acks
      modifies this, source, target
      ensures var q := AckFirst(p, acks, net, |acks|); At(before, q) && q.summary == summary && q.ok == ok
    {
      hide Run, AckOne, Wire, Fresh, At;
      summary, ok := summary0, true;
      for i := 0 to |acks|
        invariant var q := AckFirst(p, acks, net, i);
          At(before, q) && q.summary == summary && q.ok && q.system.acks == p.system.acks
      {
        ghost var q := AckFirst(p, acks, net, i);
        summary, ok := AckTransfer(before, q, summary, acks[i], net(2 * i + 1), net(2 * i + 2));
        if !ok {
          AckStops(p, acks, net, i + 1, |acks|);
          return;
        }
      }
    }

    /** The body of the second loop. */
    method DeliverTransfer(ghost before: seq<Step>, ghost p: Progress, summary: Summary, t: Transfer, wired: Wired)
      returns (summary': Summary, ok: bool)
      requires At(before, p) && p.summary == summary && t in p.system.seen && p.ok
      modifies this, target
      ensures var q := DeliverOne(p, t, wired);
        At(before, q) && q.summary == summary' && q.ok == ok && q.system.seen == p.system.seen
    {
      hide Run, Receive, BuildEnvelope, Wire, Fresh, Next;
      summary' := summary;
      if wired.RequestLost? { return summary', false; }
      var r := target.ReceiveTransfer(t, Filed(wired));
      Delivered(Now(), t, Filed(wired));
      Record(Deliver(t, Filed(wired)));
      Answer(wired, target.durable);
      if r.Err? || wired.AnswerLost? { return summary', false; }
      summary' := summary.(delivered := summary.delivered + 1, received := summary.received + 1);
      ok := true;
    }

    /** The second loop: deliver every transfer the query returned. */
    method DeliverAll(ghost before: seq<Step>, ghost p: Progress, summary0: Summary, ts: seq<Transfer>,
                      net: nat -> Wired)
      returns (summary: Summary, ok: bool)
      requires At(before, p) && p.summary == summary0 && p.ok && forall t | t in ts :: t in p.system.seen
      modifies this, target
      ensures var q := DeliverFirst(p, ts, net, |ts|); At(before, q) && q.summary == summary && q.ok == ok
    {
      hide Run, DeliverOne, Wire, Fresh, At;
      summary, ok := summary0, true;
      for i := 0 to |ts|
        invariant var q := DeliverFirst(p, ts, net, i);
          At(before, q) && q.summary == summary && q.ok && q.system.seen == p.system.seen
      {
        ghost var q := DeliverFirst(p, ts, net, i);
        summary, ok := DeliverTransfer(before, q, summary, ts[i], net(i));
        if !ok {
          DeliverStops(p, ts, net, i + 1, |ts|);
          return;
        }
      }
    }

    /** The poll; nothing is returned when its answer does not come or is an error. */
    method PollReady(ghost before: seq<Step>, poll: Wired) returns (acks: Option<seq<AckRecord>>)
      requires Traced() && steps == before && !poll.RequestLost?
      modifies this, target
      ensures Traced() && steps == before + [Poll(Filed(poll))] && Now() == Next(old(Now()), Poll(Filed(poll)))
      ensures var s := old(Now());
        acks == if Heard(poll, s.durable && Waiting(s.target.packets)) then Some(Listed(s)) else None
      ensures acks.Some? ==> forall a | a in acks.value :: a in Now().acks
    {
      hide Run, Wire, Fresh, AdvanceFirst, ReadyRecords, Waiting, Next;
      acks := target.ReadyAckRecords(Filed(poll));
      Polled(Now(), Filed(poll));
      Record(Poll(Filed(poll)));
      if poll.AnswerLost? { acks := None; }
    }

    /**
      `RunOnceWithSummary`: poll, apply and confirm each acknowledgement, then deliver every pending
      transfer, stopping at the first failure. The four networks say how each remote call ends. Whatever
      they say, the steps taken, the counters and the outcome are those of `Cycle`.
     */
    method RunOnce(poll: Wired, acking: nat -> Wired, query: Wired, delivering: nat -> Wired)
      returns (summary: Summary, ok: bool, ghost listed: seq<Transfer>)
      requires Traced()
      modifies this, source, target
      ensures var p := Cycle(old(Now()), poll, acking, query, listed, delivering);
        At(old(steps), p) && p.summary == summary && p.ok == ok
      ensures var p := AckCycle(old(Now()), poll, acking);
        if p.ok && query.Answered? then
          forall t :: t in listed <==> t in PendingWires(p.system.router)
        else listed == []
    {
      hide Run, Wire, Fresh, AdvanceFirst, ReadyRecords, AckFirst, DeliverFirst, Next, Listed, Waiting, Heard;
      ghost var before := steps;
      ghost var start := Progress(Now(), NOTHING, [], true);
      summary, ok, listed := NOTHING, false, [];
      assert before + [] == before;
      if poll.RequestLost? { return; }
      var acks := PollReady(before, poll);
      if acks.None? { return; }
      summary := NOTHING.(readyAcks := |acks.value|);
      ghost var p0 := Took(start, Poll(Filed(poll))).(summary := summary);
      summary, ok := AckAll(before, p0, summary, acks.value, acking);
      if !ok || !query.Answered? { return summary, false, []; }
      ghost var p := AckCycle(start.system, poll, acking);
      var transfers := PendingTransfers();
      listed := transfers;
      Record(Fetch);
      Fetched(p.system);
      summary := summary.(observed := |transfers|);
      summary, ok := DeliverAll(before, Took(p, Fetch).(summary := summary), summary, transfers, delivering);
    }
  }

  // ---- what a cycle did, read off its steps ------------------------------------------------------------------------

  /** A step without regard to whether the destination could write. */
  function BareStep(step: Step): Step {
    match step
    case Deliver(t, _) => Deliver(t, true)
    case Poll(_) => Poll(true)
    case ConfirmAck(id, _) => ConfirmAck(id, true)
    case _ => step
  }

  function Bare(steps: seq<Step>): seq<Step> {
    seq(|steps|, i requires 0 <= i < |steps| => BareStep(steps[i]))
  }

  lemma BareNext(steps: seq<Step>, step: Step)
    ensures Bare(steps + [step]) == Bare(steps) + [BareStep(step)]
  {
  }

  /** The steps that settle acknowledgements, two each. */
  function AckSteps(acks: seq<AckRecord>): seq<Step> {
    if acks == [] then []
    else
      var a := acks[|acks| - 1];
      AckSteps(acks[..|acks| - 1]) + [Apply(a), ConfirmAck(a.transferID, true)]
  }

  function DeliverSteps(ts: seq<Transfer>): (steps: seq<Step>)
    ensures |steps| == |ts|
  {
    seq(|ts|, i requires 0 <= i < |ts| => Deliver(ts[i], true))
  }

  /** How many of the acknowledgements have the status. */
  function Counted(acks: seq<AckRecord>, status: AckStatus): nat {
    if acks == [] then 0
    else Counted(acks[..|acks| - 1], status) + if acks[|acks| - 1].status == status then 1 else 0
  }

  /** The counters after the first `n` acknowledgements have been applied. */
  ghost predicate Tallies(m: Summary, acks: seq<AckRecord>, n: nat)
    requires n <= |acks|
  {
    && m.completed == Counted(acks[..n], AckCompleted) && m.failed == Counted(acks[..n], AckFailed)
    && m.timedOut == Counted(acks[..n], AckTimedOut) && Settled(m) == n
  }

  /**
    How far the first loop got: `k` of its steps were taken, and the summary counts as settled all
    acknowledgements those steps applied, but for one applied last whose answer never came or was a refusal.
   */
  ghost predicate AckedSoFar(p: Progress, q: Progress, acks: seq<AckRecord>, n: nat, k: nat)
    requires n <= |acks|
  {
    && k <= |AckSteps(acks)| && Bare(q.steps) == Bare(p.steps) + AckSteps(acks)[..k]
    && q.summary == p.summary.(completed := q.summary.completed, failed := q.summary.failed,
        timedOut := q.summary.timedOut)
    && Tallies(q.summary, acks, n) && 2 * n <= k + 1 && k <= 2 * n + 1
    && (q.ok ==> k == 2 * n)
  }

  lemma {:induction false} AckStepsLength(acks: seq<AckRecord>)
    ensures |AckSteps(acks)| == 2 * |acks|
  {
    if acks != [] { AckStepsLength(acks[..|acks| - 1]); }
  }

  lemma AckStepsFront(acks: seq<AckRecord>, k: nat)
    requires acks != [] && k <= 2 * (|acks| - 1)
    ensures k <= |AckSteps(acks)| && k <= |AckSteps(acks[..|acks| - 1])|
    ensures AckSteps(acks)[..k] == AckSteps(acks[..|acks| - 1])[..k]
  {
    AckStepsLength(acks);
    AckStepsLength(acks[..|acks| - 1]);
  }

  lemma CountedNext(acks: seq<AckRecord>, n: nat, status: AckStatus)
    requires n < |acks|
    ensures Counted(acks[..n + 1], status) == Counted(acks[..n], status) + if acks[n].status == status then 1 else 0
  {
    assert acks[..n + 1][..n] == acks[..n];
  }

  /** Nothing, the application, or application and confirmation; counted once the router has answered. */
  lemma AckOneShape(q: Progress, a: AckRecord, applying: Wired, confirming: Wired)
    ensures var r := AckOne(q, a, applying, confirming);
      var both := [Apply(a), ConfirmAck(a.transferID, true)];
      || (!r.ok && r.summary == q.summary
          && (Bare(r.steps) == Bare(q.steps) || Bare(r.steps) == Bare(q.steps) + both[..1]))
      || (VerdictOf(a).Some? && r.summary == Recorded(q.summary, a.status)
          && ((!r.ok && Bare(r.steps) == Bare(q.steps) + both[..1]) || Bare(r.steps) == Bare(q.steps) + both))
  {
    hide Next, R.PendingError, SetAckError, Recorded, Bare;
    var both := [Apply(a), ConfirmAck(a.transferID, true)];
    assert both[..1] == [Apply(a)];
    BareNext(q.steps, Apply(a));
    BareNext(q.steps + [Apply(a)], ConfirmAck(a.transferID, Filed(confirming)));
    assert Bare(q.steps) + [Apply(a)] + [ConfirmAck(a.transferID, true)] == Bare(q.steps) + both;
  }

  lemma AckOneDoes(p: Progress, q: Progress, acks: seq<AckRecord>, applying: Wired, confirming: Wired)
    returns (n: nat, k: nat)
    requires acks != [] && q.ok && AckedSoFar(p, q, acks[..|acks| - 1], |acks| - 1, 2 * (|acks| - 1))
    ensures n <= |acks| && AckedSoFar(p, AckOne(q, acks[|acks| - 1], applying, confirming), acks, n, k)
    ensures AckOne(q, acks[|acks| - 1], applying, confirming).ok ==> n == |acks|
  {
    hide AckOne, VerdictOf, Counted, Settled, Recorded, Bare;
    var m := |acks| - 1;
    var front, a := acks[..m], acks[m];
    var r := AckOne(q, a, applying, confirming);
    var both := [Apply(a), ConfirmAck(a.transferID, true)];
    AckStepsLength(front);
    AckStepsLength(acks);
    assert front[..m] == front && acks[..m + 1] == acks;
    assert Bare(q.steps) == Bare(p.steps) + AckSteps(front) by { assert AckSteps(front)[..2 * m] == AckSteps(front); }
    assert AckSteps(acks) == AckSteps(front) + both;
    AckOneShape(q, a, applying, confirming);
    VerdictCounts(q.summary, a);
    hide AckSteps;
    if r.summary == q.summary {
      n, k := m, if Bare(r.steps) == Bare(q.steps) then 2 * m else 2 * m + 1;
    } else {
      n, k := m + 1, if Bare(r.steps) == Bare(q.steps) + both then 2 * m + 2 else 2 * m + 1;
      TalliesNext(q.summary, acks, m);
    }
    assert Bare(r.steps) == Bare(p.steps) + AckSteps(acks)[..k];
  }

  lemma TalliesNext(m: Summary, acks: seq<AckRecord>, n: nat)
    requires n < |acks| && Tallies(m, acks, n) && VerdictOf(acks[n]).Some?
    ensures Tallies(Recorded(m, acks[n].status), acks, n + 1)
  {
    hide Counted;
    CountedNext(acks, n, AckCompleted);
    CountedNext(acks, n, AckFailed);
    CountedNext(acks, n, AckTimedOut);
  }

  lemma VerdictCounts(m: Summary, a: AckRecord)
    ensures VerdictOf(a).Some? ==> Settled(Recorded(m, a.status)) == Settled(m) + 1
    ensures var r := Recorded(m, a.status);
      r == m.(completed := r.completed, failed := r.failed, timedOut := r.timedOut)
  {
  }

  lemma {:induction false} AckFirstDoes(p: Progress, acks: seq<AckRecord>, net: nat -> Wired) returns (n: nat, k: nat)
    requires p.ok && Settled(p.summary) == 0
    ensures n <= |acks| && AckedSoFar(p, AckFirst(p, acks, net, |acks|), acks, n, k)
    ensures AckFirst(p, acks, net, |acks|).ok ==> n == |acks|
    decreases |acks|
  {
    hide AckOne, AckSteps, Counted;
    if acks == [] {
      n, k := 0, 0;
      NothingCounted();
      assert Bare(p.steps) + [] == Bare(p.steps);
    } else {
      var m := |acks| - 1;
      n, k := AckFirstDoes(p, acks[..m], net);
      AckFirstSame(p, acks, acks[..m], net, m);
      var q := AckFirst(p, acks, net, m);
      if q.ok {
        n, k := AckOneDoes(p, q, acks, net(2 * m + 1), net(2 * m + 2));
      } else {
        AckStepsLength(acks[..m]);
        AckStepsFront(acks, k);
        assert acks[..m][..n] == acks[..n];
      }
    }
  }

  lemma NothingCounted()
    ensures forall status :: Counted([], status) == 0
    ensures AckSteps([]) == []
  {
  }

  lemma {:induction false} AckFirstSame(p: Progress, acks: seq<AckRecord>, front: seq<AckRecord>, net: nat -> Wired,
                                        n: nat)
    requires n <= |front| && front <= acks
    ensures AckFirst(p, acks, net, n) == AckFirst(p, front, net, n)
  {
    hide AckOne;
    if n > 0 { AckFirstSame(p, acks, front, net, n - 1); }
  }

  /** How far the second loop got: `d` deliveries answered, and at most one more taken. */
  lemma {:induction false} DeliverFirstDoes(p: Progress, ts: seq<Transfer>, net: nat -> Wired, n: nat) returns (k: nat)
    requires p.ok && p.summary.delivered == p.summary.received == 0 && n <= |ts|
    ensures var q := DeliverFirst(p, ts, net, n);
      && k <= n && Bare(q.steps) == Bare(p.steps) + DeliverSteps(ts)[..k]
      && q.summary == p.summary.(delivered := q.summary.delivered, received := q.summary.delivered)
      && q.summary.delivered <= k <= q.summary.delivered + 1
      && (q.ok ==> k == n == q.summary.delivered)
  {
    hide Next, BuildEnvelope, Bare;
    if n == 0 {
      k := 0;
      assert Bare(p.steps) + [] == Bare(p.steps);
    } else {
      k := DeliverFirstDoes(p, ts, net, n - 1);
      var before := DeliverFirst(p, ts, net, n - 1);
      if before.ok && !net(n - 1).RequestLost? {
        k := n;
        assert DeliverSteps(ts)[..n] == DeliverSteps(ts)[..n - 1] + [Deliver(ts[n - 1], true)];
        BareNext(before.steps, Deliver(ts[n - 1], Filed(net(n - 1))));
      }
    }
  }

  /** Everything a cycle could do. */
  function Plan(acks: seq<AckRecord>, ts: seq<Transfer>): seq<Step> {
    [Poll(true)] + AckSteps(acks) + [Fetch] + DeliverSteps(ts)
  }

  /** The first `k` steps of the plan were taken and `n` acknowledgements counted as settled. */
  ghost predicate Accounted(p: Progress, acks: seq<AckRecord>, ts: seq<Transfer>, n: nat, k: nat) {
    && n <= |acks| && k <= |Plan(acks, ts)| && Bare(p.steps) == Plan(acks, ts)[..k]
    && Tallies(p.summary, acks, n) && p.summary.received == p.summary.delivered
    && (k <= 1 + 2 * |acks| ==> 2 * n <= k <= 2 * n + 2 && p.summary.delivered == p.summary.observed == 0)
    && (k > 1 + 2 * |acks| ==>
          n == |acks| == p.summary.readyAcks && p.summary.observed == |ts|
          && p.summary.delivered <= k - 2 - 2 * |acks| <= p.summary.delivered + 1)
    && (p.ok ==> k == |Plan(acks, ts)| && p.summary.delivered == |ts|)
  }

  /**
    What a cycle amounts to. When it succeeds it has polled, applied and confirmed every acknowledgement
    listed, queried, and delivered every transfer listed, in that order and nothing else, and its counters
    are the numbers of those. When it stops early it has taken a prefix of that, and each counter is the
    number of steps of its kind, or one less when the last step taken brought no answer or a refusal.
   */
  lemma CycleDoes(s: System, poll: Wired, acking: nat -> Wired, query: Wired, ts: seq<Transfer>,
                  delivering: nat -> Wired)
    returns (n: nat, k: nat)
    ensures Accounted(Cycle(s, poll, acking, query, ts, delivering), Listed(s), ts, n, k)
  {
    hide Next, AckFirst, DeliverFirst, AckSteps, DeliverSteps, Tallies, Listed, Accounted, Plan;
    var acks := Listed(s);
    assert Bare([Poll(Filed(poll))]) == [Poll(true)];
    if !poll.RequestLost? && Heard(poll, s.durable && Waiting(s.target.packets)) {
      var start := Took(Progress(s, NOTHING, [], true), Poll(Filed(poll))).(summary := NOTHING.(readyAcks := |acks|));
      assert start.steps == [Poll(Filed(poll))];
      var j: nat;
      n, j := AckFirstDoes(start, acks, acking);
      var q := AckFirst(start, acks, acking, |acks|);
      if q.ok && query.Answered? {
        k := QueryDoes(start, q, acks, ts, delivering, j);
      } else {
        k := 1 + j;
        StoppedBefore(start, q, acks, ts, n, j);
      }
    } else {
      var p := AckCycle(s, poll, acking);
      n, k := 0, |p.steps|;
      StoppedAtPoll(p, acks, ts);
    }
  }

  lemma StoppedAtPoll(p: Progress, acks: seq<AckRecord>, ts: seq<Transfer>)
    requires Bare(p.steps) == [] || Bare(p.steps) == [Poll(true)]
    requires !p.ok && p.summary == NOTHING
    ensures Accounted(p, acks, ts, 0, |p.steps|)
  {
    hide Plan, Tallies;
    PlanStarts(acks, ts);
    NoneTallied(NOTHING, acks);
  }

  lemma NoneTallied(m: Summary, acks: seq<AckRecord>)
    requires m.completed == m.failed == m.timedOut == 0
    ensures Tallies(m, acks, 0)
  {
    var none := acks[..0];
    assert none == [];
    assert Counted(none, AckCompleted) == Counted(none, AckFailed) == Counted(none, AckTimedOut) == 0;
  }

  lemma PlanStarts(acks: seq<AckRecord>, ts: seq<Transfer>)
    ensures |Plan(acks, ts)| >= 2 && Plan(acks, ts)[..0] == [] && Plan(acks, ts)[..1] == [Poll(true)]
  {
    hide AckSteps, DeliverSteps;
  }

  lemma StoppedBefore(start: Progress, q: Progress, acks: seq<AckRecord>, ts: seq<Transfer>, n: nat, j: nat)
    requires Bare(start.steps) == [Poll(true)] && start.summary == NOTHING.(readyAcks := |acks|)
    requires n <= |acks| && AckedSoFar(start, q, acks, n, j)
    ensures Accounted(q.(ok := false), acks, ts, n, 1 + j)
  {
    hide AckSteps, DeliverSteps, Counted;
    AckStepsLength(acks);
    assert Plan(acks, ts)[..1 + j] == [Poll(true)] + AckSteps(acks)[..j];
  }

  lemma QueryDoes(start: Progress, q: Progress, acks: seq<AckRecord>, ts: seq<Transfer>, delivering: nat -> Wired,
                  j: nat)
    returns (k: nat)
    requires Bare(start.steps) == [Poll(true)] && start.summary == NOTHING.(readyAcks := |acks|)
    requires q.ok && AckedSoFar(start, q, acks, |acks|, j)
    ensures var asked := Took(q, Fetch).(summary := q.summary.(observed := |ts|));
      Accounted(DeliverFirst(asked, ts, delivering, |ts|), acks, ts, |acks|, k)
  {
    hide AckSteps, DeliverSteps, Counted, DeliverFirst, Next, Bare;
    AckStepsLength(acks);
    assert AckSteps(acks)[..j] == AckSteps(acks);
    var asked := Took(q, Fetch).(summary := q.summary.(observed := |ts|));
    BareNext(q.steps, Fetch);
    var d := DeliverFirstDoes(asked, ts, delivering, |ts|);
    k := 2 + 2 * |acks| + d;
    assert Plan(acks, ts)[..k] == [Poll(true)] + AckSteps(acks) + [Fetch] + DeliverSteps(ts)[..d];
  }

  lemma {:induction false} AckStops(p: Progress, acks: seq<AckRecord>, net: nat -> Wired, n: nat, m: nat)
    requires n <= m <= |acks| && !AckFirst(p, acks, net, n).ok
    ensures AckFirst(p, acks, net, m) == AckFirst(p, acks, net, n)
  {
    hide AckOne;
    if n < m { AckStops(p, acks, net, n, m - 1); }
  }

  lemma {:induction false} DeliverStops(p: Progress, ts: seq<Transfer>, net: nat -> Wired, n: nat, m: nat)
    requires n <= m <= |ts| && !DeliverFirst(p, ts, net, n).ok
    ensures DeliverFirst(p, ts, net, m) == DeliverFirst(p, ts, net, n)
  {
    hide DeliverOne;
    if n < m { DeliverStops(p, ts, net, n, m - 1); }
  }

  lemma Polled(s: System, writes: bool)
    ensures var t := Next(s, Poll(writes));
      && t.router == s.router && t.target == AdvanceFirst(s.target, |s.target.packets|) && t.durable == s.durable
      && t.saved.target == (if Waiting(s.target.packets) && Writes(s.durable, writes) then t.target else s.saved.target)
      && (!Waiting(s.target.packets) || Reports(s.durable, writes) ==>
            forall a | a in ReadyRecords(t.target.packets) :: a in t.acks)
  {
    hide ReadyRecords, Waiting, Backed, PollFirst;
    PollFirstTouches(s, |s.target.packets|);
  }

  lemma Answer(w: Wired, durable: bool)
    ensures Reports(durable, Filed(w)) && !w.AnswerLost? && !w.RequestLost? <==> Heard(w, durable)
  {
  }

  lemma Applied(s: System, a: AckRecord)
    requires a in s.acks && VerdictOf(a).Some?
    ensures Next(s, Apply(a)) == s.(router := R.Acknowledge(s.router, a.transferID, VerdictOf(a).value))
  {
    hide R.Acknowledge;
  }

  lemma Confirmed(s: System, id: string, writes: bool)
    ensures var t := Next(s, ConfirmAck(id, writes));
      && t == s.(target := SetAck(s.target, id, Confirm), saved := t.saved)
      && t.saved.target == if SetAckError(s.target, id, Confirm).None? && Writes(s.durable, writes) then t.target
                           else s.saved.target
  {
    hide SetAckError;
  }

  lemma Delivered(s: System, x: Transfer, writes: bool)
    requires x in s.seen
    ensures var t := Next(s, Deliver(x, writes));
      && t == s.(target := Receive(s.target, x), saved := t.saved)
      && t.saved.target == if BuildEnvelope(x).Ok? && Writes(s.durable, writes) then t.target else s.saved.target
  {
    hide BuildEnvelope, ReceiveEnvelope;
  }

  lemma Fetched(s: System)
    ensures Next(s, Fetch) == s.(seen := s.seen + PendingWires(s.router))
  {
  }
}
