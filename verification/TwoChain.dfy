/** Source router, relayer and destination runtime as one state machine of separately failing steps. */
module TwoChain {
  import opened Base
  import opened Text
  import opened RouteAction
  import R = Router
  import opened Destination
  import opened DestinationLaws

  /** A transfer as the relayer's query prints it. */
  function Wire(t: R.TransferRecord): Transfer {
    Transfer(t.transferID, t.assetID, Render(t.amount), t.receiver, t.chainID, t.channelID, t.denom, t.timeoutHeight,
      t.memo)
  }

  /** One execution on the destination: the books it found and all it did. */
  datatype Entry = Entry(id: string, before: Books, effect: Effect)

  /** What the destination's file holds, and the history that led to it. */
  datatype Saved = Saved(target: TargetState, log: seq<Entry>)

  /**
    `seen` holds every transfer a query ever returned and `acks` every acknowledgement a poll ever returned:
    a message, once sent, may arrive at any later time, any number of times, or never. `target` is the
    destination in memory; `log` is history only, and so is `careless`: whether a poll ever listed an
    acknowledgement that the file did not bear out.
   */
  datatype System = System(
    router: R.RouterState, target: TargetState, seen: set<Transfer>, acks: set<AckRecord>, start: Books,
    log: seq<Entry>, durable: bool, saved: Saved, careless: bool)

  /**
    `writes` says whether the destination's state file could be written. An initiation that the source takes
    back at once, before anyone sees it, uses up a sequence number and nothing else.
   */
  datatype Step =
    | Source(op: R.RouterOp)
    | TakenBack
    | Fetch
    | Deliver(transfer: Transfer, writes: bool)
    | Poll(writes: bool)
    | Apply(ack: AckRecord)
    | ConfirmAck(id: string, writes: bool)
    | Crash

  function Fresh(books: Books, durable: bool): System {
    var start := Defaults(books);
    var target := TargetState(Success, [], [], start);
    System(R.EmptyRouter(), target, {}, {}, start, [], durable, Saved(target, []), false)
  }

  function PendingIDs(r: R.RouterState): set<string> {
    set id | id in r.transfers && r.transfers[id].status == R.Pending
  }

  function PendingWires(r: R.RouterState): set<Transfer> {
    set id | id in r.transfers && r.transfers[id].status == R.Pending :: Wire(r.transfers[id])
  }

  /** `applyAck`: which of the three router calls a status selects. */
  function VerdictOf(a: AckRecord): Option<R.Verdict> {
    match a.status
    case AckCompleted => Some(R.AckSuccess)
    case AckFailed => Some(R.AckFailure(a.reason))
    case AckTimedOut => Some(R.Timeout)
    case _ => None
  }

  function ApplyAck(s: System, a: AckRecord): System {
    if VerdictOf(a).None? then s else s.(router := R.Acknowledge(s.router, a.transferID, VerdictOf(a).value))
  }

  function EntryAt(s: TargetState, i: nat): Entry
    requires i < |s.packets|
  {
    Entry(s.packets[i].transferID, EnsurePools(s.books), EffectAt(s, i))
  }

  /** A poll advances the packets one by one; each execution is written to the history. */
  function PollOne(s: System, i: nat): (s': System)
    requires i < |s.target.packets|
    ensures s'.target == AdvanceOne(s.target, i)
  {
    var executes := s.target.packets[i].state == Received && s.target.mode != TimeoutMode;
    s.(target := AdvanceOne(s.target, i), log := s.log + if executes then [EntryAt(s.target, i)] else [])
  }

  function PollFirst(s: System, n: nat): (s': System)
    requires n <= |s.target.packets|
    ensures s'.target == AdvanceFirst(s.target, n)
  {
    if n == 0 then s else PollOne(PollFirst(s, n - 1), n - 1)
  }

  function Flushed(s: System, writes: bool): System {
    if Writes(s.durable, writes) then s.(saved := Saved(s.target, s.log)) else s
  }

  /** Everything a poll would list is on file as well, with the same outcome. */
  predicate Backed(s: System) {
    forall i | 0 <= i < |s.target.packets| && Ready(s.target.packets[i]) ::
      OnFile(s.saved.target.packets, s.target.packets[i])
  }

  predicate OnFile(ps: seq<Packet>, p: Packet) {
    exists j | 0 <= j < |ps| ::
      ps[j].transferID == p.transferID && ps[j].state != Received && ps[j].ackPayload == p.ackPayload
  }

  function ListAll(s: System): System {
    s.(acks := s.acks + (set a | a in ReadyRecords(s.target.packets)), careless := s.careless || !Backed(s))
  }

  /** A poll that executed something writes before it lists, and lists nothing when that fails. */
  function PollAll(s: System, writes: bool): System {
    var s' := PollFirst(s, |s.target.packets|);
    if !Waiting(s.target.packets) then ListAll(s')
    else if !Reports(s.durable, writes) then s'
    else ListAll(Flushed(s', writes))
  }

  function Crashed(s: System): System {
    s.(target := Loaded(s.saved.target.mode, [], Some(s.saved.target)), log := s.saved.log)
  }

  function Skipped(r: R.RouterState): R.RouterState {
    r.(nextSequence := Add64(r.nextSequence, 1))
  }

  /** A step whose message was never sent does nothing; the source's own users never acknowledge. */
  function Next(s: System, step: Step): System {
    match step
    case Source(op) => if op.OpAcknowledge? then s else s.(router := R.RouterStep(s.router, op))
    case TakenBack => s.(router := Skipped(s.router))
    case Fetch => s.(seen := s.seen + PendingWires(s.router))
    case Deliver(t, writes) =>
      if t in s.seen && BuildEnvelope(t).Ok? then Flushed(s.(target := Receive(s.target, t)), writes) else s
    case Poll(writes) => PollAll(s, writes)
    case Apply(a) => if a in s.acks then ApplyAck(s, a) else s
    case ConfirmAck(id, writes) =>
      if SetAckError(s.target, id, Confirm).Some? then s
      else Flushed(s.(target := SetAck(s.target, id, Confirm)), writes)
    case Crash => Crashed(s)
  }

  function Run(s: System, steps: seq<Step>): System {
    if steps == [] then s else Next(Run(s, steps[..|steps| - 1]), steps[|steps| - 1])
  }

  // ---- the invariant -------------------------------------------------------------------------------

  function EnvelopeOf(t: R.TransferRecord): Option<Envelope> {
    match BuildEnvelope(Wire(t))
    case Err(_) => None
    case Ok(e) => Some(NewPacket(e).envelope)
  }

  /** What is known about a transfer's message wherever it is: it is the router's own record. */
  ghost predicate Genuine(r: R.RouterState, id: string, e: Envelope) {
    id in r.transfers && r.transfers[id].transferID == id && EnvelopeOf(r.transfers[id]) == Some(e)
  }

  ghost predicate SeenOk(r: R.RouterState, seen: set<Transfer>) {
    forall t | t in seen :: t.transferID in r.transfers && Wire(r.transfers[t.transferID]) == t
  }

  ghost predicate PacketsOk(r: R.RouterState, ps: seq<Packet>) {
    && (forall i | 0 <= i < |ps| :: Genuine(r, ps[i].transferID, ps[i].envelope))
    && (forall i, j | 0 <= i < j < |ps| :: ps[i].transferID != ps[j].transferID)
  }

  ghost predicate BooksOk(b: Books) {
    PoolsHealthy(b.pools) && BalancesParse(b.balances) && b.balances != []
  }

  /** An execution is the execution of the router's transfer, on readable books. */
  ghost predicate EntryOk(r: R.RouterState, x: Entry) {
    && BooksOk(x.before)
    && x.id in r.transfers && EnvelopeOf(r.transfers[x.id]).Some?
    && x.effect == Execute(x.before, EnvelopeOf(r.transfers[x.id]).value)
  }

  function BooksAfter(start: Books, log: seq<Entry>): Books {
    if log == [] then start else log[|log| - 1].effect.books
  }

  ghost predicate LogOk(r: R.RouterState, start: Books, log: seq<Entry>) {
    && (forall k | 0 <= k < |log| :: EntryOk(r, log[k]) && log[k].before == BooksAfter(start, log[..k]))
    && (forall k, l | 0 <= k < l < |log| :: log[k].id != log[l].id)
  }

  ghost predicate Logged(log: seq<Entry>, id: string, a: Ack) {
    exists k :: 0 <= k < |log| && log[k].id == id && AckFor(log[k].effect) == a
  }

  function AckFor(fx: Effect): Ack {
    if fx.failure.Some? then Ack(AckFailed, fx.failure.value) else Ack(AckCompleted, "")
  }

  /** A received packet has not executed; any other carries the acknowledgement its one execution earned. */
  ghost predicate StateOk(log: seq<Entry>, p: Packet) {
    if p.state == Received then forall k | 0 <= k < |log| :: log[k].id != p.transferID
    else p.ackPayload.Some? && Logged(log, p.transferID, p.ackPayload.value)
  }

  ghost predicate AcksOk(log: seq<Entry>, acks: set<AckRecord>) {
    forall a | a in acks :: Logged(log, a.transferID, Ack(a.status, a.reason))
  }

  ghost predicate Succeeded(log: seq<Entry>, id: string) {
    exists k :: 0 <= k < |log| && log[k].id == id && log[k].effect.failure.None?
  }

  ghost predicate Failed(log: seq<Entry>, id: string) {
    exists k :: 0 <= k < |log| && log[k].id == id && log[k].effect.failure.Some?
  }

  ghost predicate StatusOk(log: seq<Entry>, id: string, status: R.TransferStatus) {
    match status
    case Pending => true
    case Completed => Succeeded(log, id)
    case AckFailed => Failed(log, id)
    case Refunded => Failed(log, id)
    case TimedOut => false
  }

  ghost predicate Inv(s: System) {
    && R.RouterInv(s.router)
    && s.target.mode == Success
    && SeenOk(s.router, s.seen)
    && PacketsOk(s.router, s.target.packets)
    && LogOk(s.router, s.start, s.log)
    && BooksOk(s.target.books) && s.target.books == BooksAfter(s.start, s.log)
    && s.target.executions == Executions(s.log)
    && (forall i | 0 <= i < |s.target.packets| :: StateOk(s.log, s.target.packets[i]))
    && (!s.careless ==> AcksOk(s.log, s.acks))
    && (!s.careless ==> forall id | id in s.router.transfers :: StatusOk(s.log, id, s.router.transfers[id].status))
  }

  function Executions(log: seq<Entry>): (xs: seq<Execution>)
    ensures |xs| == |log|
  {
    seq(|log|, k requires 0 <= k < |log| => log[k].effect.execution)
  }

  // ---- the router only grows ---------------------------------------------------------------------------

  /** Every transfer is still there and still the same message. */
  ghost predicate Grows(r: R.RouterState, r': R.RouterState) {
    forall id | id in r.transfers :: id in r'.transfers && Wire(r'.transfers[id]) == Wire(r.transfers[id])
  }

  lemma GrowsKeeps(s: System, r': R.RouterState)
    requires Inv(s) && Grows(s.router, r')
    requires forall id | id in s.router.transfers :: r'.transfers[id].transferID == s.router.transfers[id].transferID
    ensures SeenOk(r', s.seen) && PacketsOk(r', s.target.packets) && LogOk(r', s.start, s.log)
  {
    hide Wire, BuildEnvelope, Execute, BooksOk, R.RouterInv, AcksOk, StatusOk, StateOk, Executions;
  }

  /** Putting the invariant back together around a new router. */
  lemma NewRouter(s: System, r': R.RouterState)
    requires Inv(s) && R.RouterInv(r') && Grows(s.router, r')
    requires forall id | id in s.router.transfers :: r'.transfers[id].transferID == s.router.transfers[id].transferID
    requires !s.careless ==> forall id | id in r'.transfers :: StatusOk(s.log, id, r'.transfers[id].status)
    ensures Inv(s.(router := r'))
  {
    GrowsKeeps(s, r');
    hide SeenOk, PacketsOk, LogOk, R.RouterInv, AcksOk, StatusOk, StateOk, Executions, BooksOk, BooksAfter, Grows;
  }

  lemma InvRouter(s: System)
    requires Inv(s)
    ensures R.RouterInv(s.router) && (!s.careless ==> AcksOk(s.log, s.acks))
    ensures !s.careless ==> forall id | id in s.router.transfers :: StatusOk(s.log, id, s.router.transfers[id].status)
  {
    hide SeenOk, PacketsOk, LogOk, R.RouterInv, AcksOk, StatusOk, StateOk, Executions, BooksOk, BooksAfter;
  }

  lemma AdvancedGrows(r: R.RouterState, r': R.RouterState)
    requires forall id | id in r.transfers :: R.Advanced(r, r', id)
    ensures Grows(r, r') && forall id | id in r.transfers :: r'.transfers[id].transferID == r.transfers[id].transferID
  {
    forall id | id in r.transfers ensures id in r'.transfers && Wire(r'.transfers[id]) == Wire(r.transfers[id]) {
      assert R.Advanced(r, r', id);
    }
  }

  lemma RouterGrows(r: R.RouterState, op: R.RouterOp)
    requires R.RouterInv(r) && r.nextSequence < TWO_64 - 1
    ensures forall id | id in r.transfers :: R.Advanced(r, R.RouterStep(r, op), id)
  {
    hide R.RouterInv, R.RouterStep, R.Advanced;
    forall id | id in r.transfers ensures R.Advanced(r, R.RouterStep(r, op), id) {
      R.StatusOnlyAdvances(r, op, id);
    }
  }

  /** Without acknowledgements a transfer only starts pending or turns from failed to refunded. */
  lemma UserOpStatus(r: R.RouterState, op: R.RouterOp, id: string)
    requires R.RouterInv(r) && r.nextSequence < TWO_64 - 1 && !op.OpAcknowledge? && id in R.RouterStep(r, op).transfers
    ensures var now := R.RouterStep(r, op).transfers[id].status;
      && (id !in r.transfers ==> now == R.Pending)
      && (id in r.transfers && now != r.transfers[id].status ==>
            now == R.Refunded && (r.transfers[id].status == R.AckFailed || r.transfers[id].status == R.TimedOut))
  {
    hide Trim, R.ValidRoute, R.ValidProfile, R.CanonicalRoute, R.CanonicalProfile, R.SessionOf, R.Destination, R.Paired,
         R.TransferID;
    match op
    case OpInitiate(routeID, q) =>
      if R.InitiateError(r, routeID, q).None? {
        var (chainID, channelID, denom) := R.Destination(r, routeID, q).value;
        R.InitiateFresh(r, q, chainID, channelID, denom);
      }
    case OpRefund(other) => if Trim(other) in r.transfers { R.PairedAt(r, Trim(other)); }
    case OpStage(_, _) =>
    case OpRoute(_) =>
    case OpProfile(_) =>
  }

  lemma UserStep(s: System, op: R.RouterOp)
    requires Inv(s) && s.router.nextSequence < TWO_64 - 1 && !op.OpAcknowledge?
    ensures Inv(s.(router := R.RouterStep(s.router, op)))
  {
    hide Inv, R.RouterInv, R.RouterStep, R.Advanced, Grows;
    InvRouter(s);
    var r' := R.RouterStep(s.router, op);
    R.StepKeepsInv(s.router, op);
    RouterGrows(s.router, op);
    AdvancedGrows(s.router, r');
    if !s.careless {
      forall id | id in r'.transfers ensures StatusOk(s.log, id, r'.transfers[id].status) {
        UserOpStatus(s.router, op, id);
      }
    }
    NewRouter(s, r');
  }

  lemma SkippedInv(r: R.RouterState)
    requires R.RouterInv(r) && r.nextSequence < TWO_64 - 1
    ensures R.RouterInv(Skipped(r))
  {
    hide Trim, R.TransferID;
  }

  lemma SkipStep(s: System)
    requires Inv(s) && s.router.nextSequence < TWO_64 - 1
    ensures Inv(s.(router := Skipped(s.router)))
  {
    hide Inv, R.RouterInv, StatusOk;
    InvRouter(s);
    SkippedInv(s.router);
    NewRouter(s, Skipped(s.router));
  }

  // ---- applying an acknowledgement -----------------------------------------------------------------------

  lemma LoggedOutcome(log: seq<Entry>, id: string, a: Ack)
    requires Logged(log, id, a)
    ensures (a.status == AckCompleted && Succeeded(log, id)) || (a.status == AckFailed && Failed(log, id))
  {
  }

  /** A logged ID is a transfer's own, so trimming leaves it alone. */
  lemma IDIsTrimmed(r: R.RouterState, id: string)
    requires R.RouterInv(r) && id in r.transfers
    ensures Trim(id) == id && r.transfers[id].transferID == id && R.ParseSequence(id).Some?
  {
    hide Trim, R.TransferID, R.ParseSequence;
    R.PairedAt(r, id);
    R.SequenceParsesBack(r.transfers[id].assetID, r.sessions[id].sequence);
  }

  lemma ApplyStatus(r: R.RouterState, id: string, v: R.Verdict, log: seq<Entry>)
    requires R.RouterInv(r) && forall x | x in r.transfers :: StatusOk(log, x, r.transfers[x].status)
    requires (v.AckSuccess? && Succeeded(log, id)) || (v.AckFailure? && Failed(log, id))
    requires Trim(id) == id
    ensures forall x | x in R.Acknowledge(r, id, v).transfers ::
      StatusOk(log, x, R.Acknowledge(r, id, v).transfers[x].status)
  {
    hide Trim, Succeeded, Failed, R.Paired, R.SessionOf, R.SettleSession, R.RouterInv;
    if R.PendingError(r, id).None? { R.PairedAt(r, id); }
  }

  lemma ApplyStep(s: System, a: AckRecord)
    requires Inv(s) && a in s.acks && s.router.nextSequence < TWO_64 - 1
    ensures Inv(ApplyAck(s, a))
  {
    hide Inv, R.RouterInv, R.Advanced, Grows, R.Acknowledge, Trim, StatusOk;
    if VerdictOf(a).Some? {
      InvRouter(s);
      var v := VerdictOf(a).value;
      var op := R.OpAcknowledge(a.transferID, v);
      var r' := R.Acknowledge(s.router, a.transferID, v);
      assert R.RouterStep(s.router, op) == r';
      R.AcknowledgeKeepsInv(s.router, a.transferID, v);
      RouterGrows(s.router, op);
      hide R.RouterStep;
      AdvancedGrows(s.router, r');
      if !s.careless { AppliedStatus(s, a); }
      NewRouter(s, r');
    }
  }

  lemma AppliedStatus(s: System, a: AckRecord)
    requires Inv(s) && !s.careless && a in s.acks && VerdictOf(a).Some?
    ensures var r' := R.Acknowledge(s.router, a.transferID, VerdictOf(a).value);
      forall id | id in r'.transfers :: StatusOk(s.log, id, r'.transfers[id].status)
  {
    hide Inv, R.RouterInv, R.Acknowledge, Trim, Logged, StatusOk, Succeeded, Failed;
    InvRouter(s);
    LoggedOutcome(s.log, a.transferID, Ack(a.status, a.reason));
    NamedInLog(s, a.transferID, Ack(a.status, a.reason));
    IDIsTrimmed(s.router, a.transferID);
    ApplyStatus(s.router, a.transferID, VerdictOf(a).value, s.log);
  }

  // ---- querying, delivering and confirming ---------------------------------------------------------------

  lemma WireID(t: R.TransferRecord)
    ensures Wire(t).transferID == t.transferID
  {
  }

  lemma PendingSeen(s: System)
    requires Inv(s)
    ensures SeenOk(s.router, PendingWires(s.router))
  {
    hide Inv, R.RouterInv, AcksOk, StatusOk, Trim, R.ParseSequence;
    InvRouter(s);
    forall t | t in PendingWires(s.router)
      ensures t.transferID in s.router.transfers && Wire(s.router.transfers[t.transferID]) == t
    {
      var id :| id in s.router.transfers && Wire(s.router.transfers[id]) == t;
      IDIsTrimmed(s.router, id);
      WireID(s.router.transfers[id]);
    }
  }

  lemma FetchStep(s: System)
    requires Inv(s)
    ensures Inv(s.(seen := s.seen + PendingWires(s.router)))
  {
    PendingSeen(s);
    hide R.RouterInv, PacketsOk, LogOk, BooksOk, StateOk, AcksOk, Executions, BooksAfter, StatusOk, Wire, PendingWires;
  }

  lemma NotLogged(s: System, id: string)
    requires Inv(s) && forall i | 0 <= i < |s.target.packets| :: s.target.packets[i].transferID != id
    requires LoggedHavePackets(s)
    ensures forall k | 0 <= k < |s.log| :: s.log[k].id != id
  {
    hide Inv;
  }

  /** Nothing executed without a packet. */
  ghost predicate LoggedHavePackets(s: System) {
    forall k | 0 <= k < |s.log| :: HasPacket(s.target.packets, s.log[k].id)
  }

  ghost predicate HasPacket(ps: seq<Packet>, id: string) {
    exists i :: 0 <= i < |ps| && ps[i].transferID == id
  }

  lemma SamePackets(ps: seq<Packet>, qs: seq<Packet>, id: string)
    requires HasPacket(ps, id) && |qs| == |ps| && forall i | 0 <= i < |ps| :: qs[i].transferID == ps[i].transferID
    ensures HasPacket(qs, id)
  {
    var i :| 0 <= i < |ps| && ps[i].transferID == id;
    assert qs[i].transferID == id;
  }

  lemma DeliverStep(s: System, t: Transfer)
    requires Inv(s) && LoggedHavePackets(s) && t in s.seen
    ensures Inv(s.(target := Receive(s.target, t))) && LoggedHavePackets(s.(target := Receive(s.target, t)))
  {
    hide Inv, BuildEnvelope, Trim, LoggedHavePackets, NewPacket, Genuine;
    if BuildEnvelope(t).Ok? {
      var p := NewPacket(BuildEnvelope(t).value);
      ArrivingPacket(s, t);
      if FindPacket(s.target.packets, p.transferID) == |s.target.packets| {
        NotLogged(s, p.transferID);
        AppendPacket(s, p);
      }
    }
  }

  lemma ArrivingPacket(s: System, t: Transfer)
    requires Inv(s) && t in s.seen && BuildEnvelope(t).Ok?
    ensures var p := NewPacket(BuildEnvelope(t).value);
      && p.transferID == t.transferID == BuildEnvelope(t).value.transferID == Trim(t.transferID)
      && Genuine(s.router, p.transferID, p.envelope) && p.state == Received
  {
    hide Inv, Trim, R.RouterInv, AcksOk, StatusOk, Wire;
    SeenIs(s, t);
    InvRouter(s);
    IDIsTrimmed(s.router, t.transferID);
    assert BuildEnvelope(t).value.transferID == t.transferID by { hide ParseMemo, R.ParseSequence, ActionText; }
    hide BuildEnvelope;
  }

  lemma SeenIs(s: System, t: Transfer)
    requires Inv(s) && t in s.seen
    ensures t.transferID in s.router.transfers && Wire(s.router.transfers[t.transferID]) == t
  {
    hide R.RouterInv, PacketsOk, LogOk, BooksOk, AcksOk, Executions, BooksAfter, StatusOk, StateOk, Wire;
  }

  lemma AppendPacket(s: System, p: Packet)
    requires Inv(s) && LoggedHavePackets(s)
    requires Genuine(s.router, p.transferID, p.envelope) && p.state == Received
    requires forall i | 0 <= i < |s.target.packets| :: s.target.packets[i].transferID != p.transferID
    requires forall k | 0 <= k < |s.log| :: s.log[k].id != p.transferID
    ensures Inv(s.(target := s.target.(packets := s.target.packets + [p])))
    ensures LoggedHavePackets(s.(target := s.target.(packets := s.target.packets + [p])))
  {
    hide R.RouterInv, SeenOk, LogOk, BooksOk, AcksOk, Executions, BooksAfter, StatusOk, Genuine, Logged;
    var ps := s.target.packets + [p];
    assert forall i | 0 <= i < |s.target.packets| :: ps[i] == s.target.packets[i];
    assert StateOk(s.log, p);
    hide StateOk;
    forall k | 0 <= k < |s.log| ensures HasPacket(ps, s.log[k].id) {
      assert HasPacket(s.target.packets, s.log[k].id);
      var i :| 0 <= i < |s.target.packets| && s.target.packets[i].transferID == s.log[k].id;
      assert ps[i].transferID == s.log[k].id;
    }
  }

  /** Replacing one packet by another of the same message whose state fits the log. */
  lemma ReplacePacket(s: System, i: nat, p: Packet)
    requires Inv(s) && LoggedHavePackets(s) && i < |s.target.packets| && StateOk(s.log, p)
    requires p.transferID == s.target.packets[i].transferID && p.envelope == s.target.packets[i].envelope
    ensures var s' := s.(target := PutPacket(s.target, i, p)); Inv(s') && LoggedHavePackets(s')
  {
    hide R.RouterInv, SeenOk, LogOk, BooksOk, AcksOk, Executions, BooksAfter, StatusOk, Genuine, StateOk;
    var ps := s.target.packets[i := p];
    assert forall j | 0 <= j < |ps| ::
      ps[j].transferID == s.target.packets[j].transferID && ps[j].envelope == s.target.packets[j].envelope;
    hide HasPacket;
    forall k | 0 <= k < |s.log| ensures HasPacket(ps, s.log[k].id) {
      SamePackets(s.target.packets, ps, s.log[k].id);
    }
  }

  lemma ConfirmStep(s: System, id: string)
    requires Inv(s) && LoggedHavePackets(s)
    ensures var s' := s.(target := SetAck(s.target, id, Confirm)); Inv(s') && LoggedHavePackets(s')
  {
    hide Trim, FindPacket, Inv, LoggedHavePackets, StateOk;
    if SetAckError(s.target, id, Confirm).None? {
      var i := FindPacket(s.target.packets, id);
      ConfirmedState(s, i);
      ReplacePacket(s, i, s.target.packets[i].(state := AckRelayed, ackRelayed := true));
    }
  }

  lemma ConfirmedState(s: System, i: nat)
    requires Inv(s) && i < |s.target.packets| && s.target.packets[i].state == AckReady
    ensures StateOk(s.log, s.target.packets[i].(state := AckRelayed, ackRelayed := true))
  {
    hide R.RouterInv, SeenOk, PacketsOk, LogOk, BooksOk, Executions, BooksAfter, StatusOk, AcksOk, Logged;
    assert StateOk(s.log, s.target.packets[i]);
  }

  // ---- polling -------------------------------------------------------------------------------------------------

  /** Executing a transfer's message on readable books leaves readable books. */
  lemma ExecuteKeepsBooks(b: Books, e: Envelope)
    requires BooksOk(b) && Parse(e.amount).Some?
    ensures BooksOk(Execute(b, e).books)
  {
    ExecuteKeepsMarket(b, e);
    ExecuteKeepsParse(b, e);
    ExecuteKeepsHolders(b, e);
    hide Execute, BalancesParse, PoolsHealthy;
  }

  lemma ExecuteKeepsHolders(b: Books, e: Envelope)
    requires b.balances != []
    ensures Execute(b, e).books.balances != []
  {
    hide Trim, Parse, Render, SwapIn, SwapText, Recipient, PathOf, FindBalance;
  }

  lemma ExecuteKeepsParse(b: Books, e: Envelope)
    requires BalancesParse(b.balances) && Parse(e.amount).Some?
    ensures BalancesParse(Execute(b, e).books.balances)
  {
    TrimKeepsParse(e.amount);
    hide Trim, Parse, Render, SwapIn, Credit, SwapText, Recipient, PathOf, BalancesParse, PoolsHealthy;
    if SwapEnvelope(e) {
      var a := e.action.value;
      if SwapIn(b.pools, e.denom, e.amount, a).Ok? {
        var out := SwapIn(b.pools, e.denom, e.amount, a).value.1;
        ParseRendered(out);
        if Credit(b.balances, Recipient(e), a.targetDenom, Render(out)).Ok? {
          CreditKeepsParse(b.balances, Recipient(e), a.targetDenom, Render(out));
        }
      }
    } else if Credit(b.balances, Recipient(e), e.denom, Trim(e.amount)).Ok? {
      CreditKeepsParse(b.balances, Recipient(e), e.denom, Trim(e.amount));
    }
  }

  lemma EnvelopeFields(t: R.TransferRecord)
    requires EnvelopeOf(t).Some?
    ensures var e := EnvelopeOf(t).value;
      && e.transferID == t.transferID && e.amount == Render(t.amount) && Parse(e.amount) == Some(t.amount)
      && R.ParseSequence(t.transferID) == Some(e.sequence)
      && e.receiver == Trim(t.receiver) != "" && e.denom == Trim(t.denom) && e.chainID == t.chainID
      && (Trim(e.actionError) == "" <==> !ParseMemo(t.memo).Bad?)
      && e.action == if ParseMemo(t.memo).Do? then Some(ParseMemo(t.memo).action) else None
  {
    hide Trim, Render, ParseMemo, ActionText, ParseInt, Parse, R.ParseSequence;
    AmountReads(t.amount);
    ErrorShows(ParseMemo(t.memo));
  }

  lemma AmountReads(n: int)
    ensures Trim(Render(n)) == Render(n) && Parse(Render(n)) == Some(n)
  {
    ParseRender(n);
    ParseRendered(n);
  }

  /** Writing one execution to the history. */
  lemma LogEntry(s: System, i: nat, x: Entry, p: Packet)
    requires Inv(s) && LoggedHavePackets(s) && i < |s.target.packets| && s.target.packets[i].state == Received
    requires x.id == s.target.packets[i].transferID && EntryOk(s.router, x) && x.before == s.target.books
    requires BooksOk(x.effect.books)
    requires p.transferID == x.id && p.envelope == s.target.packets[i].envelope && p.state != Received
    requires p.ackPayload == Some(AckFor(x.effect))
    ensures
      var target := s.target.(books := x.effect.books, executions := s.target.executions
        + [x.effect.execution], packets := s.target.packets[i := p]);
      var s' := s.(target := target, log := s.log + [x]);
      Inv(s') && LoggedHavePackets(s')
  {
    FreshEntry(s, i);
    InvLog(s);
    LogGrows(s, x);
    EntryStates(s, i, x, p);
    EntryPackets(s, i, x, p);
    InvRest(s);
    LogNext(s.start, s.log, x);
    hide Inv, EntryOk, Genuine, BooksOk, R.RouterInv, SeenOk, LogOk, AcksOk, Executions, StatusOk, StateOk, BooksAfter,
         PacketsOk, HasPacket;
    var target := s.target.(books := x.effect.books, executions := s.target.executions + [x.effect.execution],
      packets := s.target.packets[i := p]);
    InvFrom(s.(target := target, log := s.log + [x]));
  }

  /** The invariant, put together from its parts. */
  lemma InvFrom(s: System)
    requires R.RouterInv(s.router) && s.target.mode == Success && SeenOk(s.router, s.seen)
    requires PacketsOk(s.router, s.target.packets) && LogOk(s.router, s.start, s.log) && BooksOk(s.target.books)
    requires s.target.books == BooksAfter(s.start, s.log) && s.target.executions == Executions(s.log)
    requires forall i | 0 <= i < |s.target.packets| :: StateOk(s.log, s.target.packets[i])
    requires !s.careless ==> AcksOk(s.log, s.acks)
    requires !s.careless ==> forall id | id in s.router.transfers :: StatusOk(s.log, id, s.router.transfers[id].status)
    ensures Inv(s)
  {
    hide R.RouterInv, SeenOk, PacketsOk, LogOk, BooksOk, Executions, BooksAfter, StatusOk, StateOk, AcksOk;
  }

  /** The parts that writing to the history leaves alone. */
  lemma InvRest(s: System)
    requires Inv(s)
    ensures R.RouterInv(s.router) && s.target.mode == Success && SeenOk(s.router, s.seen)
    ensures s.target.executions == Executions(s.log)
  {
    hide R.RouterInv, SeenOk, PacketsOk, LogOk, BooksOk, Executions, BooksAfter, StatusOk, StateOk, AcksOk;
  }

  lemma LogNext(start: Books, log: seq<Entry>, x: Entry)
    ensures Executions(log + [x]) == Executions(log) + [x.effect.execution]
    ensures BooksAfter(start, log + [x]) == x.effect.books
  {
  }

  lemma FreshEntry(s: System, i: nat)
    requires Inv(s) && i < |s.target.packets| && s.target.packets[i].state == Received
    ensures forall k | 0 <= k < |s.log| :: s.log[k].id != s.target.packets[i].transferID
  {
    hide LogOk, AcksOk, Executions, StatusOk, PacketsOk, BooksAfter, R.RouterInv, SeenOk, BooksOk;
    assert StateOk(s.log, s.target.packets[i]);
  }

  lemma EntryStates(s: System, i: nat, x: Entry, p: Packet)
    requires Inv(s) && i < |s.target.packets|
    requires x.id == s.target.packets[i].transferID == p.transferID && p.state != Received
    requires p.ackPayload == Some(AckFor(x.effect))
    ensures var ps := s.target.packets[i := p]; forall j | 0 <= j < |ps| :: StateOk(s.log + [x], ps[j])
  {
    hide LogOk, AcksOk, Executions, StatusOk, BooksAfter, R.RouterInv, SeenOk, BooksOk, Genuine;
    var log := s.log + [x];
    var ps := s.target.packets[i := p];
    assert log[|s.log|] == x;
    assert StateOk(log, p);
    hide StateOk, Logged;
    forall j | 0 <= j < |ps| ensures StateOk(log, ps[j]) {
      if j != i {
        assert ps[j] == s.target.packets[j];
        StateStays(s.log, x, ps[j]);
      }
    }
  }

  lemma EntryPackets(s: System, i: nat, x: Entry, p: Packet)
    requires Inv(s) && LoggedHavePackets(s) && i < |s.target.packets|
    requires x.id == s.target.packets[i].transferID == p.transferID && p.envelope == s.target.packets[i].envelope
    ensures var ps := s.target.packets[i := p];
      PacketsOk(s.router, ps) && forall k | 0 <= k <= |s.log| :: HasPacket(ps, (s.log + [x])[k].id)
  {
    hide LogOk, AcksOk, Executions, StatusOk, BooksAfter, R.RouterInv, SeenOk, BooksOk, Genuine, StateOk;
    var ps := s.target.packets[i := p];
    assert forall j | 0 <= j < |ps| ::
      ps[j].transferID == s.target.packets[j].transferID && ps[j].envelope == s.target.packets[j].envelope;
    assert HasPacket(ps, x.id) by { assert ps[i].transferID == x.id; }
    hide HasPacket;
    forall k | 0 <= k < |s.log| ensures HasPacket(ps, s.log[k].id) {
      SamePackets(s.target.packets, ps, s.log[k].id);
    }
  }

  lemma LogGrows(s: System, x: Entry)
    requires Inv(s) && EntryOk(s.router, x) && x.before == BooksAfter(s.start, s.log) && forall k | 0 <= k < |s.log| ::
      s.log[k].id != x.id
    ensures LogOk(s.router, s.start, s.log + [x]) && (!s.careless ==> AcksOk(s.log + [x], s.acks))
    ensures !s.careless ==>
      forall id | id in s.router.transfers :: StatusOk(s.log + [x], id, s.router.transfers[id].status)
  {
    hide EntryOk, PacketsOk, R.RouterInv, SeenOk, BooksOk, StateOk, StatusOk, Executions, Logged;
    var log := s.log + [x];
    LogExtends(s.router, s.start, s.log, x);
    hide LogOk, BooksAfter;
    if !s.careless {
      forall a | a in s.acks ensures Logged(log, a.transferID, Ack(a.status, a.reason)) {
        LoggedStays(s.log, x, a.transferID, Ack(a.status, a.reason));
      }
      forall id | id in s.router.transfers ensures StatusOk(log, id, s.router.transfers[id].status) {
        StatusStays(s.log, x, id, s.router.transfers[id].status);
      }
    }
  }

  lemma LogExtends(r: R.RouterState, start: Books, log: seq<Entry>, x: Entry)
    requires LogOk(r, start, log) && EntryOk(r, x) && x.before == BooksAfter(start, log)
    requires forall k | 0 <= k < |log| :: log[k].id != x.id
    ensures LogOk(r, start, log + [x])
  {
    hide EntryOk;
    var more := log + [x];
    assert forall k | 0 <= k < |log| :: more[k] == log[k] && more[..k] == log[..k];
    assert more[..|log|] == log;
  }

  lemma LoggedStays(log: seq<Entry>, x: Entry, id: string, a: Ack)
    requires Logged(log, id, a)
    ensures Logged(log + [x], id, a)
  {
    var k :| 0 <= k < |log| && log[k].id == id && AckFor(log[k].effect) == a;
    assert (log + [x])[k] == log[k];
  }

  lemma StatusStays(log: seq<Entry>, x: Entry, id: string, status: R.TransferStatus)
    requires StatusOk(log, id, status)
    ensures StatusOk(log + [x], id, status)
  {
    if Succeeded(log, id) {
      var k :| 0 <= k < |log| && log[k].id == id && log[k].effect.failure.None?;
      assert (log + [x])[k] == log[k];
    }
    if Failed(log, id) {
      var k :| 0 <= k < |log| && log[k].id == id && log[k].effect.failure.Some?;
      assert (log + [x])[k] == log[k];
    }
  }

  lemma StateStays(log: seq<Entry>, x: Entry, p: Packet)
    requires StateOk(log, p) && p.transferID != x.id
    ensures StateOk(log + [x], p)
  {
    hide AckFor;
    if p.state != Received { LoggedStays(log, x, p.transferID, p.ackPayload.value); }
  }

  /** Everything `LogEntry` asks of an execution by a poll. */
  lemma PolledEntry(s: System, i: nat)
    requires Inv(s) && i < |s.target.packets| && s.target.packets[i].state == Received
    ensures var x := EntryAt(s.target, i);
      EntryOk(s.router, x) && x.before == s.target.books && BooksOk(x.effect.books)
  {
    hide Execute, R.RouterInv, SeenOk, LogOk, AcksOk, Executions, BooksAfter, StatusOk, StateOk, EnvelopeOf;
    var p := s.target.packets[i];
    assert Genuine(s.router, p.transferID, p.envelope);
    EnvelopeFields(s.router.transfers[p.transferID]);
    hide Parse;
    assert EnsurePools(s.target.books) == s.target.books;
    ExecuteKeepsBooks(s.target.books, p.envelope);
  }

  lemma AckedIs(p: Packet, fx: Effect)
    ensures var p' := Acked(Success, p, fx);
      p'.ackPayload == Some(AckFor(fx)) && p'.state != Received && p'.transferID == p.transferID
        && p'.envelope == p.envelope
  {
    hide Trim;
  }

  lemma ModeIsSuccess(s: System)
    requires Inv(s)
    ensures s.target.mode == Success
  {
    hide SeenOk, PacketsOk, LogOk, R.RouterInv, AcksOk, StatusOk, StateOk, Executions, BooksOk, BooksAfter;
  }

  lemma PollOneStep(s: System, i: nat)
    requires Inv(s) && LoggedHavePackets(s) && i < |s.target.packets|
    ensures Inv(PollOne(s, i)) && LoggedHavePackets(PollOne(s, i))
    ensures PollOne(s, i).target.packets[i].state != Received
    ensures forall j | 0 <= j < |s.target.packets| && j != i :: PollOne(s, i).target.packets[j] == s.target.packets[j]
  {
    hide Inv, LoggedHavePackets, EntryOk, Acked, BooksOk, Execute, EnsurePools;
    ModeIsSuccess(s);
    var p := s.target.packets[i];
    if p.state == Received {
      var x := EntryAt(s.target, i);
      PolledEntry(s, i);
      AckedIs(p, x.effect);
      LogEntry(s, i, x, Acked(Success, p, x.effect));
    } else {
      assert s.log + [] == s.log;
    }
  }

  lemma {:induction false} PollFirstTouches(s: System, n: nat)
    requires n <= |s.target.packets|
    ensures PollFirst(s, n) == s.(target := PollFirst(s, n).target, log := PollFirst(s, n).log)
    ensures s.log <= PollFirst(s, n).log
  {
    hide AdvanceOne, EntryAt;
    if n > 0 { PollFirstTouches(s, n - 1); }
  }

  lemma {:induction false} PollFirstSteps(s: System, n: nat)
    requires Inv(s) && LoggedHavePackets(s) && n <= |s.target.packets|
    ensures Inv(PollFirst(s, n)) && LoggedHavePackets(PollFirst(s, n))
    ensures forall i | 0 <= i < n :: PollFirst(s, n).target.packets[i].state != Received
  {
    hide Inv, LoggedHavePackets, AdvanceOne, EntryAt;
    if n > 0 {
      PollFirstSteps(s, n - 1);
      PollOneStep(PollFirst(s, n - 1), n - 1);
    }
  }

  lemma {:induction false} ReadyRecordsAre(ps: seq<Packet>, a: AckRecord)
    requires a in ReadyRecords(ps)
    ensures exists i :: 0 <= i < |ps| && Ready(ps[i]) && ReadyRecord(ps[i]) == a
  {
    var n := |ps| - 1;
    if a in ReadyRecords(ps[..n]) {
      ReadyRecordsAre(ps[..n], a);
      var i :| 0 <= i < n && Ready(ps[..n][i]) && ReadyRecord(ps[..n][i]) == a;
      assert ps[..n][i] == ps[i];
    }
  }

  lemma ReadyIsLogged(s: System, a: AckRecord)
    requires Inv(s) && a in ReadyRecords(s.target.packets)
    ensures Logged(s.log, a.transferID, Ack(a.status, a.reason))
  {
    hide R.RouterInv, SeenOk, PacketsOk, LogOk, BooksOk, Executions, BooksAfter, StatusOk, AcksOk, Logged;
    var ps := s.target.packets;
    ReadyRecordsAre(ps, a);
    var i :| 0 <= i < |ps| && Ready(ps[i]) && ReadyRecord(ps[i]) == a;
    assert StateOk(s.log, ps[i]);
  }

  lemma NewAcks(s: System, acks: set<AckRecord>, careless: bool)
    requires Inv(s) && (s.careless ==> careless) && (!careless ==> AcksOk(s.log, acks))
    ensures Inv(s.(acks := acks, careless := careless))
  {
    hide R.RouterInv, SeenOk, PacketsOk, LogOk, BooksOk, Executions, BooksAfter, StatusOk, StateOk, AcksOk;
  }

  // ---- memory and file -------------------------------------------------------------------------------------------

  /** The system as it would be had the destination just been restarted. */
  function Disk(s: System): System {
    s.(target := s.saved.target, log := s.saved.log)
  }

  /** Memory and file are each in order, and the file's history is the beginning of memory's. */
  ghost predicate Sound(s: System) {
    && Inv(s) && LoggedHavePackets(s)
    && Inv(Disk(s)) && LoggedHavePackets(Disk(s))
    && s.saved.log <= s.log
  }

  lemma InvIgnoresFile(s: System, saved: Saved)
    requires Inv(s) && LoggedHavePackets(s)
    ensures Inv(s.(saved := saved)) && LoggedHavePackets(s.(saved := saved))
  {
    hide R.RouterInv, SeenOk, PacketsOk, LogOk, BooksOk, Executions, BooksAfter, StatusOk, StateOk, AcksOk, HasPacket;
  }

  lemma InvBooks(s: System)
    requires Inv(s)
    ensures BooksOk(s.target.books)
  {
    hide R.RouterInv, SeenOk, PacketsOk, LogOk, BooksOk, Executions, BooksAfter, StatusOk, StateOk, AcksOk;
  }

  /** A restart finds exactly what was saved. */
  lemma CrashedIsDisk(s: System)
    requires Inv(Disk(s))
    ensures Crashed(s) == Disk(s)
  {
    InvBooks(Disk(s));
    ReloadExactIff(s.saved.target, []);
  }

  /** Memory moved on; the write succeeds, fails, or does not happen. */
  lemma FlushSound(s: System, s': System, writes: bool)
    requires Sound(s) && Inv(s') && LoggedHavePackets(s') && s.log <= s'.log
    requires s' == s.(target := s'.target, log := s'.log)
    ensures Sound(s') && Sound(Flushed(s', writes))
  {
    hide Inv, LoggedHavePackets;
    assert Disk(s') == Disk(s);
    if Writes(s.durable, writes) {
      var saved := Saved(s'.target, s'.log);
      InvIgnoresFile(s', saved);
      assert Disk(Flushed(s', writes)) == s'.(saved := saved);
    }
  }

  lemma BackedIsLogged(s: System, a: AckRecord)
    requires Inv(Disk(s)) && Backed(s) && a in ReadyRecords(s.target.packets)
    ensures Logged(s.saved.log, a.transferID, Ack(a.status, a.reason))
  {
    hide R.RouterInv, SeenOk, PacketsOk, LogOk, BooksOk, Executions, BooksAfter, StatusOk, AcksOk, Logged;
    var ps, qs := s.target.packets, s.saved.target.packets;
    ReadyRecordsAre(ps, a);
    var i :| 0 <= i < |ps| && Ready(ps[i]) && ReadyRecord(ps[i]) == a;
    assert OnFile(qs, ps[i]);
    var j :| 0 <= j < |qs| && qs[j].transferID == ps[i].transferID && qs[j].state != Received
      && qs[j].ackPayload == ps[i].ackPayload;
    assert StateOk(s.saved.log, qs[j]);
  }

  lemma ListSound(s: System)
    requires Sound(s)
    ensures Sound(ListAll(s))
  {
    hide Inv, LoggedHavePackets, ReadyRecords, Logged, Backed;
    var s' := ListAll(s);
    InvRouter(s);
    InvRouter(Disk(s));
    if !s'.careless {
      forall a | a in ReadyRecords(s.target.packets)
        ensures Logged(s.log, a.transferID, Ack(a.status, a.reason))
        ensures Logged(s.saved.log, a.transferID, Ack(a.status, a.reason))
      {
        ReadyIsLogged(s, a);
        BackedIsLogged(s, a);
      }
    }
    NewAcks(s, s'.acks, s'.careless);
    NewAcks(Disk(s), s'.acks, s'.careless);
    assert Disk(s') == Disk(s).(acks := s'.acks, careless := s'.careless);
    PacketsStay(s, s');
    PacketsStay(Disk(s), Disk(s'));
  }

  lemma PacketsStay(s: System, s': System)
    requires LoggedHavePackets(s) && s'.log == s.log && s'.target == s.target
    ensures LoggedHavePackets(s')
  {
    hide HasPacket;
  }

  lemma PollSound(s: System, writes: bool)
    requires Sound(s)
    ensures Sound(PollAll(s, writes))
  {
    hide Inv, LoggedHavePackets, PollFirst, ListAll, Flushed, Sound, Waiting;
    var s' := PollFirst(s, |s.target.packets|);
    assert Inv(s) && LoggedHavePackets(s) by { SoundParts(s); }
    PollFirstSteps(s, |s.target.packets|);
    PollFirstTouches(s, |s.target.packets|);
    FlushSound(s, s', writes);
    if !Waiting(s.target.packets) {
      ListSound(s');
    } else if Reports(s.durable, writes) {
      ListSound(Flushed(s', writes));
    }
  }

  lemma SoundParts(s: System)
    requires Sound(s)
    ensures Inv(s) && LoggedHavePackets(s) && Inv(Disk(s)) && LoggedHavePackets(Disk(s)) && s.saved.log <= s.log
  {
    hide Inv, LoggedHavePackets;
  }

  // ---- every run -------------------------------------------------------------------------------------------------

  /** The source and the network touch neither memory nor file of the destination. */
  lemma SourceSound(s: System, step: Step)
    requires Sound(s) && s.router.nextSequence < TWO_64 - 1
      && (step.Source? || step.TakenBack? || step.Fetch? || step.Apply?)
    ensures Sound(Next(s, step))
  {
    hide R.RouterStep, ApplyAck, PendingWires, Inv, LoggedHavePackets;
    var s' := Next(s, step);
    match step {
      case Source(op) => if !op.OpAcknowledge? { UserStep(s, op); UserStep(Disk(s), op); }
      case TakenBack => SkipStep(s); SkipStep(Disk(s));
      case Fetch => FetchStep(s); FetchStep(Disk(s));
      case Apply(a) =>
        if a in s.acks {
          ApplyStep(s, a);
          ApplyStep(Disk(s), a);
          ApplyKeepsRest(s, a);
          ApplyKeepsRest(Disk(s), a);
          assert ApplyAck(Disk(s), a) == Disk(ApplyAck(s, a)) by { SameVerdict(s, Disk(s), a); }
        }
    }
    assert Disk(s') == Disk(s).(router := s'.router, seen := s'.seen);
    PacketsStay(s, s');
    PacketsStay(Disk(s), Disk(s'));
  }

  lemma SameVerdict(s: System, t: System, a: AckRecord)
    requires s.router == t.router
    ensures ApplyAck(s, a).router == ApplyAck(t, a).router
  {
    hide R.Acknowledge;
  }

  lemma StepKeepsSound(s: System, step: Step)
    requires Sound(s) && s.router.nextSequence < TWO_64 - 1
    ensures Sound(Next(s, step))
  {
    hide R.RouterStep, ApplyAck, Receive, SetAck, PendingWires, PollAll, Inv, LoggedHavePackets, BuildEnvelope,
         SetAckError, Flushed;
    match step
    case Deliver(t, writes) =>
      if t in s.seen && BuildEnvelope(t).Ok? {
        DeliverStep(s, t);
        FlushSound(s, s.(target := Receive(s.target, t)), writes);
      }
    case Poll(writes) => PollSound(s, writes);
    case ConfirmAck(id, writes) =>
      ConfirmStep(s, id);
      FlushSound(s, s.(target := SetAck(s.target, id, Confirm)), writes);
    case Crash =>
      CrashedIsDisk(s);
      assert Disk(Disk(s)) == Disk(s);
    case _ => SourceSound(s, step);
  }

  lemma StepKeepsRest(s: System, step: Step)
    requires Sound(s) && s.router.nextSequence < TWO_64 - 1
    ensures var t := Next(s, step);
      && t.router.nextSequence <= s.router.nextSequence + 1 && t.start == s.start && t.durable == s.durable
      && (s.careless ==> t.careless)
  {
    hide R.RouterStep, ApplyAck, Receive, SetAck, PendingWires, Inv, LoggedHavePackets, BuildEnvelope, SetAckError,
         PollFirst, Waiting, Backed, R.RouterInv;
    InvRouter(s);
    match step
    case Source(op) => R.StepKeepsInv(s.router, op);
    case Poll(_) => PollFirstTouches(s, |s.target.packets|);
    case Apply(a) => ApplyKeepsRest(s, a);
    case _ =>
  }

  lemma ApplyKeepsRest(s: System, a: AckRecord)
    ensures ApplyAck(s, a) == s.(router := ApplyAck(s, a).router)
    ensures ApplyAck(s, a).router.nextSequence == s.router.nextSequence
  {
    hide Trim, R.Settle, R.SettleSession, R.SessionOf;
  }

  lemma FreshSound(books: Books, durable: bool)
    requires BooksOk(Defaults(books))
    ensures Sound(Fresh(books, durable))
  {
    hide BooksOk, Defaults;
    var s := Fresh(books, durable);
    assert Inv(s) && LoggedHavePackets(s);
    hide Inv, LoggedHavePackets;
    assert Disk(s) == s;
  }

  lemma {:induction false} RunKeepsSound(books: Books, durable: bool, steps: seq<Step>)
    requires BooksOk(Defaults(books)) && |steps| < TWO_64 - 2
    ensures var s := Run(Fresh(books, durable), steps);
      && Sound(s) && Inv(s) && LoggedHavePackets(s)
      && s.router.nextSequence <= |steps| + 1 && s.start == Defaults(books) && s.durable == durable
  {
    hide Sound, Inv, LoggedHavePackets, Next;
    if steps == [] {
      FreshSound(books, durable);
    } else {
      var front := steps[..|steps| - 1];
      RunKeepsSound(books, durable, front);
      StepKeepsSound(Run(Fresh(books, durable), front), steps[|steps| - 1]);
      StepKeepsRest(Run(Fresh(books, durable), front), steps[|steps| - 1]);
    }
    SoundParts(Run(Fresh(books, durable), steps));
  }

  // ---- safety ------------------------------------------------------------------------------------------------------

  /** The one execution of a transfer: its own sequence and recipient, on the books the previous execution left. */
  ghost predicate ExecutedOnce(s: System, id: string, k: nat) {
    && k < |s.log| && s.log[k].id == id && id in s.router.transfers
    && |s.target.executions| == |s.log| && s.target.executions[k].transferID == id
    && (forall l | 0 <= l < |s.target.executions| && s.target.executions[l].transferID == id :: l == k)
    && R.ParseSequence(id) == Some(s.target.executions[k].sequence)
    && s.target.executions[k].inputAmount == Render(s.router.transfers[id].amount)
    && s.log[k].before == BooksAfter(s.start, s.log[..k])
  }

  lemma ExecutionCarries(b: Books, e: Envelope)
    ensures var x := Execute(b, e).execution;
      x.transferID == e.transferID && x.sequence == e.sequence && x.inputAmount == Trim(e.amount)
        && x.recipient == Recipient(e)
  {
    hide Trim, SwapIn, Credit, SwapText, Render, Recipient, PathOf;
  }

  lemma EntryCarries(r: R.RouterState, x: Entry)
    requires R.RouterInv(r) && EntryOk(r, x)
    ensures var e := x.effect.execution;
      && e.transferID == x.id && R.ParseSequence(x.id) == Some(e.sequence)
      && e.inputAmount == Render(r.transfers[x.id].amount)
  {
    var t := r.transfers[x.id];
    IDIsTrimmed(r, x.id);
    EnvelopeFields(t);
    ExecutionCarries(x.before, EnvelopeOf(t).value);
    ParseRender(t.amount);
    hide Trim, Execute, EnvelopeOf, Render, ParseInt, Parse, R.RouterInv, R.ParseSequence, BooksOk;
  }

  lemma EntryNames(r: R.RouterState, x: Entry)
    requires EntryOk(r, x)
    ensures x.id in r.transfers
  {
  }

  lemma LogIsOnce(s: System, k: nat)
    requires Inv(s) && k < |s.log|
    ensures ExecutedOnce(s, s.log[k].id, k)
  {
    hide Render, R.RouterInv, R.ParseSequence, EntryOk, StateOk, StatusOk, BooksOk, SeenOk, PacketsOk, AcksOk,
         BooksAfter;
    assert s.target.executions == Executions(s.log);
    forall l | 0 <= l < |s.log| ensures s.target.executions[l].transferID == s.log[l].id {
      assert EntryOk(s.router, s.log[l]);
      EntryCarries(s.router, s.log[l]);
    }
    EntryCarries(s.router, s.log[k]);
    EntryNames(s.router, s.log[k]);
  }

  /** What a status on the source says about the destination. */
  ghost predicate Explained(s: System, id: string)
    requires id in s.router.transfers
  {
    match s.router.transfers[id].status
    case Pending => true
    case Completed => exists k: nat :: ExecutedOnce(s, id, k) && s.log[k].effect.failure.None?
    case TimedOut => false
    case _ => exists k: nat ::
      ExecutedOnce(s, id, k) && s.log[k].effect.failure.Some? && s.log[k].effect.books == s.log[k].before
  }

  lemma StatusExplained(s: System, id: string)
    requires Inv(s) && !s.careless && id in s.router.transfers
    ensures Explained(s, id)
  {
    hide R.RouterInv, Inv, AcksOk, ExecutedOnce, Succeeded, Failed;
    InvRouter(s);
    assert StatusOk(s.log, id, s.router.transfers[id].status);
    if Succeeded(s.log, id) { SuccessExplained(s, id); }
    if Failed(s.log, id) { FailureExplained(s, id); }
  }

  lemma SuccessExplained(s: System, id: string)
    requires Inv(s) && Succeeded(s.log, id)
    ensures exists k: nat :: ExecutedOnce(s, id, k) && s.log[k].effect.failure.None?
  {
    hide Inv, ExecutedOnce;
    var k :| 0 <= k < |s.log| && s.log[k].id == id && s.log[k].effect.failure.None?;
    LogIsOnce(s, k);
  }

  lemma FailureExplained(s: System, id: string)
    requires Inv(s) && Failed(s.log, id)
    ensures exists k: nat ::
      ExecutedOnce(s, id, k) && s.log[k].effect.failure.Some? && s.log[k].effect.books == s.log[k].before
  {
    hide Inv, ExecutedOnce;
    var k :| 0 <= k < |s.log| && s.log[k].id == id && s.log[k].effect.failure.Some?;
    LogIsOnce(s, k);
    FailedMovedNothing(s, k);
  }

  lemma FailedMovedNothing(s: System, k: nat)
    requires Inv(s) && k < |s.log| && s.log[k].effect.failure.Some?
    ensures s.log[k].effect.books == s.log[k].before
  {
    hide R.RouterInv, SeenOk, PacketsOk, Executions, BooksAfter, StatusOk, AcksOk, StateOk, Execute, PoolsHealthy,
         BalancesParse;
    assert EntryOk(s.router, s.log[k]);
    FailureMovesNothing(s.log[k].before, EnvelopeOf(s.router.transfers[s.log[k].id]).value);
  }

  ghost predicate AllExplained(s: System) {
    forall id | id in s.router.transfers :: Explained(s, id)
  }

  ghost predicate NothingTwice(s: System) {
    forall k, l | 0 <= k < l < |s.target.executions| ::
      s.target.executions[k].transferID != s.target.executions[l].transferID
  }

  /**
    Under any interleaving, loss, delay or duplication of queries, deliveries, polls, acknowledgements
    and confirmations, with failing writes of the destination's file and crashes, and with users initiating,
    refunding and reconfiguring routes in between: neither memory nor file ever holds two executions of one
    transfer. And as long as no poll has listed what the file does not bear out, a completed transfer
    executed exactly once, with success; a failed or refunded one executed exactly once and that execution
    left pools, balances, swaps and stakes as they were; none ever times out; and all of this is on file,
    so that it survives a crash.
   */
  lemma TwoChainSafety(books: Books, durable: bool, steps: seq<Step>)
    requires BooksOk(Defaults(books)) && |steps| < TWO_64 - 2
    ensures var s := Run(Fresh(books, durable), steps);
      && NothingTwice(s) && NothingTwice(Crashed(s))
      && (!s.careless ==> AllExplained(s) && AllExplained(Crashed(s)))
  {
    hide Inv, Run, NothingTwice, AllExplained, LoggedHavePackets;
    var s := Run(Fresh(books, durable), steps);
    RunKeepsSound(books, durable, steps);
    CrashedIsDisk(s);
    ExecutionsDistinct(s);
    ExecutionsDistinct(Disk(s));
    if !s.careless {
      EveryoneExplained(s);
      EveryoneExplained(Disk(s));
    }
  }

  lemma EveryoneExplained(s: System)
    requires Inv(s) && !s.careless
    ensures AllExplained(s)
  {
    hide Inv, Explained;
    forall id | id in s.router.transfers ensures Explained(s, id) {
      StatusExplained(s, id);
    }
  }

  // ---- exactly when a crash does no harm ----------------------------------------------------------------

  /** One acknowledgement is applied, the destination crashes and comes back. */
  function ThenCrash(s: System, a: AckRecord): System {
    Next(Next(s, Apply(a)), Crash)
  }

  /** Nothing is explained by an execution that is not on file. */
  lemma NotOnFile(s: System, id: string)
    requires forall k | 0 <= k < |s.log| :: s.log[k].id != id
    requires id in s.router.transfers && s.router.transfers[id].status != R.Pending
    ensures !Explained(s, id)
  {
  }

  /** What one history says about a transfer, a history it begins says too. */
  lemma SameOutcome(log: seq<Entry>, log': seq<Entry>, id: string, a: Ack, a': Ack)
    requires log <= log' && Logged(log, id, a) && Logged(log', id, a')
    requires forall k, l | 0 <= k < l < |log'| :: log'[k].id != log'[l].id
    ensures a == a'
  {
    hide AckFor;
    var k :| 0 <= k < |log| && log[k].id == id && AckFor(log[k].effect) == a;
    var l :| 0 <= l < |log'| && log'[l].id == id && AckFor(log'[l].effect) == a';
    assert log'[k] == log[k];
  }

  /** A transfer that executed on file has its outcome on file. */
  lemma FiledOutcome(s: System, i: nat, k: nat)
    requires Sound(s) && i < |s.target.packets| && Ready(s.target.packets[i])
    requires k < |s.saved.log| && s.saved.log[k].id == s.target.packets[i].transferID
    ensures OnFile(s.saved.target.packets, s.target.packets[i])
  {
    hide R.RouterInv, SeenOk, BooksOk, Executions, BooksAfter, StatusOk, AcksOk, EntryOk, Genuine, Logged;
    var p, qs := s.target.packets[i], s.saved.target.packets;
    assert HasPacket(qs, s.saved.log[k].id);
    var j :| 0 <= j < |qs| && qs[j].transferID == p.transferID;
    assert StateOk(s.saved.log, qs[j]) && StateOk(s.log, p);
    assert Logged(s.saved.log, p.transferID, qs[j].ackPayload.value);
    SameOutcome(s.saved.log, s.log, p.transferID, qs[j].ackPayload.value, p.ackPayload.value);
  }

  /** A listing that is not borne out by the file: applied, then a crash, it leaves a settled transfer unexplained. */
  lemma CarelessHarms(s: System) returns (a: AckRecord)
    requires Sound(s) && !s.careless && ListAll(s).careless
    ensures !AllExplained(ThenCrash(ListAll(s), a))
  {
    hide Inv, LoggedHavePackets, Explained, Logged, R.PendingError, Trim, OnFile, R.RouterInv, StatusOk, AcksOk,
         ReadyRecords, Succeeded, Failed;
    var i :| 0 <= i < |s.target.packets| && Ready(s.target.packets[i])
      && !OnFile(s.saved.target.packets, s.target.packets[i]);
    a := ReadyRecord(s.target.packets[i]);
    ReadyListed(s.target.packets, i);
    ReadyIsLogged(s, a);
    LoggedOutcome(s.log, a.transferID, Ack(a.status, a.reason));
    forall k | 0 <= k < |s.saved.log| ensures s.saved.log[k].id != a.transferID {
      if s.saved.log[k].id == a.transferID { FiledOutcome(s, i, k); }
    }
    StillPending(s, a.transferID, Ack(a.status, a.reason));
    InvRouter(s);
    hide Sound, Backed, Ready;
    SettledAndGone(ListAll(s), a);
  }

  /** A pending transfer, acknowledged without an execution on file, is left unexplained by a crash. */
  lemma SettledAndGone(s: System, a: AckRecord)
    requires a in s.acks && R.PendingError(s.router, a.transferID).None? && Trim(a.transferID) == a.transferID
    requires R.RouterInv(s.router) && (a.status == AckCompleted || a.status == AckFailed)
    requires forall k | 0 <= k < |s.saved.log| :: s.saved.log[k].id != a.transferID
    ensures !AllExplained(ThenCrash(s, a))
  {
    hide Explained, R.PendingError, Trim, R.RouterInv, ApplyAck;
    AppliedSettles(s, a);
    NotOnFile(ThenCrash(s, a), a.transferID);
  }

  lemma {:induction false} ReadyListed(ps: seq<Packet>, i: nat)
    requires i < |ps| && Ready(ps[i])
    ensures ReadyRecord(ps[i]) in ReadyRecords(ps)
  {
    var n := |ps| - 1;
    if i < n { ReadyListed(ps[..n], i); }
  }

  /** What executed in memory only is still pending on the source, as long as nobody listed it. */
  lemma StillPending(s: System, id: string, a: Ack)
    requires Sound(s) && !s.careless && Logged(s.log, id, a)
    requires forall k | 0 <= k < |s.saved.log| :: s.saved.log[k].id != id
    ensures R.PendingError(s.router, id).None? && Trim(id) == id
  {
    SoundParts(s);
    hide Sound, Inv, LoggedHavePackets, R.RouterInv, Trim, AcksOk, R.ParseSequence, StatusOk;
    InvRouter(Disk(s));
    NamedInLog(s, id, a);
    IDIsTrimmed(s.router, id);
    NoOutcome(s.saved.log, id, s.router.transfers[id].status);
  }

  lemma NamedInLog(s: System, id: string, a: Ack)
    requires Inv(s) && Logged(s.log, id, a)
    ensures id in s.router.transfers
  {
    hide Inv, EntryOk;
    InvLog(s);
    var k :| 0 <= k < |s.log| && s.log[k].id == id;
    EntryIsGenuine(s, k);
    EntryNames(s.router, s.log[k]);
  }

  lemma NoOutcome(log: seq<Entry>, id: string, status: R.TransferStatus)
    requires StatusOk(log, id, status) && forall k | 0 <= k < |log| :: log[k].id != id
    ensures status == R.Pending
  {
  }

  lemma AppliedSettles(s: System, a: AckRecord)
    requires a in s.acks && R.PendingError(s.router, a.transferID).None? && Trim(a.transferID) == a.transferID
    requires R.RouterInv(s.router) && (a.status == AckCompleted || a.status == AckFailed)
    ensures var t := Next(s, Apply(a));
      && t.saved == s.saved && a.transferID in t.router.transfers
      && t.router.transfers[a.transferID].status != R.Pending
  {
    hide Trim, R.SettleSession, R.SessionOf, R.RouterInv, R.ParseSequence, R.TransferID;
    IDIsTrimmed(s.router, a.transferID);
  }

  lemma OnlyPollsList(s: System, step: Step)
    ensures !step.Poll? ==> Next(s, step).careless == s.careless
  {
    hide R.RouterStep, Receive, SetAck, PendingWires, BuildEnvelope, SetAckError, PollAll, R.Acknowledge, Loaded;
  }

  /** The one step that can turn a run careless is a poll that lists. */
  lemma TurnsCareless(s: System, step: Step) returns (mid: System)
    requires Sound(s) && s.router.nextSequence < TWO_64 - 1 && !s.careless && Next(s, step).careless
    ensures Sound(mid) && !mid.careless && Next(s, step) == ListAll(mid)
  {
    OnlyPollsList(s, step);
    hide Sound, PollFirst, Waiting, Inv, LoggedHavePackets, ListAll;
    var polled := PollFirst(s, |s.target.packets|);
    SoundParts(s);
    PollFirstSteps(s, |s.target.packets|);
    PollFirstTouches(s, |s.target.packets|);
    FlushSound(s, polled, step.writes);
    mid := if Waiting(s.target.packets) then Flushed(polled, step.writes) else polled;
  }

  lemma {:induction false} CarelessWasHarmful(books: Books, durable: bool, steps: seq<Step>)
    returns (n: nat, a: AckRecord)
    requires BooksOk(Defaults(books)) && |steps| < TWO_64 - 2 && Run(Fresh(books, durable), steps).careless
    ensures n <= |steps| && !AllExplained(ThenCrash(Run(Fresh(books, durable), steps[..n]), a))
  {
    hide Sound, Next, AllExplained, ThenCrash, ListAll;
    var front := steps[..|steps| - 1];
    if Run(Fresh(books, durable), front).careless {
      n, a := CarelessWasHarmful(books, durable, front);
      assert front[..n] == steps[..n];
    } else {
      RunKeepsSound(books, durable, front);
      var mid := TurnsCareless(Run(Fresh(books, durable), front), steps[|steps| - 1]);
      n := |steps|;
      assert steps[..n] == steps;
      a := CarelessHarms(mid);
    }
  }

  lemma {:induction false} CarefulSoFar(books: Books, durable: bool, steps: seq<Step>, n: nat)
    requires BooksOk(Defaults(books)) && |steps| < TWO_64 - 2 && n <= |steps|
    requires !Run(Fresh(books, durable), steps).careless
    ensures !Run(Fresh(books, durable), steps[..n]).careless
    decreases |steps|
  {
    hide Sound, Next, Inv, LoggedHavePackets, BooksOk, Defaults, Fresh;
    if n < |steps| {
      var front := steps[..|steps| - 1];
      RunKeepsSound(books, durable, front);
      StepKeepsRest(Run(Fresh(books, durable), front), steps[|steps| - 1]);
      CarefulSoFar(books, durable, front, n);
      assert front[..n] == steps[..n];
    } else {
      assert steps[..n] == steps;
    }
  }

  /**
    Exactly when crashes do no harm: at every point of a run, whichever acknowledgement is applied next and
    wherever the destination then crashes, every status on the source is explained by what it comes back
    with, if and only if no poll of the run listed an acknowledgement that the file did not bear out.
   */
  lemma SafeIffNeverCareless(books: Books, durable: bool, steps: seq<Step>)
    requires BooksOk(Defaults(books)) && |steps| < TWO_64 - 4
    ensures !Run(Fresh(books, durable), steps).careless <==>
      forall n: nat, a | n <= |steps| :: AllExplained(ThenCrash(Run(Fresh(books, durable), steps[..n]), a))
  {
    hide Sound, Run, AllExplained, ThenCrash, Inv, LoggedHavePackets;
    if Run(Fresh(books, durable), steps).careless {
      var n, a := CarelessWasHarmful(books, durable, steps);
    } else {
      forall n: nat, a | n <= |steps| ensures AllExplained(ThenCrash(Run(Fresh(books, durable), steps[..n]), a)) {
        CarefulSoFar(books, durable, steps, n);
        RunKeepsSound(books, durable, steps[..n]);
        CrashExplained(Run(Fresh(books, durable), steps[..n]), a);
      }
    }
  }

  lemma CrashExplained(s: System, a: AckRecord)
    requires Sound(s) && !s.careless && s.router.nextSequence < TWO_64 - 2
    ensures AllExplained(ThenCrash(s, a))
  {
    hide Sound, AllExplained, ApplyAck, Inv, LoggedHavePackets, Crashed;
    var applied := Next(s, Apply(a));
    StepKeepsSound(s, Apply(a));
    ApplyKeepsRest(s, a);
    SoundParts(applied);
    CrashedIsDisk(applied);
    EveryoneExplained(Disk(applied));
  }

  /** With a file and without failing writes no run is ever careless: memory is always on file. */
  lemma {:induction false} WritingIsCareful(books: Books, steps: seq<Step>)
    requires BooksOk(Defaults(books)) && |steps| < TWO_64 - 2
    requires forall i | 0 <= i < |steps| :: Bold(steps[i])
    ensures var s := Run(Fresh(books, true), steps); !s.careless && s.saved == Saved(s.target, s.log)
  {
    hide Next, Sound;
    if steps != [] {
      var front := steps[..|steps| - 1];
      WritingIsCareful(books, front);
      RunKeepsSound(books, true, front);
      BoldStep(Run(Fresh(books, true), front), steps[|steps| - 1]);
    }
  }

  /** The step is not one whose write fails. */
  predicate Bold(step: Step) {
    match step
    case Deliver(_, writes) => writes
    case Poll(writes) => writes
    case ConfirmAck(_, writes) => writes
    case _ => true
  }

  lemma BoldStep(s: System, step: Step)
    requires Sound(s) && s.durable && Bold(step) && !s.careless && s.saved == Saved(s.target, s.log)
    ensures var t := Next(s, step); !t.careless && t.saved == Saved(t.target, t.log)
  {
    OnlyPollsList(s, step);
    hide Sound, R.RouterStep, Receive, SetAck, PendingWires, BuildEnvelope, SetAckError, PollAll, Crashed;
    match step
    case Poll(_) => BoldPoll(s);
    case Crash =>
      SoundParts(s);
      CrashedIsDisk(s);
    case Apply(a) => ApplyKeepsRest(s, a);
    case _ =>
  }

  lemma BoldPoll(s: System)
    requires s.durable && !s.careless && s.saved == Saved(s.target, s.log)
    ensures var t := PollAll(s, true); !t.careless && t.saved == Saved(t.target, t.log)
  {
    hide PollFirst, Waiting, Backed, ReadyRecords;
    var n := |s.target.packets|;
    PollFirstTouches(s, n);
    if !Waiting(s.target.packets) { IdlePoll(s, n); }
    SavedIsBacked(Flushed(PollFirst(s, n), true));
    SavedIsBacked(s);
  }

  lemma {:induction false} IdlePoll(s: System, n: nat)
    requires n <= |s.target.packets| && !Waiting(s.target.packets)
    ensures PollFirst(s, n) == s
  {
    if n > 0 { IdlePoll(s, n - 1); }
  }

  /** What is saved bears itself out. */
  lemma SavedIsBacked(s: System)
    requires s.saved.target == s.target
    ensures Backed(s)
  {
  }

  /**
    One failing write is enough: when packets have arrived, a poll whose write fails, followed by any poll,
    has listed what the file does not bear out.
   */
  lemma FailedWriteThenPoll(books: Books, steps: seq<Step>, writes: bool)
    requires BooksOk(Defaults(books)) && |steps| < TWO_64 - 4
    requires Waiting(Run(Fresh(books, true), steps).target.packets)
    ensures Run(Fresh(books, true), steps + [Poll(false), Poll(writes)]).careless
  {
    hide Sound, Next, Waiting, Inv, LoggedHavePackets, BooksOk, Defaults, Fresh, Backed;
    var s := Run(Fresh(books, true), steps);
    var more := steps + [Poll(false), Poll(writes)];
    assert more[..|more| - 1] == steps + [Poll(false)] && (steps + [Poll(false)])[..|steps|] == steps;
    RunKeepsSound(books, true, steps);
    var mid := Next(s, Poll(false));
    UnfiledPoll(s);
    assert Run(Fresh(books, true), steps + [Poll(false)]) == mid;
    AgainstTheFile(mid, writes);
  }

  /** After the failing write something is ready in memory that the file knows nothing of. */
  lemma UnfiledPoll(s: System)
    requires Sound(s) && s.durable && Waiting(s.target.packets)
    ensures var t := Next(s, Poll(false)); !Waiting(t.target.packets) && !Backed(t)
  {
    hide Inv, LoggedHavePackets, PollFirst, OnFile, ListAll;
    var n := |s.target.packets|;
    var t := PollFirst(s, n);
    PollFirstSteps(s, n);
    PollFirstTouches(s, n);
    assert Next(s, Poll(false)) == t;
    var i :| 0 <= i < n && s.target.packets[i].state == Received;
    PolledReady(s, n, i);
    NeverFiled(s, i, t.target.packets[i]);
  }

  lemma {:induction false} PolledReady(s: System, n: nat, i: nat)
    requires Inv(s) && LoggedHavePackets(s) && i < n <= |s.target.packets| && s.target.packets[i].state == Received
    ensures var p := PollFirst(s, n).target.packets[i];
      Ready(p) && p.transferID == s.target.packets[i].transferID
    decreases n
  {
    hide Inv, LoggedHavePackets, AdvanceOne, EntryAt;
    PollFirstSteps(s, n - 1);
    var before := PollFirst(s, n - 1);
    if i < n - 1 {
      PolledReady(s, n - 1, i);
      PollOneStep(before, n - 1);
    } else {
      ModeIsSuccess(before);
      PollFirstLeaves(s, n - 1, i);
      ExecutedIsReady(before, i);
    }
  }

  lemma {:induction false} PollFirstLeaves(s: System, n: nat, i: nat)
    requires Inv(s) && LoggedHavePackets(s) && n <= i < |s.target.packets|
    ensures PollFirst(s, n).target.packets[i] == s.target.packets[i]
  {
    hide Inv, LoggedHavePackets, AdvanceOne, EntryAt;
    if n > 0 {
      PollFirstLeaves(s, n - 1, i);
      PollFirstSteps(s, n - 1);
      PollOneStep(PollFirst(s, n - 1), n - 1);
    }
  }

  lemma ExecutedIsReady(s: System, i: nat)
    requires s.target.mode == Success && i < |s.target.packets| && s.target.packets[i].state == Received
    ensures var p := PollOne(s, i).target.packets[i]; Ready(p) && p.transferID == s.target.packets[i].transferID
  {
    hide Execute, Trim;
  }

  lemma FiledWasLogged(s: System, p: Packet)
    requires Inv(Disk(s)) && OnFile(s.saved.target.packets, p)
    ensures exists k :: 0 <= k < |s.saved.log| && s.saved.log[k].id == p.transferID
  {
    hide R.RouterInv, SeenOk, PacketsOk, LogOk, BooksOk, Executions, BooksAfter, StatusOk, AcksOk;
    var qs := s.saved.target.packets;
    var j :| 0 <= j < |qs| && qs[j].transferID == p.transferID && qs[j].state != Received;
    assert StateOk(s.saved.log, qs[j]);
  }

  /** What memory has not executed, the file has not either. */
  lemma NeverFiled(s: System, i: nat, p: Packet)
    requires Sound(s) && i < |s.target.packets| && s.target.packets[i].state == Received
    requires p.transferID == s.target.packets[i].transferID
    ensures !OnFile(s.saved.target.packets, p)
  {
    hide Inv, LoggedHavePackets;
    FreshEntry(s, i);
    assert forall k | 0 <= k < |s.saved.log| :: s.saved.log[k] == s.log[k];
    if OnFile(s.saved.target.packets, p) { FiledWasLogged(s, p); }
  }

  lemma AgainstTheFile(s: System, writes: bool)
    requires !Waiting(s.target.packets) && !Backed(s)
    ensures Next(s, Poll(writes)).careless
  {
    hide Waiting, Backed;
    IdlePoll(s, |s.target.packets|);
  }

  /** Query, delivery, a poll whose write fails, and another poll. */
  function Losing(t: Transfer): seq<Step> {
    [Fetch, Deliver(t, true), Poll(false), Poll(true)]
  }

  /** Any pending transfer not yet delivered can be lost that way. */
  lemma PendingCanBeLost(books: Books, steps: seq<Step>, id: string)
    requires BooksOk(Defaults(books)) && |steps| < TWO_64 - 8
    requires var s := Run(Fresh(books, true), steps);
      && id in s.router.transfers && s.router.transfers[id].status == R.Pending
      && EnvelopeOf(s.router.transfers[id]).Some? && !HasPacket(s.target.packets, id)
    ensures Run(Fresh(books, true), steps + Losing(Wire(Run(Fresh(books, true), steps).router.transfers[id]))).careless
  {
    hide Run, Next, Sound, Inv, Waiting, BooksOk, Defaults, EnvelopeOf, HasPacket, Wire, LoggedHavePackets, Fresh;
    var start := Fresh(books, true);
    var s := Run(start, steps);
    var t := Wire(s.router.transfers[id]);
    RunKeepsSound(books, true, steps);
    var mid := steps + [Fetch, Deliver(t, true)];
    RunTwo(start, steps, Fetch, Deliver(t, true));
    StepKeepsSound(s, Fetch);
    StepKeepsRest(s, Fetch);
    SoundParts(Next(s, Fetch));
    DeliveredWaits(s, id);
    FailedWriteThenPoll(books, mid, true);
    assert mid + [Poll(false), Poll(true)] == steps + Losing(t);
  }

  lemma RunTwo(s: System, steps: seq<Step>, a: Step, b: Step)
    ensures Run(s, steps + [a, b]) == Next(Next(Run(s, steps), a), b)
  {
    hide Next;
    assert (steps + [a, b])[..|steps| + 1] == steps + [a] && (steps + [a])[..|steps|] == steps;
  }

  lemma DeliveredWaits(s: System, id: string)
    requires Inv(s) && Inv(Next(s, Fetch)) && !HasPacket(s.target.packets, id)
    requires id in s.router.transfers && s.router.transfers[id].status == R.Pending
    requires EnvelopeOf(s.router.transfers[id]).Some?
    ensures Waiting(Next(Next(s, Fetch), Deliver(Wire(s.router.transfers[id]), true)).target.packets)
  {
    hide Inv, Trim, R.ParseSequence, R.RouterInv, Genuine, AcksOk, StatusOk, BuildEnvelope, NewPacket;
    var t := Wire(s.router.transfers[id]);
    var s1 := Next(s, Fetch);
    assert t in s1.seen;
    InvRouter(s);
    IDIsTrimmed(s.router, id);
    WireID(s.router.transfers[id]);
    ArrivingPacket(s1, t);
    var p := NewPacket(BuildEnvelope(t).value);
    var ps := Next(s1, Deliver(t, true)).target.packets;
    assert FindPacket(s1.target.packets, p.transferID) == |s1.target.packets|;
    assert ps[|ps| - 1] == p;
  }

  /**
    The input: over any enabled route, any valid request. Once it is delivered, one failing write at the poll
    that executes it, one more poll, its acknowledgement and a crash leave it settled on the source while the
    destination knows nothing of it.
   */
  lemma LossExample(books: Books, route: R.Route, q: R.Request) returns (steps: seq<Step>, a: AckRecord)
    requires BooksOk(Defaults(books)) && R.ValidRoute(route) && route.enabled
    requires Trim(q.assetID) == Trim(route.assetID) && R.RequestError(q).None?
    ensures |steps| <= 6 && !AllExplained(ThenCrash(Run(Fresh(books, true), steps), a))
  {
    hide Run, BooksOk, Defaults, Wire, EnvelopeOf, R.TransferID, AllExplained, ThenCrash;
    var start := Fresh(books, true);
    var first := [Source(R.OpRoute(route)), Source(R.OpInitiate("", q))];
    var id := R.TransferID(q.assetID, 1);
    RunTwo(start, [], first[0], first[1]);
    assert Run(start, []) == start by { RunNone(start); }
    assert [] + [first[0], first[1]] == first;
    FirstTransfer(start, route, q);
    var t := Wire(Run(start, first).router.transfers[id]);
    PendingCanBeLost(books, first, id);
    var all := first + Losing(t);
    var n: nat;
    n, a := CarelessWasHarmful(books, true, all);
    steps := all[..n];
  }

  lemma RunNone(s: System)
    ensures Run(s, []) == s
  {
  }

  lemma FirstTransfer(s: System, route: R.Route, q: R.Request)
    requires s.router == R.EmptyRouter() && s.target.packets == [] && R.ValidRoute(route) && route.enabled
    requires Trim(q.assetID) == Trim(route.assetID) && R.RequestError(q).None?
    ensures var t := Next(Next(s, Source(R.OpRoute(route))), Source(R.OpInitiate("", q)));
      var id := R.TransferID(q.assetID, 1);
      && t.target.packets == [] && id in t.router.transfers && t.router.transfers[id].status == R.Pending
      && EnvelopeOf(t.router.transfers[id]).Some?
  {
    TrimTwice(route.assetID);
    assert Trim("") == "";
    hide Trim, R.TransferID, EnvelopeOf;
    var r := R.RouterStep(s.router, R.OpRoute(route));
    assert R.RouteFor(r, q) == Ok((Trim(route.chainID), Trim(route.channelID), Trim(route.denom)));
    var t := R.NewTransfer(r, q, Trim(route.chainID), Trim(route.channelID), Trim(route.denom));
    SendableTransfer(r, route, q);
  }

  lemma SendableTransfer(r: R.RouterState, route: R.Route, q: R.Request)
    requires R.ValidRoute(route) && Trim(q.assetID) == Trim(route.assetID) && R.RequestError(q).None?
    ensures EnvelopeOf(R.NewTransfer(r, q, Trim(route.chainID), Trim(route.channelID), Trim(route.denom))).Some?
  {
    TrimTwice(route.channelID);
    TrimTwice(q.assetID);
    TrimTwice(q.receiver);
    R.SequenceParsesBack(q.assetID, r.nextSequence);
    hide Trim, R.TransferID, R.ParseSequence, ParseMemo, ActionText, NewPacket, Render;
  }

  lemma ExecutionsDistinct(s: System)
    requires Inv(s)
    ensures NothingTwice(s)
  {
    InvRest(s);
    hide Inv, ExecutedOnce;
    forall k, l | 0 <= k < l < |s.target.executions|
      ensures s.target.executions[k].transferID != s.target.executions[l].transferID {
      LogIsOnce(s, k);
      OnceOnly(s, s.log[k].id, k, l);
    }
  }

  lemma OnceOnly(s: System, id: string, k: nat, l: nat)
    requires ExecutedOnce(s, id, k) && l < |s.target.executions| && l != k
    ensures s.target.executions[k].transferID == id != s.target.executions[l].transferID
  {
    hide Render, R.ParseSequence, BooksAfter;
  }

  // ---- value across the two chains ---------------------------------------------------------------------------------

  /** What one executed transfer brings to the destination: its amount, when it asked for a plain credit and got it. */
  function Brings(r: R.RouterState, x: Entry, denom: string): int {
    if x.id !in r.transfers || x.effect.failure.Some? then 0
    else
      var t := r.transfers[x.id];
      if ParseMemo(t.memo).NoAction? && t.denom == denom then t.amount else 0
  }

  function Brought(r: R.RouterState, log: seq<Entry>, denom: string): int {
    if log == [] then 0 else Brought(r, log[..|log| - 1], denom) + Brings(r, log[|log| - 1], denom)
  }

  lemma ExecutedFlow(b: Books, e: Envelope, denom: string)
    requires Execute(b, e).failure.None?
    ensures Flow(Execute(b, e).execution, denom) ==
      if (e.action.None? || (e.action.value.kind != "swap" && e.action.value.kind != "stake")) && Trim(e.denom) == denom
      then Worth(Trim(e.amount)) else 0
  {
    hide Trim, SwapIn, Credit, SwapText, Render, Recipient, PathOf, Worth;
  }

  lemma EntryBrings(r: R.RouterState, x: Entry, denom: string)
    requires R.RouterInv(r) && EntryOk(r, x)
    ensures Stock(x.effect.books, denom) == Stock(x.before, denom) + Brings(r, x, denom)
  {
    hide R.RouterInv, Stock, Execute, R.ParseSequence, ParseMemo, ParseInt, Parse, Trim, Render, Flow, EnvelopeOf;
    var t := r.transfers[x.id];
    var e := EnvelopeOf(t).value;
    EnvelopeFields(t);
    RecordTrimmed(r, x.id);
    ExecuteConserves(x.before, e, denom);
    if x.effect.failure.Some? {
      FailureMovesNothing(x.before, e);
    } else {
      ExecutedFlow(x.before, e, denom);
      WorthRendered(t.amount);
      ParseRender(t.amount);
      GoodMemo(x.before, e, t);
    }
  }

  lemma RecordTrimmed(r: R.RouterState, id: string)
    requires R.RouterInv(r) && id in r.transfers
    ensures Trim(r.transfers[id].denom) == r.transfers[id].denom
  {
    hide Trim, R.TransferID;
    R.PairedAt(r, id);
  }

  /** An execution that succeeded had a memo without an error, so an action, if any, is a swap or a stake. */
  lemma GoodMemo(b: Books, e: Envelope, t: R.TransferRecord)
    requires Execute(b, e).failure.None?
    requires Trim(e.actionError) == "" <==> !ParseMemo(t.memo).Bad?
    requires e.action == if ParseMemo(t.memo).Do? then Some(ParseMemo(t.memo).action) else None
    ensures ParseMemo(t.memo).NoAction? <==>
      e.action.None? || (e.action.value.kind != "swap" && e.action.value.kind != "stake")
  {
    hide Trim, ParseMemo, ExecuteSwap, ExecuteStake, ExecuteCredit, ActionType;
    ParsedKind(t.memo);
  }

  lemma LogDistinct(r: R.RouterState, start: Books, log: seq<Entry>)
    requires LogOk(r, start, log)
    ensures forall k, l | 0 <= k < l < |log| :: log[k].id != log[l].id
  {
    hide EntryOk;
  }

  lemma LogFront(r: R.RouterState, start: Books, log: seq<Entry>)
    requires LogOk(r, start, log) && log != []
    ensures LogOk(r, start, log[..|log| - 1]) && EntryOk(r, log[|log| - 1])
    ensures log[|log| - 1].before == BooksAfter(start, log[..|log| - 1])
  {
    hide EntryOk, BooksAfter;
    var front := log[..|log| - 1];
    assert forall k | 0 <= k < |front| :: front[k] == log[k] && front[..k] == log[..k];
  }

  lemma {:induction false} LogBrings(s: System, log: seq<Entry>, denom: string)
    requires R.RouterInv(s.router) && LogOk(s.router, s.start, log)
    ensures Stock(BooksAfter(s.start, log), denom) == Stock(s.start, denom) + Brought(s.router, log, denom)
    decreases |log|
  {
    hide Stock, Brings, EntryOk, R.RouterInv, LogOk;
    if log != [] {
      LogFront(s.router, s.start, log);
      LogBrings(s, log[..|log| - 1], denom);
      EntryBrings(s.router, log[|log| - 1], denom);
    }
  }

  /**
    In every run and every denomination, what the destination's holders own and its pools can pay is what
    there was at the start plus the amounts of executed plain transfers, each counted once; by
    `TwoChainSafety`, a failed or refunded transfer is never among them.
   */
  lemma ValueArrivesOnce(books: Books, durable: bool, steps: seq<Step>, denom: string)
    requires BooksOk(Defaults(books)) && |steps| < TWO_64 - 2
    ensures var s := Run(Fresh(books, durable), steps);
      Stock(s.target.books, denom) == Stock(s.start, denom) + Brought(s.router, s.log, denom)
  {
    hide Inv, LoggedHavePackets, Stock, Brought;
    var s := Run(Fresh(books, durable), steps);
    RunKeepsSound(books, durable, steps);
    InvLog(s);
    LogBrings(s, s.log, denom);
  }

  lemma InvLog(s: System)
    requires Inv(s)
    ensures R.RouterInv(s.router) && LogOk(s.router, s.start, s.log) && s.target.books == BooksAfter(s.start, s.log)
  {
    hide SeenOk, PacketsOk, LogOk, R.RouterInv, AcksOk, StatusOk, StateOk, Executions, BooksOk, BooksAfter;
  }

  // ---- the policy reaches every execution -------------------------------------------------------

  /** The step that initiated a transfer. */
  ghost predicate Born(books: Books, durable: bool, steps: seq<Step>, id: string, i: nat) {
    && i < |steps| && steps[i].Source? && steps[i].op.OpInitiate?
    && var r := Run(Fresh(books, durable), steps[..i]).router;
       R.InitiateError(r, steps[i].op.routeID, steps[i].op.request).None?
       && id == R.TransferID(steps[i].op.request.assetID, r.nextSequence)
  }

  /** Only an initiation adds a transfer, under the next ID. */
  lemma NextAdds(s: System, step: Step, id: string)
    requires R.RouterInv(s.router) && id in Next(s, step).router.transfers && id !in s.router.transfers
    ensures step.Source? && step.op.OpInitiate?
    ensures R.InitiateError(s.router, step.op.routeID, step.op.request).None?
    ensures id == R.TransferID(step.op.request.assetID, s.router.nextSequence)
  {
    hide Next, R.RouterStep, R.RouterInv, R.InitiateError, R.TransferID;
    NextRouter(s, step);
    if RouterOpOf(step).Some? && Next(s, step).router == R.RouterStep(s.router, RouterOpOf(step).value) {
      OpAdds(s.router, RouterOpOf(step).value, id);
    }
  }

  lemma OpAdds(r: R.RouterState, op: R.RouterOp, id: string)
    requires R.RouterInv(r) && id in R.RouterStep(r, op).transfers && id !in r.transfers
    ensures op.OpInitiate? && R.InitiateError(r, op.routeID, op.request).None?
    ensures id == R.TransferID(op.request.assetID, r.nextSequence)
  {
    hide Trim, R.TransferID, R.Destination, R.RouterInv, R.Paired, R.SessionOf, R.SettleSession;
    match op {
      case OpRefund(other) => if Trim(other) in r.transfers { R.PairedAt(r, Trim(other)); }
      case OpAcknowledge(other, _) => if Trim(other) in r.transfers { R.PairedAt(r, Trim(other)); }
      case _ =>
    }
  }

  lemma OpGrows(r: R.RouterState, op: R.RouterOp)
    requires R.RouterInv(r) && r.nextSequence < TWO_64 - 1
    ensures Grows(r, R.RouterStep(r, op))
  {
    hide R.RouterInv, R.RouterStep, R.Advanced, Grows;
    RouterGrows(r, op);
    AdvancedGrows(r, R.RouterStep(r, op));
  }

  /** The router operation a step amounts to, if any. */
  function RouterOpOf(step: Step): Option<R.RouterOp> {
    match step
    case Source(op) => if op.OpAcknowledge? then None else Some(op)
    case Apply(a) => if VerdictOf(a).None? then None else Some(R.OpAcknowledge(a.transferID, VerdictOf(a).value))
    case _ => None
  }

  lemma NextRouter(s: System, step: Step)
    ensures Next(s, step).router == (if step.TakenBack? then Skipped(s.router) else s.router)
      || (RouterOpOf(step).Some? && Next(s, step).router == R.RouterStep(s.router, RouterOpOf(step).value))
  {
    hide Receive, SetAck, R.Acknowledge, R.InitiateVia, R.Refund, R.SetStage, R.PutRoute, R.PutProfile, PollFirst,
         ReadyRecords, PendingWires;
    if step.Poll? { PollFirstTouches(s, |s.target.packets|); }
  }

  lemma NextGrows(s: System, step: Step)
    requires Inv(s) && LoggedHavePackets(s) && s.router.nextSequence < TWO_64 - 1
    ensures Grows(s.router, Next(s, step).router)
  {
    hide Inv, R.RouterInv, LoggedHavePackets, Next, AcksOk, StatusOk, R.RouterStep, RouterOpOf;
    InvRouter(s);
    NextRouter(s, step);
    if RouterOpOf(step).Some? { OpGrows(s.router, RouterOpOf(step).value); }
  }

  /** Once stored, a message never changes. */
  lemma {:induction false} MessageKept(books: Books, durable: bool, steps: seq<Step>, j: nat)
    requires BooksOk(Defaults(books)) && |steps| < TWO_64 - 2 && j <= |steps|
    ensures Grows(Run(Fresh(books, durable), steps[..j]).router, Run(Fresh(books, durable), steps).router)
    decreases |steps|
  {
    hide Inv, LoggedHavePackets, Next, Wire;
    if j == |steps| {
      assert steps[..j] == steps;
    } else {
      var front := steps[..|steps| - 1];
      assert front[..j] == steps[..j];
      MessageKept(books, durable, front, j);
      RunKeepsSound(books, durable, front);
      NextGrows(Run(Fresh(books, durable), front), steps[|steps| - 1]);
    }
  }

  lemma {:induction false} EveryTransferBorn(books: Books, durable: bool, steps: seq<Step>, id: string) returns (i: nat)
    requires BooksOk(Defaults(books)) && |steps| < TWO_64 - 2
    requires id in Run(Fresh(books, durable), steps).router.transfers
    ensures Born(books, durable, steps, id, i)
  {
    hide Inv, LoggedHavePackets, Next, R.InitiateError, R.TransferID;
    assert steps != [];
    var n := |steps| - 1;
    var before := Run(Fresh(books, durable), steps[..n]);
    if id in before.router.transfers {
      i := EveryTransferBorn(books, durable, steps[..n], id);
      assert steps[..n][..i] == steps[..i];
    } else {
      i := n;
      RunKeepsSound(books, durable, steps[..n]);
      InvRouter(before);
      NextAdds(before, steps[n], id);
    }
  }

  /** The action executed is of a type the profile listed when the transfer was initiated through it. */
  ghost predicate ActionListed(books: Books, durable: bool, steps: seq<Step>, e: Envelope, i: nat)
    requires i < |steps| && steps[i].Source? && steps[i].op.OpInitiate?
  {
    var r := Run(Fresh(books, durable), steps[..i]).router;
    var key := Trim(steps[i].op.routeID);
    key != "" && key in r.profiles && r.profiles[key].policy.actionTypes != [] && e.action.Some? ==>
      e.action.value.kind in CanonicalPolicy(r.profiles[key].policy).actionTypes
  }

  /**
    In every run, whatever executes on the destination was initiated on the source, and if that went through
    a profile with a non-empty action list, the action executed is of a type then listed.
   */
  lemma PolicyReachesExecution(books: Books, durable: bool, steps: seq<Step>, k: nat) returns (i: nat, e: Envelope)
    requires BooksOk(Defaults(books)) && |steps| < TWO_64 - 2 && k < |Run(Fresh(books, durable), steps).log|
    ensures var s := Run(Fresh(books, durable), steps);
      var x := s.log[k];
      && Born(books, durable, steps, x.id, i)
      && x.id in s.router.transfers && EnvelopeOf(s.router.transfers[x.id]) == Some(e)
      && s.router.transfers[x.id].memo == Trim(steps[i].op.request.memo)
      && x.effect == Execute(x.before, e) && ActionListed(books, durable, steps, e, i)
  {
    hide Inv, LoggedHavePackets, Run, Execute, EnvelopeOf, Trim, ParseMemo, CanonicalPolicy, R.InitiateVia,
         R.InitiateError, R.TransferID, BooksOk, LogOk;
    var s := Run(Fresh(books, durable), steps);
    RunKeepsSound(books, durable, steps);
    InvLog(s);
    EntryIsGenuine(s, k);
    var x := s.log[k];
    e := EnvelopeOf(s.router.transfers[x.id]).value;
    i := EveryTransferBorn(books, durable, steps, x.id);
    MessageKept(books, durable, steps, i + 1);
    EnvelopeFields(s.router.transfers[x.id]);
    var before := Run(Fresh(books, durable), steps[..i]);
    RunNext(books, durable, steps, i);
    MemoStored(before.router, steps[i].op.routeID, steps[i].op.request);
    SameWireMemo(Run(Fresh(books, durable), steps[..i + 1]).router.transfers[x.id], s.router.transfers[x.id]);
    var key := Trim(steps[i].op.routeID);
    if key != "" && key in before.router.profiles && before.router.profiles[key].policy.actionTypes != [] {
      R.StoredActionListed(before.router, steps[i].op.routeID, steps[i].op.request);
    }
  }

  lemma MemoStored(r: R.RouterState, routeID: string, q: R.Request)
    requires R.InitiateError(r, routeID, q).None?
    ensures var id := R.TransferID(q.assetID, r.nextSequence);
      id in R.InitiateVia(r, routeID, q).transfers && R.InitiateVia(r, routeID, q).transfers[id].memo == Trim(q.memo)
  {
    hide Trim, R.TransferID;
  }

  lemma SameWireMemo(t: R.TransferRecord, t': R.TransferRecord)
    requires Wire(t) == Wire(t')
    ensures t.memo == t'.memo
  {
  }

  /**
    In every run, whatever executes on the destination is what some request asked for: the transfer goes to the
    chain, over the channel and in the denomination of the route or profile it was asked over, with the
    request's asset, amount, receiver, timeout and memo; its message carries all of that; and the execution does
    exactly what that message promises.
   */
  lemma RequestReachesExecution(books: Books, durable: bool, steps: seq<Step>, k: nat) returns (i: nat, e: Envelope)
    requires BooksOk(Defaults(books)) && |steps| < TWO_64 - 2 && k < |Run(Fresh(books, durable), steps).log|
    ensures var s := Run(Fresh(books, durable), steps);
      var x := s.log[k];
      && i < |steps| && steps[i].Source? && steps[i].op.OpInitiate?
      && x.id in s.router.transfers
      && var t, r := s.router.transfers[x.id], Run(Fresh(books, durable), steps[..i]).router;
      && Asked(t, r, steps[i].op.routeID, steps[i].op.request)
      && Delivers(e, t) && Does(x.before, e, x.effect)
  {
    hide Inv, LoggedHavePackets, Run, Execute, Trim, ParseMemo, R.InitiateVia, R.InitiateError, R.TransferID, BooksOk,
         LogOk, ActionListed, Wire, Does, Carries, Delivers, R.Stores;
    var s := Run(Fresh(books, durable), steps);
    i, e := PolicyReachesExecution(books, durable, steps, k);
    var x, t := s.log[k], s.router.transfers[s.log[k].id];
    MessageKept(books, durable, steps, i + 1);
    RunNext(books, durable, steps, i);
    var r := Run(Fresh(books, durable), steps[..i]).router;
    R.InitiateEffect(r, steps[i].op.routeID, steps[i].op.request);
    IDIs(steps[i].op.request.assetID, r.nextSequence);
    SameMessage(R.InitiateVia(r, steps[i].op.routeID, steps[i].op.request).transfers[x.id], t, r,
                steps[i].op.routeID, steps[i].op.request);
    BuildExact(Wire(t));
    MessageDelivers(t, e);
    ExecutionExact(x.before, e);
  }

  /** The message of a stored transfer: its own chain, channel, denomination, receiver, amount and memo. */
  ghost predicate Delivers(e: Envelope, t: R.TransferRecord) {
    && e.transferID == t.transferID && R.ParseSequence(t.transferID) == Some(e.sequence)
    && e.chainID == t.chainID && e.channelID == Trim(t.channelID) && e.denom == Trim(t.denom)
    && e.receiver == Trim(t.receiver) && e.amount == Render(t.amount) && e.baseDenom == Trim(t.assetID)
    && e.timeoutHeight == t.timeoutHeight && e.memo == Trim(t.memo)
    && (forall a :: e.action == Some(a) <==> Means(t.memo, a))
  }

  lemma MessageDelivers(t: R.TransferRecord, e: Envelope)
    requires Carries(e, Wire(t))
    ensures Delivers(e, t)
  {
    ParseRender(t.amount);
    hide Trim, Render, ParseMemo, R.ParseSequence, Means, ParseInt;
    forall a ensures ParseMemo(t.memo) == Do(a) <==> Means(t.memo, a) {
      MemoExact(t.memo, a);
    }
  }

  lemma IDIs(assetID: string, sequence: U64)
    ensures R.TransferID(assetID, sequence) == "ibc/" + Trim(assetID) + "/" + Dec(sequence)
  {
  }

  /** What the request asked for, as the transfer says it, whatever has become of the transfer since. */
  ghost predicate Asked(t: R.TransferRecord, r: R.RouterState, routeID: string, q: R.Request) {
    R.Stores(t.(status := R.Pending, failureReason := ""), r, routeID, q)
  }

  lemma SameMessage(t: R.TransferRecord, t': R.TransferRecord, r: R.RouterState, routeID: string, q: R.Request)
    requires Wire(t) == Wire(t') && R.Stores(t, r, routeID, q)
    ensures Asked(t', r, routeID, q)
  {
    hide R.Goes, Trim, Dec;
    RenderInjective(t.amount, t'.amount);
  }

  lemma RunNext(books: Books, durable: bool, steps: seq<Step>, i: nat)
    requires i < |steps| && steps[i].Source? && !steps[i].op.OpAcknowledge?
    ensures Run(Fresh(books, durable), steps[..i + 1]).router
      == R.RouterStep(Run(Fresh(books, durable), steps[..i]).router, steps[i].op)
  {
    hide R.RouterStep;
    assert steps[..i + 1][..i] == steps[..i];
  }

  lemma EntryIsGenuine(s: System, k: nat)
    requires LogOk(s.router, s.start, s.log) && k < |s.log|
    ensures EntryOk(s.router, s.log[k])
  {
    hide EntryOk;
  }
}
