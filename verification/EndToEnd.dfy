/** Wallets, router, relayer and destination together: where every debited amount is. */
module EndToEnd {
  import opened Base
  import opened Text
  import Bank
  import L = Ledger
  import B = Bridge
  import Signers
  import R = Router
  import W = WalletTransfer
  import D = Destination
  import DestinationLaws
  import T = TwoChain

  /**
    The node with its wallets, and the two-chain system whose source it is. `recalled` holds the transfers
    that the node cancelled itself, in the call that initiated them; nobody outside ever sees them.
   */
  datatype World = World(home: W.Books, abroad: T.System, recalled: set<string>)

  datatype WorldOp = Home(op: W.NodeOp) | Abroad(step: T.Step)

  /** The node cancels the transfer because the chain application failed. */
  predicate Recalls(s: W.Node, q: W.WalletRequest, chain: W.ChainApp) {
    W.Transfer(s, q, chain).1.Err? && W.Transfer(s, q, chain).1.error.ChainFailed?
  }

  /** What an operation is to the node; acknowledgements come only from abroad. */
  function NodeOpOf(w: World, op: WorldOp): Option<W.NodeOp> {
    match op
    case Home(op) => if op.OnRouter? && op.router.OpAcknowledge? then None else Some(op)
    case Abroad(step) =>
      if step.Apply? && step.ack in w.abroad.acks && T.VerdictOf(step.ack).Some?
      then Some(W.OnRouter(R.OpAcknowledge(step.ack.transferID, T.VerdictOf(step.ack).value))) else None
  }

  /** What an operation is to the two-chain system. */
  function StepOf(w: World, op: WorldOp): Option<T.Step> {
    match op
    case Home(OnLedger(_)) => None
    case Home(OnRouter(op)) => if op.OpAcknowledge? then None else Some(T.Source(op))
    case Home(OnTransfer(q, chain)) =>
      if W.Transfer(w.home.node, q, chain).1.Ok? then Some(T.Source(R.OpInitiate(q.routeID, W.RouterRequest(q))))
      else if Recalls(w.home.node, q, chain) then Some(T.TakenBack) else None
    case Abroad(step) => if step.Source? || step.TakenBack? then None else Some(step)
  }

  function RecalledBy(w: World, op: WorldOp): set<string> {
    if op.Home? && op.op.OnTransfer? && Recalls(w.home.node, op.op.request, op.op.chain)
    then {R.TransferID(op.op.request.assetID, w.home.node.router.nextSequence)} else {}
  }

  ghost function WorldStep(c: Signers.Crypto, w: World, op: WorldOp): World {
    World(
      if NodeOpOf(w, op).Some? then W.NodeStep(c, w.home, NodeOpOf(w, op).value) else w.home,
      if StepOf(w, op).Some? then T.Next(w.abroad, StepOf(w, op).value) else w.abroad,
      w.recalled + RecalledBy(w, op))
  }

  ghost function WorldRun(c: Signers.Crypto, w: World, ops: seq<WorldOp>): World {
    if ops == [] then w else WorldStep(c, WorldRun(c, w, ops[..|ops| - 1]), ops[|ops| - 1])
  }

  function Dawn(allowedSigners: seq<string>, requiredThreshold: U32, books: D.Books, durable: bool): World {
    World(W.FreshNode(allowedSigners, requiredThreshold), T.Fresh(books, durable), {})
  }

  // ---- one router, seen from both sides ---------------------------------------------------------------

  function Without(r: R.RouterState, ids: set<string>): R.RouterState {
    r.(transfers := r.transfers - ids, sessions := r.sessions - ids)
  }

  /** Cancelled transfers are settled for good. */
  ghost predicate Settled(r: R.RouterState, ids: set<string>) {
    forall id | id in ids :: id in r.transfers && r.transfers[id].status != R.Pending
  }

  /** The two sides share one router, but for what was cancelled at home, and that was never paid for. */
  ghost predicate Coupled(w: World) {
    && w.abroad.router == Without(w.home.node.router, w.recalled)
    && Settled(w.home.node.router, w.recalled)
    && forall k | 0 <= k < |w.home.sent| :: w.home.sent[k].id !in w.recalled
  }

  lemma SettledStays(r: R.RouterState, op: R.RouterOp, ids: set<string>)
    requires R.RouterInv(r) && r.nextSequence < TWO_64 - 1 && Settled(r, ids)
    ensures Settled(R.RouterStep(r, op), ids)
  {
    hide R.RouterInv, R.RouterStep;
    forall id | id in ids ensures id in R.RouterStep(r, op).transfers
      && R.RouterStep(r, op).transfers[id].status != R.Pending {
      R.StatusOnlyAdvances(r, op, id);
    }
  }

  lemma PutApart<V>(m: map<string, V>, id: string, v: V, ids: set<string>)
    requires id !in ids
    ensures m[id := v] - ids == (m - ids)[id := v]
  {
  }

  lemma DropApart<V>(m: map<string, V>, id: string, v: V, ids: set<string>)
    requires id !in m
    ensures m[id := v] - (ids + {id}) == m - ids
  {
  }

  lemma SameDestination(r: R.RouterState, ids: set<string>, routeID: string, q: R.Request)
    ensures R.Destination(Without(r, ids), routeID, q) == R.Destination(r, routeID, q)
  {
    hide Trim;
  }

  lemma InitiatedApart(r: R.RouterState, routeID: string, q: R.Request, ids: set<string>)
    requires R.RouterInv(r) && r.nextSequence < TWO_64 - 1 && Settled(r, ids)
    ensures Without(R.InitiateVia(r, routeID, q), ids) == R.InitiateVia(Without(r, ids), routeID, q)
  {
    SameDestination(r, ids, routeID, q);
    hide Trim, R.TransferID, R.RouterInv, R.Paired, R.Destination, R.RequestError;
    if R.Destination(r, routeID, q).Ok? && R.RequestError(q).None? {
      var (chainID, channelID, denom) := R.Destination(r, routeID, q).value;
      R.InitiateFresh(r, q, chainID, channelID, denom);
      Positive(q);
      var t := R.NewTransfer(r, q, chainID, channelID, denom);
      assert t.transferID !in ids;
      PutApart(r.transfers, t.transferID, t, ids);
      PutApart(r.sessions, t.transferID, R.FreshSession(t, r.nextSequence), ids);
    }
  }

  lemma Positive(q: R.Request)
    requires R.RequestError(q).None?
    ensures q.amount.Some?
  {
    hide Trim;
  }

  lemma SettledApart(r: R.RouterState, id: string, v: R.Verdict, ids: set<string>)
    requires R.RouterInv(r) && Settled(r, ids)
    ensures Without(R.Acknowledge(r, id, v), ids) == R.Acknowledge(Without(r, ids), id, v)
  {
    hide Trim, R.Settle, R.SettleSession, R.RouterInv, R.Paired;
    if R.PendingError(r, id).None? { R.PairedAt(r, Trim(id)); }
  }

  lemma RefundedApart(r: R.RouterState, id: string, ids: set<string>)
    requires R.RouterInv(r) && Settled(r, ids)
    ensures Without(R.Refund(r, id), ids) == R.Refund(Without(r, ids), id)
  {
    hide Trim, R.RouterInv, R.Paired;
    if Trim(id) in r.transfers { R.PairedAt(r, Trim(id)); }
  }

  lemma StagedApart(r: R.RouterState, id: string, stage: R.TransportStage, ids: set<string>)
    requires R.RouterInv(r) && Settled(r, ids)
    ensures Without(R.SetStage(r, id, stage), ids) == R.SetStage(Without(r, ids), id, stage)
  {
    hide Trim, R.RouterInv, R.Paired;
    if Trim(id) in r.transfers { R.PairedAt(r, Trim(id)); }
  }

  /** No router operation tells the two views apart. */
  lemma OpApart(r: R.RouterState, op: R.RouterOp, ids: set<string>)
    requires R.RouterInv(r) && r.nextSequence < TWO_64 - 1 && Settled(r, ids)
    ensures Without(R.RouterStep(r, op), ids) == R.RouterStep(Without(r, ids), op)
  {
    hide R.RouterInv, R.InitiateVia, R.Acknowledge, R.Refund, R.SetStage, Trim, R.CanonicalProfile, R.CanonicalRoute,
         R.ValidRoute, R.ValidProfile, Settled;
    match op
    case OpInitiate(routeID, q) => InitiatedApart(r, routeID, q, ids);
    case OpAcknowledge(id, v) => SettledApart(r, id, v, ids);
    case OpRefund(id) => RefundedApart(r, id, ids);
    case OpStage(id, stage) => StagedApart(r, id, stage, ids);
    case OpRoute(_) =>
    case OpProfile(_) =>
  }

  /** What initiating and cancelling at once leaves: one record, one session, one used sequence number. */
  lemma CancelledShape(r: R.RouterState, routeID: string, q: R.Request, reason: string)
    returns (t: R.TransferRecord, u: R.TransportRecord)
    requires R.RouterInv(r) && r.nextSequence < TWO_64 - 1 && R.InitiateError(r, routeID, q).None?
    ensures var id := R.TransferID(q.assetID, r.nextSequence);
      && id !in r.transfers && t.status == R.AckFailed
      && R.Acknowledge(R.InitiateVia(r, routeID, q), id, R.AckFailure(reason))
         == T.Skipped(r).(transfers := r.transfers[id := t], sessions := r.sessions[id := u])
  {
    hide R.RouterInv, R.InitiateVia, R.InitiateError, R.TransferID, R.Acknowledge, R.Settle, Trim;
    var pending, session := InitiatedIs(r, routeID, q);
    var started := R.InitiateVia(r, routeID, q);
    CancelledIs(started, pending, reason);
    t := R.Settle(pending, R.AckFailure(reason));
    u := R.SettleSession(R.SessionOf(started, pending), pending, R.AckFailure(reason));
    hide R.SettleSession, R.SessionOf;
    PutTwice(r.transfers, pending.transferID, pending, t);
    PutTwice(r.sessions, pending.transferID, session, u);
  }

  lemma PutTwice<V>(m: map<string, V>, id: string, v: V, w: V)
    ensures m[id := v][id := w] == m[id := w]
  {
  }

  lemma InitiatedIs(r: R.RouterState, routeID: string, q: R.Request)
    returns (t: R.TransferRecord, u: R.TransportRecord)
    requires R.RouterInv(r) && r.nextSequence < TWO_64 - 1 && R.InitiateError(r, routeID, q).None?
    ensures var id := R.TransferID(q.assetID, r.nextSequence);
      && id !in r.transfers && t.transferID == id == Trim(id) && t.status == R.Pending
      && R.InitiateVia(r, routeID, q)
         == T.Skipped(r).(transfers := r.transfers[id := t], sessions := r.sessions[id := u])
  {
    var (chainID, channelID, denom) := R.Destination(r, routeID, q).value;
    R.InitiateFresh(r, q, chainID, channelID, denom);
    Positive(q);
    R.SequenceParsesBack(q.assetID, r.nextSequence);
    hide Trim, R.TransferID, R.RouterInv, R.Paired, R.ParseSequence, R.Destination, R.RequestError;
    t := R.NewTransfer(r, q, chainID, channelID, denom);
    u := R.FreshSession(t, r.nextSequence);
  }

  /** A transfer cancelled at once is, without it, a used sequence number. */
  lemma RecalledApart(r: R.RouterState, routeID: string, q: R.Request, reason: string, ids: set<string>)
    requires R.RouterInv(r) && r.nextSequence < TWO_64 - 1 && Settled(r, ids) && R.InitiateError(r, routeID, q).None?
    ensures var id := R.TransferID(q.assetID, r.nextSequence);
      var r' := R.Acknowledge(R.InitiateVia(r, routeID, q), id, R.AckFailure(reason));
      && Without(r', ids + {id}) == T.Skipped(Without(r, ids)) && Settled(r', ids + {id}) && id !in r.transfers
  {
    hide R.RouterInv, R.InitiateVia, R.Acknowledge, R.InitiateError, R.TransferID;
    var id := R.TransferID(q.assetID, r.nextSequence);
    var t, u := CancelledShape(r, routeID, q, reason);
    NoSession(r, id);
    DropApart(r.transfers, id, t, ids);
    DropApart(r.sessions, id, u, ids);
  }

  lemma CancelledIs(r: R.RouterState, t: R.TransferRecord, reason: string)
    requires t.transferID in r.transfers && r.transfers[t.transferID] == t && t.status == R.Pending
    requires Trim(t.transferID) == t.transferID
    ensures var v := R.AckFailure(reason);
      var r' := R.Acknowledge(r, t.transferID, v);
      && r' == r.(transfers := r.transfers[t.transferID := R.Settle(t, v)],
                  sessions := r.sessions[t.transferID := R.SettleSession(R.SessionOf(r, t), t, v)])
      && r'.transfers[t.transferID].status == R.AckFailed
  {
    hide Trim, R.SettleSession, R.SessionOf;
  }

  lemma NoSession(r: R.RouterState, id: string)
    requires R.RouterInv(r) && id !in r.transfers
    ensures id !in r.sessions
  {
    hide R.Paired, Trim, R.TransferID;
  }

  // ---- every step keeps the two sides coupled ---------------------------------------------------------

  /** What a request does to the router: nothing, one initiation, or one that is cancelled at once. */
  lemma TransferRouter(s: W.Node, q: W.WalletRequest, chain: W.ChainApp)
    ensures var (t, r) := W.Transfer(s, q, chain);
      var request := W.RouterRequest(q);
      var id := R.TransferID(q.assetID, s.router.nextSequence);
      && (r.Ok? ==>
            R.InitiateError(s.router, q.routeID, request).None?
            && t.router == R.InitiateVia(s.router, q.routeID, request)
            && id in t.router.transfers && r.value == t.router.transfers[id])
      && (Recalls(s, q, chain) ==>
            chain.Chain? && R.InitiateError(s.router, q.routeID, request).None?
            && t.router == R.Acknowledge(R.InitiateVia(s.router, q.routeID, request), id,
                                         R.AckFailure(W.FailureText(chain.reason))))
      && (r.Err? && !Recalls(s, q, chain) ==> t.router == s.router)
  {
    if Trim(q.assetID) in s.ledger.policy.assets { FundIsNotChain(s, q, chain); }
    hide Trim, R.InitiateVia, R.InitiateError, R.TransferID, R.Acknowledge, Bank.Debited, Bank.Credited, W.FundError,
         W.RouterRequest;
  }

  lemma FundIsNotChain(s: W.Node, q: W.WalletRequest, chain: W.ChainApp)
    requires Trim(q.assetID) in s.ledger.policy.assets
    ensures W.FundError(s, q, chain).Some? ==> !W.FundError(s, q, chain).value.ChainFailed?
  {
    hide Trim, Bank.DebitError;
  }

  lemma HomeStepCoupled(c: Signers.Crypto, w: World, op: W.NodeOp)
    requires R.RouterInv(w.home.node.router) && w.home.node.router.nextSequence < TWO_64 - 3 && Coupled(w)
    requires !op.OnTransfer?
    ensures Coupled(WorldStep(c, w, Home(op)))
  {
    hide R.RouterInv, R.RouterStep, L.Step, Settled;
    assert w.recalled + {} == w.recalled;
    match op
    case OnLedger(_) =>
    case OnRouter(op) =>
      if !op.OpAcknowledge? {
        SettledStays(w.home.node.router, op, w.recalled);
        OpApart(w.home.node.router, op, w.recalled);
      }
  }

  /** The sides stay coupled when a request is accepted, or refused without a trace. */
  lemma RequestCoupled(c: Signers.Crypto, w: World, q: W.WalletRequest, chain: W.ChainApp)
    requires R.RouterInv(w.home.node.router) && w.home.node.router.nextSequence < TWO_64 - 3 && Coupled(w)
    requires !Recalls(w.home.node, q, chain)
    ensures Coupled(WorldStep(c, w, Home(W.OnTransfer(q, chain))))
  {
    hide R.RouterInv, R.InitiateVia, R.InitiateError, R.TransferID, W.Transfer, Trim, W.DenomOf;
    var r := w.home.node.router;
    var request := W.RouterRequest(q);
    TransferRouter(w.home.node, q, chain);
    assert w.recalled + {} == w.recalled;
    if W.Transfer(w.home.node, q, chain).1.Ok? {
      InitiatedApart(r, q.routeID, request, w.recalled);
      SettledStays(r, R.OpInitiate(q.routeID, request), w.recalled);
      var t, u := InitiatedIs(r, q.routeID, request);
      assert R.TransferID(q.assetID, r.nextSequence) !in w.recalled;
    }
  }

  /** And when it is cancelled at once: what was sent before has another ID. */
  lemma RecallCoupled(c: Signers.Crypto, w: World, q: W.WalletRequest, chain: W.ChainApp)
    requires R.RouterInv(w.home.node.router) && w.home.node.router.nextSequence < TWO_64 - 3 && Coupled(w)
    requires W.SentOk(w.home.node.router, w.home.sent) && Recalls(w.home.node, q, chain)
    ensures Coupled(WorldStep(c, w, Home(W.OnTransfer(q, chain))))
  {
    hide R.RouterInv, R.InitiateVia, R.InitiateError, R.Acknowledge, R.TransferID, W.Transfer, Trim, W.DenomOf, Settled;
    TransferRouter(w.home.node, q, chain);
    RecalledApart(w.home.node.router, q.routeID, W.RouterRequest(q), W.FailureText(chain.reason), w.recalled);
    assert w.home.sent + [] == w.home.sent;
  }

  lemma AbroadStepCoupled(c: Signers.Crypto, w: World, step: T.Step)
    requires R.RouterInv(w.home.node.router) && w.home.node.router.nextSequence < TWO_64 - 3 && Coupled(w)
    ensures Coupled(WorldStep(c, w, Abroad(step)))
  {
    hide R.RouterInv, T.Next, R.RouterStep, Settled;
    var op := Abroad(step);
    assert w.recalled + {} == w.recalled;
    T.NextRouter(w.abroad, step);
    if NodeOpOf(w, op).Some? {
      var o := NodeOpOf(w, op).value.router;
      SettledStays(w.home.node.router, o, w.recalled);
      OpApart(w.home.node.router, o, w.recalled);
      AppliedHere(w.abroad, step.ack);
    } else if step.Apply? {
      NotApplied(w.abroad, step.ack);
    }
  }

  lemma AppliedHere(s: T.System, a: D.AckRecord)
    requires a in s.acks && T.VerdictOf(a).Some?
    ensures T.Next(s, T.Apply(a)).router
      == R.RouterStep(s.router, R.OpAcknowledge(a.transferID, T.VerdictOf(a).value))
  {
    hide R.Acknowledge;
  }

  lemma NotApplied(s: T.System, a: D.AckRecord)
    requires a !in s.acks || T.VerdictOf(a).None?
    ensures T.Next(s, T.Apply(a)).router == s.router
  {
  }

  lemma StepCoupled(c: Signers.Crypto, w: World, op: WorldOp)
    requires R.RouterInv(w.home.node.router) && w.home.node.router.nextSequence < TWO_64 - 3 && Coupled(w)
    requires W.SentOk(w.home.node.router, w.home.sent)
    ensures Coupled(WorldStep(c, w, op))
  {
    hide R.RouterInv, Coupled, WorldStep, W.SentOk, Recalls;
    match op
    case Home(OnTransfer(q, chain)) =>
      if Recalls(w.home.node, q, chain) { RecallCoupled(c, w, q, chain); } else { RequestCoupled(c, w, q, chain); }
    case Home(o) => HomeStepCoupled(c, w, o);
    case Abroad(step) => AbroadStepCoupled(c, w, step);
  }

  // ---- a run of the world is a run of either side ---------------------------------------------------------

  ghost function NodeOps(c: Signers.Crypto, w: World, ops: seq<WorldOp>): (trace: seq<W.NodeOp>)
    ensures |trace| <= |ops|
  {
    if ops == [] then []
    else
      var front, o := ops[..|ops| - 1], NodeOpOf(WorldRun(c, w, ops[..|ops| - 1]), ops[|ops| - 1]);
      NodeOps(c, w, front) + if o.Some? then [o.value] else []
  }

  ghost function Steps(c: Signers.Crypto, w: World, ops: seq<WorldOp>): (trace: seq<T.Step>)
    ensures |trace| <= |ops|
  {
    if ops == [] then []
    else
      var front, o := ops[..|ops| - 1], StepOf(WorldRun(c, w, ops[..|ops| - 1]), ops[|ops| - 1]);
      Steps(c, w, front) + if o.Some? then [o.value] else []
  }

  lemma {:induction false} BothSidesRun(c: Signers.Crypto, w: World, ops: seq<WorldOp>)
    ensures WorldRun(c, w, ops).home == W.NodeRun(c, w.home, NodeOps(c, w, ops))
    ensures WorldRun(c, w, ops).abroad == T.Run(w.abroad, Steps(c, w, ops))
  {
    hide W.NodeStep, T.Next, NodeOpOf, StepOf, RecalledBy;
    if ops != [] {
      var front, last := ops[..|ops| - 1], ops[|ops| - 1];
      BothSidesRun(c, w, front);
      var before := WorldRun(c, w, front);
      var o, p := NodeOpOf(before, last), StepOf(before, last);
      if o.Some? { OneMoreOp(c, w.home, NodeOps(c, w, front), o.value); }
      if p.Some? { OneMoreStep(w.abroad, Steps(c, w, front), p.value); }
      assert NodeOps(c, w, front) + [] == NodeOps(c, w, front) && Steps(c, w, front) + [] == Steps(c, w, front);
    }
  }

  lemma OneMoreOp(c: Signers.Crypto, s: W.Books, ops: seq<W.NodeOp>, op: W.NodeOp)
    ensures W.NodeRun(c, s, ops + [op]) == W.NodeStep(c, W.NodeRun(c, s, ops), op)
  {
    hide W.NodeStep;
    assert (ops + [op])[..|ops|] == ops;
  }

  lemma OneMoreStep(s: T.System, steps: seq<T.Step>, step: T.Step)
    ensures T.Run(s, steps + [step]) == T.Next(T.Run(s, steps), step)
  {
    hide T.Next;
    assert (steps + [step])[..|steps|] == steps;
  }

  lemma {:induction false} RunCoupled(c: Signers.Crypto, allowedSigners: seq<string>, requiredThreshold: U32,
                                      books: D.Books, durable: bool, ops: seq<WorldOp>)
    requires |ops| < TWO_64 - 6
    ensures Coupled(WorldRun(c, Dawn(allowedSigners, requiredThreshold, books, durable), ops))
  {
    hide WorldStep, W.NodeInv, Coupled, R.RouterInv, W.NodeRun, T.Run, T.Fresh, L.GenesisLedger;
    var dawn := Dawn(allowedSigners, requiredThreshold, books, durable);
    if ops == [] {
      DawnCoupled(allowedSigners, requiredThreshold, books, durable);
    } else {
      var front := ops[..|ops| - 1];
      RunCoupled(c, allowedSigners, requiredThreshold, books, durable, front);
      BothSidesRun(c, dawn, front);
      W.NodeRunKeeps(c, allowedSigners, requiredThreshold, NodeOps(c, dawn, front));
      W.NodeInvRouter(WorldRun(c, dawn, front).home);
      StepCoupled(c, WorldRun(c, dawn, front), ops[|ops| - 1]);
    }
  }

  lemma DawnCoupled(allowedSigners: seq<string>, requiredThreshold: U32, books: D.Books, durable: bool)
    ensures Coupled(Dawn(allowedSigners, requiredThreshold, books, durable))
  {
    hide L.GenesisLedger, D.Defaults;
  }

  // ---- where the money is -----------------------------------------------------------------------------------

  /** The amount debited for a transfer, in the denomination asked for. */
  function SentAmount(sent: seq<W.Sent>, id: string, d: string): int {
    if sent == [] then 0
    else
      var last := sent[|sent| - 1];
      if last.id == id then if last.denom == d then last.amount else 0 else SentAmount(sent[..|sent| - 1], id, d)
  }

  /** What successful executions have brought across, in terms of what was debited for them. */
  function Arrived(log: seq<T.Entry>, sent: seq<W.Sent>, d: string): int {
    if log == [] then 0
    else
      var last := log[|log| - 1];
      Arrived(log[..|log| - 1], sent, d) + if last.effect.failure.None? then SentAmount(sent, last.id, d) else 0
  }

  /** What was debited for transfers that have not executed with success: still pending, failed or refunded. */
  ghost function Underway(sent: seq<W.Sent>, log: seq<T.Entry>, d: string): int {
    if sent == [] then 0
    else
      var last := sent[|sent| - 1];
      Underway(sent[..|sent| - 1], log, d) + if last.denom == d && !T.Succeeded(log, last.id) then last.amount else 0
  }

  ghost predicate OwnIDs(sent: seq<W.Sent>) {
    forall k, l | 0 <= k < l < |sent| :: sent[k].id != sent[l].id
  }

  lemma {:induction false} NothingUnder(sent: seq<W.Sent>, id: string, d: string)
    requires forall k | 0 <= k < |sent| :: sent[k].id != id
    ensures SentAmount(sent, id, d) == 0
  {
    if sent != [] { NothingUnder(sent[..|sent| - 1], id, d); }
  }

  lemma SucceededNext(log: seq<T.Entry>, x: T.Entry, id: string)
    ensures T.Succeeded(log + [x], id) <==> T.Succeeded(log, id) || (x.id == id && x.effect.failure.None?)
  {
    var more := log + [x];
    if T.Succeeded(log, id) {
      var k :| 0 <= k < |log| && log[k].id == id && log[k].effect.failure.None?;
      assert more[k] == log[k];
    }
    if x.id == id && x.effect.failure.None? { assert more[|log|] == x; }
  }

  /** One execution takes its own transfer out of what is underway, and no other. */
  lemma {:induction false} UnderwayNext(sent: seq<W.Sent>, log: seq<T.Entry>, x: T.Entry, d: string)
    requires OwnIDs(sent) && forall k | 0 <= k < |log| :: log[k].id != x.id
    ensures Underway(sent, log + [x], d)
      == Underway(sent, log, d) - if x.effect.failure.None? then SentAmount(sent, x.id, d) else 0
  {
    hide T.Succeeded;
    if sent != [] {
      var front, last := sent[..|sent| - 1], sent[|sent| - 1];
      UnderwayNext(front, log, x, d);
      SucceededNext(log, x, last.id);
      if last.id == x.id {
        NothingUnder(front, x.id, d);
        NeverYet(log, x.id);
      }
    }
  }

  lemma NeverYet(log: seq<T.Entry>, id: string)
    requires forall k | 0 <= k < |log| :: log[k].id != id
    ensures !T.Succeeded(log, id)
  {
  }

  lemma {:induction false} AllUnderway(sent: seq<W.Sent>, d: string)
    ensures Underway(sent, [], d) == W.SentOf(sent, d)
  {
    if sent != [] {
      AllUnderway(sent[..|sent| - 1], d);
      NeverYet([], sent[|sent| - 1].id);
    }
  }

  /** Every debited amount is underway or has arrived, exactly once. */
  lemma {:induction false} UnderwayOrArrived(sent: seq<W.Sent>, log: seq<T.Entry>, d: string)
    requires OwnIDs(sent) && forall k, l | 0 <= k < l < |log| :: log[k].id != log[l].id
    ensures W.SentOf(sent, d) == Underway(sent, log, d) + Arrived(log, sent, d)
    decreases |log|
  {
    hide Underway, W.SentOf, SentAmount;
    if log == [] {
      AllUnderway(sent, d);
    } else {
      var front, last := log[..|log| - 1], log[|log| - 1];
      assert log == front + [last];
      UnderwayOrArrived(sent, front, d);
      UnderwayNext(sent, front, last, d);
    }
  }

  /** What the source's status of a funded transfer says about where its amount is. */
  ghost predicate Placed(w: World, log: seq<T.Entry>, x: W.Sent) {
    && x.id in w.home.node.router.transfers
    && match w.home.node.router.transfers[x.id].status
       case Pending => true
       case Completed => T.Succeeded(log, x.id)
       case AckFailed => !T.Succeeded(log, x.id)
       case Refunded => !T.Succeeded(log, x.id)
       case TimedOut => false
  }

  lemma SettledPlace(log: seq<T.Entry>, id: string, status: R.TransferStatus)
    requires T.StatusOk(log, id, status) && forall k, l | 0 <= k < l < |log| :: log[k].id != log[l].id
    ensures status == R.Completed ==> T.Succeeded(log, id)
    ensures status == R.AckFailed || status == R.Refunded ==> !T.Succeeded(log, id)
    ensures status != R.TimedOut
  {
  }

  /** What arrived for a funded transfer is the very amount that was debited. */
  ghost predicate Carried(w: World, x: W.Sent) {
    T.Succeeded(w.abroad.log, x.id) ==>
      exists k: nat :: T.ExecutedOnce(w.abroad, x.id, k)
        && w.abroad.target.executions[k].inputAmount == Render(x.amount)
  }

  lemma CarriesIt(w: World, x: W.Sent)
    requires T.Inv(w.abroad) && Coupled(w) && x in w.home.sent && W.SentOk(w.home.node.router, w.home.sent)
    ensures Carried(w, x)
  {
    hide T.Inv, T.ExecutedOnce, Render, Settled;
    if T.Succeeded(w.abroad.log, x.id) {
      var k :| 0 <= k < |w.abroad.log| && w.abroad.log[k].id == x.id && w.abroad.log[k].effect.failure.None?;
      T.LogIsOnce(w.abroad, k);
      CarriesAmount(w.abroad, x.id, k);
    }
  }

  lemma CarriesAmount(s: T.System, id: string, k: nat)
    requires T.ExecutedOnce(s, id, k)
    ensures id in s.router.transfers && k < |s.target.executions|
    ensures s.target.executions[k].inputAmount == Render(s.router.transfers[id].amount)
  {
    hide Render, R.ParseSequence;
  }

  lemma SentPlaced(w: World, far: T.System, x: W.Sent)
    requires T.Inv(far) && !far.careless && far.router == w.abroad.router && Coupled(w) && x in w.home.sent
    requires W.SentOk(w.home.node.router, w.home.sent)
    ensures Placed(w, far.log, x)
  {
    T.InvRouter(far);
    T.InvLog(far);
    T.LogDistinct(far.router, far.start, far.log);
    hide T.Inv, T.Succeeded, R.RouterInv, T.LogOk, T.AcksOk, T.StatusOk, Settled;
    SettledPlace(far.log, x.id, far.router.transfers[x.id].status);
  }

  /**
    The journey of the money, over every run of deposits, withdrawals, wallet transfers, deliveries, polls,
    acknowledgements, failing writes and crashes. In every denomination the bridge supply is what wallets
    hold, plus what was debited for transfers that have not executed with success, plus what was debited for
    those that have. Each of the latter executed exactly once, with exactly the amount debited. And as long as
    no poll listed what the file does not bear out, a completed transfer is among them and a failed or
    refunded one is not, in memory and on file alike.
   */
  lemma EveryDebitIsSomewhere(c: Signers.Crypto, allowedSigners: seq<string>, requiredThreshold: U32, books: D.Books,
                              durable: bool, ops: seq<WorldOp>, d: string)
    requires T.BooksOk(D.Defaults(books)) && |ops| < TWO_64 - 6
    ensures var w := WorldRun(c, Dawn(allowedSigners, requiredThreshold, books, durable), ops);
      var ledger, sent := w.home.node.ledger, w.home.sent;
      && B.SupplyOf(ledger.bridge.supply, d)
         == Bank.TotalHeld(ledger.bank, d) + Underway(sent, w.abroad.log, d) + Arrived(w.abroad.log, sent, d)
      && (forall x | x in sent :: Carried(w, x))
      && (!w.abroad.careless ==> forall x | x in sent :: Placed(w, w.abroad.log, x) && Placed(w, w.abroad.saved.log, x))
  {
    var dawn := Dawn(allowedSigners, requiredThreshold, books, durable);
    var w := WorldRun(c, dawn, ops);
    hide WorldRun, W.NodeRun, T.Run, T.Fresh, T.Inv, T.LoggedHavePackets, W.SentOk, Coupled, Underway, Arrived,
         W.SentOf, Bank.TotalHeld, Carried, Placed, T.BooksOk, D.Defaults, L.GenesisLedger;
    RunCoupled(c, allowedSigners, requiredThreshold, books, durable, ops);
    BothSidesRun(c, dawn, ops);
    W.WalletsPlusTransfersIsSupply(c, allowedSigners, requiredThreshold, NodeOps(c, dawn, ops), d);
    T.RunKeepsSound(books, durable, Steps(c, dawn, ops));
    T.InvLog(w.abroad);
    T.LogDistinct(w.abroad.router, w.abroad.start, w.abroad.log);
    SentDistinct(w.home.node.router, w.home.sent);
    UnderwayOrArrived(w.home.sent, w.abroad.log, d);
    forall x | x in w.home.sent ensures Carried(w, x) {
      CarriesIt(w, x);
    }
    if !w.abroad.careless {
      T.SoundParts(w.abroad);
      forall x | x in w.home.sent ensures Placed(w, w.abroad.log, x) && Placed(w, w.abroad.saved.log, x) {
        SentPlaced(w, w.abroad, x);
        SentPlaced(w, T.Disk(w.abroad), x);
      }
    }
  }

  lemma SentDistinct(r: R.RouterState, sent: seq<W.Sent>)
    requires W.SentOk(r, sent)
    ensures OwnIDs(sent)
  {
  }
}
