/** The source chain's router keeper: routes, transfers and their transport sessions. */
module Router {
  import opened Base
  import opened Text
  import opened RouteAction

  datatype Route = Route(assetID: string, chainID: string, channelID: string, denom: string, enabled: bool)

  datatype AssetRoute = AssetRoute(assetID: string, denom: string)

  datatype RouteProfile = RouteProfile(
    routeID: string, chainID: string, channelID: string, enabled: bool, assets: seq<AssetRoute>, policy: RoutePolicy)

  datatype TransferStatus = Pending | Completed | AckFailed | TimedOut | Refunded

  datatype TransferRecord = TransferRecord(
    transferID: string, assetID: string, amount: int, receiver: string, chainID: string, channelID: string,
      denom: string,
    timeoutHeight: U64, memo: string, status: TransferStatus, failureReason: string)

  datatype TransportStage = HandshakePending | HandshakeOpen | PacketRelayed | AckCompletedStage | AckFailedStage
    | TimedOutStage

  datatype TransportRecord = TransportRecord(
    transferID: string, assetID: string, chainID: string, channelID: string, sequence: U64, stage: TransportStage,
      ackReason: string)

  datatype RouterState = RouterState(
    routes: map<string, Route>,
    profiles: map<string, RouteProfile>,
    transfers: map<string, TransferRecord>,
    sessions: map<string, TransportRecord>,
    nextSequence: U64)

  datatype RouterError =
    | RouteNotFound | RouteDisabled | InvalidRoute | InvalidTransfer | TransferNotFound | TransferNotPending
    | TransferNotRecoverable | ProfileNotFound | ProfileDisabled | InvalidProfile | AssetNotAllowed | PolicyViolation

  function TransferID(assetID: string, sequence: U64): string {
    "ibc/" + Trim(assetID) + "/" + Dec(sequence)
  }

  // ---- initiating a transfer --------------------------------------------------------------

  datatype Request = Request(assetID: string, amount: BigInt, receiver: string, timeoutHeight: U64, memo: string)

  function RequestError(r: Request): Option<RouterError> {
    if !Positive(r.amount) || Trim(r.receiver) == "" || r.timeoutHeight == 0 then Some(InvalidTransfer) else None
  }

  function NewTransfer(s: RouterState, r: Request, chainID: string, channelID: string, denom: string): TransferRecord
    requires r.amount.Some?
  {
    TransferRecord(TransferID(r.assetID, s.nextSequence), Trim(r.assetID), r.amount.value, Trim(r.receiver),
      Trim(chainID),
                   Trim(channelID), Trim(denom), r.timeoutHeight, Trim(r.memo), Pending, "")
  }

  function FreshSession(t: TransferRecord, sequence: U64): TransportRecord {
    TransportRecord(t.transferID, t.assetID, t.chainID, t.channelID, sequence, HandshakePending, "")
  }

  /** `initiateTransfer`, once the route is known. */
  function Initiate(s: RouterState, r: Request, chainID: string, channelID: string, denom: string): RouterState {
    if RequestError(r).Some? then s
    else
      var t := NewTransfer(s, r, chainID, channelID, denom);
      s.(nextSequence := Add64(s.nextSequence, 1),
         transfers := s.transfers[t.transferID := t],
         sessions := s.sessions[t.transferID := FreshSession(t, s.nextSequence)])
  }

  /** Where a request goes: chain, channel and denomination, or why it may not go. */
  function RouteFor(s: RouterState, r: Request): Result<(string, string, string), RouterError> {
    var key := Trim(r.assetID);
    if key !in s.routes then Err(RouteNotFound)
    else if !s.routes[key].enabled then Err(RouteDisabled)
    else Ok((s.routes[key].chainID, s.routes[key].channelID, s.routes[key].denom))
  }

  function FindAsset(assets: seq<AssetRoute>, assetID: string): (r: Option<AssetRoute>)
    ensures r.Some? ==> r.value in assets && Trim(r.value.assetID) == Trim(assetID)
    decreases |assets|
  {
    if assets == [] then None
    else if Trim(assets[0].assetID) == Trim(assetID) then Some(assets[0])
    else FindAsset(assets[1..], assetID)
  }

  function ProfileFor(s: RouterState, routeID: string, r: Request): Result<(string, string, string), RouterError> {
    var key := Trim(routeID);
    if key !in s.profiles then Err(ProfileNotFound)
    else
      var p := s.profiles[key];
      if !p.enabled then Err(ProfileDisabled)
      else if FindAsset(p.assets, r.assetID).None? then Err(AssetNotAllowed)
      else if !AllowsAction(p.policy, r.memo) then Err(PolicyViolation)
      else if !AllowsMemo(p.policy, r.memo) then Err(PolicyViolation)
      else Ok((p.chainID, p.channelID, Trim(FindAsset(p.assets, r.assetID).value.denom)))
  }

  /** With a blank route id the asset's own route is used. */
  function Destination(s: RouterState, routeID: string, r: Request): Result<(string, string, string), RouterError> {
    if Trim(routeID) == "" then RouteFor(s, r) else ProfileFor(s, routeID, r)
  }

  function InitiateVia(s: RouterState, routeID: string, r: Request): RouterState {
    match Destination(s, routeID, r)
    case Err(_) => s
    case Ok((chainID, channelID, denom)) => Initiate(s, r, chainID, channelID, denom)
  }

  function InitiateError(s: RouterState, routeID: string, r: Request): Option<RouterError> {
    match Destination(s, routeID, r)
    case Err(e) => Some(e)
    case Ok(_) => RequestError(r)
  }

  // ---- acknowledgements -----------------------------------------------------------------------

  datatype Verdict = AckSuccess | AckFailure(reason: string) | Timeout

  function PendingError(s: RouterState, id: string): Option<RouterError> {
    if Trim(id) !in s.transfers then Some(TransferNotFound)
    else if s.transfers[Trim(id)].status != Pending then Some(TransferNotPending)
    else None
  }

  function SessionOf(s: RouterState, t: TransferRecord): TransportRecord {
    if t.transferID in s.sessions then s.sessions[t.transferID] else FreshSession(t, TransferSequence(t.transferID))
  }

  function Settle(t: TransferRecord, v: Verdict): TransferRecord {
    match v
    case AckSuccess => t.(status := Completed, failureReason := "")
    case AckFailure(reason) => t.(status := AckFailed, failureReason := Trim(reason))
    case Timeout => t.(status := TimedOut)
  }

  function SettleSession(u: TransportRecord, t: TransferRecord, v: Verdict): TransportRecord {
    match v
    case AckSuccess => u.(stage := AckCompletedStage, ackReason := "")
    case AckFailure(reason) => u.(stage := AckFailedStage, ackReason := Trim(reason))
    case Timeout => u.(stage := TimedOutStage, ackReason := Trim(t.failureReason))
  }

  /** `AcknowledgeSuccess`, `AcknowledgeFailure` and `TimeoutTransfer`. */
  function Acknowledge(s: RouterState, id: string, v: Verdict): RouterState {
    if PendingError(s, id).Some? then s
    else
      var t := s.transfers[Trim(id)];
      s.(transfers := s.transfers[t.transferID := Settle(t, v)],
         sessions := s.sessions[t.transferID := SettleSession(SessionOf(s, t), t, v)])
  }

  function RefundError(s: RouterState, id: string): Option<RouterError> {
    if Trim(id) !in s.transfers then Some(TransferNotFound)
    else if s.transfers[Trim(id)].status != AckFailed && s.transfers[Trim(id)].status != TimedOut then
      Some(TransferNotRecoverable)
    else None
  }

  function Refund(s: RouterState, id: string): RouterState {
    if RefundError(s, id).Some? then s
    else
      var t := s.transfers[Trim(id)];
      s.(transfers := s.transfers[t.transferID := t.(status := Refunded)])
  }

  /** `OpenTransportSession` and `MarkPacketRelayed`. */
  function SetStage(s: RouterState, id: string, stage: TransportStage): RouterState {
    if Trim(id) !in s.transfers then s
    else
      var t := s.transfers[Trim(id)];
      s.(sessions := s.sessions[t.transferID := SessionOf(s, t).(stage := stage, ackReason := "")])
  }

  /** `transferSequence` and `parseTransferSequence`: the number after the last slash; 0 when there is none. */
  function ParseSequence(id: string): Option<U64> {
    ParseUint(Last(Split(Trim(id), '/')))
  }

  function TransferSequence(id: string): U64 {
    if ParseSequence(id).None? then 0 else ParseSequence(id).value
  }

  predicate ValidRoute(r: Route) {
    Trim(r.assetID) != "" && Trim(r.chainID) != "" && Trim(r.channelID) != "" && Trim(r.denom) != ""
  }

  function CanonicalRoute(r: Route): Route {
    Route(Trim(r.assetID), Trim(r.chainID), Trim(r.channelID), Trim(r.denom), r.enabled)
  }

  predicate ValidProfile(p: RouteProfile) {
    && Trim(p.routeID) != "" && Trim(p.chainID) != "" && Trim(p.channelID) != "" && p.assets != []
    && forall i | 0 <= i < |p.assets| :: Trim(p.assets[i].assetID) != "" && Trim(p.assets[i].denom) != ""
  }

  function CanonicalProfile(p: RouteProfile): RouteProfile {
    RouteProfile(Trim(p.routeID), Trim(p.chainID), Trim(p.channelID), p.enabled,
                 seq(|p.assets|, i requires 0 <= i < |p.assets| =>
                   AssetRoute(Trim(p.assets[i].assetID), Trim(p.assets[i].denom))),
                 CanonicalPolicy(p.policy))
  }

  // ---- the class ------------------------------------------------------------------------------------

  class RouterKeeper {
    var routes: map<string, Route>
    var routeProfiles: map<string, RouteProfile>
    var transfers: map<string, TransferRecord>
    var transportSessions: map<string, TransportRecord>
    var nextSequence: U64

    constructor ()
      ensures State() == EmptyRouter()
    {
      routes, routeProfiles, transfers, transportSessions, nextSequence := map[], map[], map[], map[], 1;
    }

    ghost function State(): RouterState
      reads this
    {
      RouterState(routes, routeProfiles, transfers, transportSessions, nextSequence)
    }

    method SetRoute(route: Route) returns (ok: bool)
      modifies this
      ensures ok == ValidRoute(route)
      ensures State() == PutRoute(old(State()), route)
    {
      ok := ValidRoute(route);
      if ok { routes := routes[Trim(CanonicalRoute(route).assetID) := CanonicalRoute(route)]; }
    }

    method SetRouteProfile(profile: RouteProfile) returns (ok: bool)
      modifies this
      ensures ok == ValidProfile(profile)
      ensures State() == PutProfile(old(State()), profile)
    {
      ok := ValidProfile(profile);
      if ok { routeProfiles := routeProfiles[Trim(CanonicalProfile(profile).routeID) := CanonicalProfile(profile)]; }
    }

    /** `InitiateTransfer` and `InitiateTransferWithProfile`. */
    method InitiateTransfer(routeID: string, r: Request) returns (result: Result<TransferRecord, RouterError>)
      modifies this
      ensures State() == InitiateVia(old(State()), routeID, r)
      ensures result.Err? <==> InitiateError(old(State()), routeID, r).Some?
      ensures result.Err? ==> result.error == InitiateError(old(State()), routeID, r).value
      ensures result.Ok? ==> result.value.transferID == TransferID(r.assetID, old(nextSequence))
      ensures result.Ok? ==> result.value.transferID in transfers && transfers[result.value.transferID] == result.value
    {
      hide Trim, AllowsAction, AllowsMemo, FindAsset, Dec;
      var found := Lookup(routeID, r);
      if found.Err? { return Err(found.error); }
      if RequestError(r).Some? { return Err(InvalidTransfer); }
      var (chainID, channelID, denom) := found.value;
      var sequence := nextSequence;
      nextSequence := Add64(nextSequence, 1);
      var record := TransferRecord(TransferID(r.assetID, sequence), Trim(r.assetID), r.amount.value, Trim(r.receiver),
        Trim(chainID),
                                   Trim(channelID), Trim(denom), r.timeoutHeight, Trim(r.memo), Pending, "");
      transfers := transfers[record.transferID := record];
      transportSessions := transportSessions[record.transferID := FreshSession(record, sequence)];
      result := Ok(record);
    }

    method Lookup(routeID: string, r: Request) returns (found: Result<(string, string, string), RouterError>)
      ensures found == Destination(State(), routeID, r)
    {
      hide Trim, AllowsAction, AllowsMemo;
      if Trim(routeID) == "" {
        var key := Trim(r.assetID);
        if key !in routes { return Err(RouteNotFound); }
        if !routes[key].enabled { return Err(RouteDisabled); }
        return Ok((routes[key].chainID, routes[key].channelID, routes[key].denom));
      }
      var key := Trim(routeID);
      if key !in routeProfiles { return Err(ProfileNotFound); }
      var profile := routeProfiles[key];
      if !profile.enabled { return Err(ProfileDisabled); }
      var asset := FindAsset(profile.assets, r.assetID);
      if asset.None? { return Err(AssetNotAllowed); }
      if !AllowsAction(profile.policy, r.memo) { return Err(PolicyViolation); }
      if !AllowsMemo(profile.policy, r.memo) { return Err(PolicyViolation); }
      found := Ok((profile.chainID, profile.channelID, Trim(asset.value.denom)));
    }

    method Session(record: TransferRecord) returns (session: TransportRecord)
      ensures session == SessionOf(State(), record)
    {
      if record.transferID in transportSessions { return transportSessions[record.transferID]; }
      session := FreshSession(record, TransferSequence(record.transferID));
    }

    method AcknowledgeTransfer(id: string, v: Verdict) returns (e: Option<RouterError>)
      modifies this
      ensures e == PendingError(old(State()), id)
      ensures State() == Acknowledge(old(State()), id, v)
    {
      hide Trim, TransferSequence;
      var key := Trim(id);
      if key !in transfers { return Some(TransferNotFound); }
      var record := transfers[key];
      if record.status != Pending { return Some(TransferNotPending); }
      var session := Session(record);
      transfers := transfers[record.transferID := Settle(record, v)];
      transportSessions := transportSessions[record.transferID := SettleSession(session, record, v)];
      e := None;
    }

    method MarkRefunded(id: string) returns (e: Option<RouterError>)
      modifies this
      ensures e == RefundError(old(State()), id)
      ensures State() == Refund(old(State()), id)
    {
      var key := Trim(id);
      if key !in transfers { return Some(TransferNotFound); }
      var record := transfers[key];
      if record.status != AckFailed && record.status != TimedOut { return Some(TransferNotRecoverable); }
      transfers := transfers[record.transferID := record.(status := Refunded)];
      e := None;
    }

    method SetTransportStage(id: string, stage: TransportStage) returns (e: Option<RouterError>)
      modifies this
      ensures e == if Trim(id) in old(transfers) then None else Some(TransferNotFound)
      ensures State() == SetStage(old(State()), id, stage)
    {
      hide Trim, TransferSequence;
      var key := Trim(id);
      if key !in transfers { return Some(TransferNotFound); }
      var session := Session(transfers[key]);
      transportSessions := transportSessions[transfers[key].transferID := session.(stage := stage, ackReason := "")];
      e := None;
    }
  }

  function EmptyRouter(): RouterState {
    RouterState(map[], map[], map[], map[], 1)
  }

  function PutRoute(s: RouterState, r: Route): RouterState {
    if ValidRoute(r) then s.(routes := s.routes[Trim(CanonicalRoute(r).assetID) := CanonicalRoute(r)]) else s
  }

  function PutProfile(s: RouterState, p: RouteProfile): RouterState {
    if ValidProfile(p) then s.(profiles := s.profiles[Trim(CanonicalProfile(p).routeID) := CanonicalProfile(p)]) else s
  }

  // ---- what every operation keeps -----------------------------------------------------------------------

  /** One transfer and its session tell the same story, down to the sequence spelled in the ID. */
  ghost predicate Paired(id: string, t: TransferRecord, u: TransportRecord, next: U64) {
    && t.transferID == id == u.transferID
    && t.assetID == u.assetID && t.chainID == u.chainID && t.channelID == u.channelID
    && 1 <= u.sequence < next
    && id == TransferID(t.assetID, u.sequence)
    && t.amount > 0
    && Trim(t.receiver) == t.receiver != "" && Trim(t.memo) == t.memo && Trim(t.denom) == t.denom
    && Trim(t.assetID) == t.assetID
  }

  ghost predicate RouterInv(s: RouterState) {
    && s.nextSequence >= 1
    && s.sessions.Keys == s.transfers.Keys
    && (forall id | id in s.transfers :: Paired(id, s.transfers[id], s.sessions[id], s.nextSequence))
    && (forall a, b | a in s.transfers && b in s.transfers && s.sessions[a].sequence == s.sessions[b].sequence ::
        a == b)
  }

  /** The sequence parses back out of the ID, whatever the asset is called. */
  lemma SequenceParsesBack(assetID: string, sequence: U64)
    ensures ParseSequence(TransferID(assetID, sequence)) == Some(sequence)
    ensures Trim(TransferID(assetID, sequence)) == TransferID(assetID, sequence)
  {
    var d := Dec(sequence);
    var front := "ibc/" + Trim(assetID);
    var id := TransferID(assetID, sequence);
    assert id == front + ['/'] + d;
    assert IsDigit(d[0]) && IsDigit(d[|d| - 1]) && id[|id| - 1] == d[|d| - 1] && id[0] == 'i';
    SolidEndsTrim(id);
    hide Trim, Dec, DigitsValue;
    assert forall i | 0 <= i < |d| :: IsDigit(d[i]) && d[i] != '/';
    SplitLast(front, '/', d);
    DecValue(sequence);
  }

  lemma PairedSequence(id: string, t: TransferRecord, u: TransportRecord, next: U64)
    requires Paired(id, t, u, next)
    ensures TransferSequence(id) == u.sequence && Trim(id) == id
  {
    hide Trim;
    SequenceParsesBack(t.assetID, u.sequence);
  }

  datatype RouterOp =
    | OpInitiate(routeID: string, request: Request)
    | OpAcknowledge(id: string, verdict: Verdict)
    | OpRefund(id: string)
    | OpStage(id: string, stage: TransportStage)
    | OpRoute(route: Route)
    | OpProfile(profile: RouteProfile)

  function RouterStep(s: RouterState, op: RouterOp): RouterState {
    match op
    case OpInitiate(routeID, r) => InitiateVia(s, routeID, r)
    case OpAcknowledge(id, v) => Acknowledge(s, id, v)
    case OpRefund(id) => Refund(s, id)
    case OpStage(id, stage) => SetStage(s, id, stage)
    case OpRoute(route) => PutRoute(s, route)
    case OpProfile(profile) => PutProfile(s, profile)
  }

  function RouterRun(s: RouterState, ops: seq<RouterOp>): RouterState {
    if ops == [] then s else RouterStep(RouterRun(s, ops[..|ops| - 1]), ops[|ops| - 1])
  }

  /** A transfer enters under an ID nobody used; the sequence must not wrap. */
  lemma InitiateFresh(s: RouterState, r: Request, chainID: string, channelID: string, denom: string)
    requires RouterInv(s) && s.nextSequence < TWO_64 - 1 && RequestError(r).None?
    ensures var t := NewTransfer(s, r, chainID, channelID, denom);
      && t.transferID !in s.transfers
      && Paired(t.transferID, t, FreshSession(t, s.nextSequence), s.nextSequence + 1)
  {
    var t := NewTransfer(s, r, chainID, channelID, denom);
    TrimTwice(r.assetID); TrimTwice(r.receiver); TrimTwice(r.memo); TrimTwice(denom);
    hide Trim, TransferID, ParseSequence;
    if t.transferID in s.transfers {
      var u := s.sessions[t.transferID];
      SequenceParsesBack(s.transfers[t.transferID].assetID, u.sequence);
      SequenceParsesBack(r.assetID, s.nextSequence);
    }
    TransferIDTrims(r.assetID, s.nextSequence);
  }

  lemma TransferIDTrims(assetID: string, sequence: U64)
    ensures TransferID(Trim(assetID), sequence) == TransferID(assetID, sequence)
  {
    TrimTwice(assetID);
  }

  lemma PairedNext(s: RouterState, next: U64)
    requires RouterInv(s) && next >= s.nextSequence
    ensures forall id | id in s.transfers :: Paired(id, s.transfers[id], s.sessions[id], next)
  {
    hide Trim, TransferID;
  }

  lemma InitiateKeepsInv(s: RouterState, routeID: string, r: Request)
    requires RouterInv(s) && s.nextSequence < TWO_64 - 1
    ensures RouterInv(InitiateVia(s, routeID, r))
    ensures InitiateVia(s, routeID, r).nextSequence <= s.nextSequence + 1
  {
    hide Trim, Destination, Paired, TransferID;
    if InitiateError(s, routeID, r).None? {
      var (chainID, channelID, denom) := Destination(s, routeID, r).value;
      InitiateFresh(s, r, chainID, channelID, denom);
      PairedNext(s, s.nextSequence + 1);
      SequencesBelow(s);
    }
  }

  lemma SequencesBelow(s: RouterState)
    requires RouterInv(s)
    ensures forall id | id in s.transfers :: s.sessions[id].sequence < s.nextSequence && s.sessions[id].transferID == id
  {
    hide Trim, TransferID;
  }

  /** Replacing a transfer by one with the same identity, and its session by one with the same sequence. */
  lemma ReplaceKeepsInv(s: RouterState, id: string, t: TransferRecord, u: TransportRecord)
    requires RouterInv(s) && id in s.transfers && Paired(id, t, u, s.nextSequence)
    requires u.sequence == s.sessions[id].sequence
    ensures RouterInv(s.(transfers := s.transfers[id := t], sessions := s.sessions[id := u]))
  {
    hide Paired;
  }

  lemma PairedStays(id: string, t: TransferRecord, u: TransportRecord, next: U64, t': TransferRecord,
                    u': TransportRecord)
    requires Paired(id, t, u, next)
    requires t' == t.(status := t'.status, failureReason := t'.failureReason)
    requires u' == u.(stage := u'.stage, ackReason := u'.ackReason)
    ensures Paired(id, t', u', next)
  {
    hide Trim, TransferID;
  }

  lemma PairedAt(s: RouterState, id: string)
    requires RouterInv(s) && id in s.transfers
    ensures id in s.sessions && Paired(id, s.transfers[id], s.sessions[id], s.nextSequence)
    ensures s.transfers[id].transferID == id && SessionOf(s, s.transfers[id]) == s.sessions[id]
  {
    hide Trim, TransferID;
  }

  lemma AcknowledgeKeepsInv(s: RouterState, id: string, v: Verdict)
    requires RouterInv(s)
    ensures RouterInv(Acknowledge(s, id, v))
  {
    hide Trim, Paired, RouterInv, SessionOf;
    if PendingError(s, id).None? {
      var key := Trim(id);
      PairedAt(s, key);
      var t, u := s.transfers[key], s.sessions[key];
      PairedStays(key, t, u, s.nextSequence, Settle(t, v), SettleSession(u, t, v));
      ReplaceKeepsInv(s, key, Settle(t, v), SettleSession(u, t, v));
    }
  }

  lemma RefundKeepsInv(s: RouterState, id: string)
    requires RouterInv(s)
    ensures RouterInv(Refund(s, id))
  {
    hide Trim, Paired, RouterInv, SessionOf;
    if RefundError(s, id).None? {
      var key := Trim(id);
      PairedAt(s, key);
      var t, u := s.transfers[key], s.sessions[key];
      PairedStays(key, t, u, s.nextSequence, t.(status := Refunded), u);
      ReplaceKeepsInv(s, key, t.(status := Refunded), u);
      assert s.sessions[key := u] == s.sessions;
    }
  }

  lemma SetStageKeepsInv(s: RouterState, id: string, stage: TransportStage)
    requires RouterInv(s)
    ensures RouterInv(SetStage(s, id, stage))
  {
    hide Trim, Paired, RouterInv, SessionOf;
    var key := Trim(id);
    if key in s.transfers {
      PairedAt(s, key);
      var t, u := s.transfers[key], s.sessions[key];
      PairedStays(key, t, u, s.nextSequence, t, u.(stage := stage, ackReason := ""));
      ReplaceKeepsInv(s, key, t, u.(stage := stage, ackReason := ""));
      assert s.transfers[key := t] == s.transfers;
    }
  }

  lemma RoutesKeepInv(s: RouterState, s': RouterState)
    requires RouterInv(s)
    requires s'.transfers == s.transfers && s'.sessions == s.sessions && s'.nextSequence == s.nextSequence
    ensures RouterInv(s')
  {
    hide Paired;
  }

  lemma StepKeepsInv(s: RouterState, op: RouterOp)
    requires RouterInv(s) && s.nextSequence < TWO_64 - 1
    ensures RouterInv(RouterStep(s, op)) && RouterStep(s, op).nextSequence <= s.nextSequence + 1
  {
    hide Trim, RouterInv, InitiateVia, ValidRoute, ValidProfile, CanonicalRoute, CanonicalProfile, SessionOf;
    match op
    case OpInitiate(routeID, r) => InitiateKeepsInv(s, routeID, r);
    case OpAcknowledge(id, v) => AcknowledgeKeepsInv(s, id, v);
    case OpRefund(id) => RefundKeepsInv(s, id);
    case OpStage(id, stage) => SetStageKeepsInv(s, id, stage);
    case OpRoute(_) => RoutesKeepInv(s, RouterStep(s, op));
    case OpProfile(_) => RoutesKeepInv(s, RouterStep(s, op));
  }

  /**
    Over every run: transfers and sessions have the same keys and agree, sequences are distinct, below
    the next one and equal to the number parsed back from the ID.
   */
  lemma {:induction false} RouterMachine(ops: seq<RouterOp>)
    requires |ops| < TWO_64 - 2
    ensures RouterInv(RouterRun(EmptyRouter(), ops)) && RouterRun(EmptyRouter(), ops).nextSequence <= |ops| + 1
    ensures forall id | id in RouterRun(EmptyRouter(), ops).transfers ::
      TransferSequence(id) == RouterRun(EmptyRouter(), ops).sessions[id].sequence
  {
    hide RouterStep, Paired, TransferSequence;
    if ops != [] {
      RouterMachine(ops[..|ops| - 1]);
      StepKeepsInv(RouterRun(EmptyRouter(), ops[..|ops| - 1]), ops[|ops| - 1]);
    }
    var s := RouterRun(EmptyRouter(), ops);
    forall id | id in s.transfers ensures TransferSequence(id) == s.sessions[id].sequence {
      PairedSequence(id, s.transfers[id], s.sessions[id], s.nextSequence);
    }
  }

  /** The moves a status can make: out of pending once, from a failure to refunded. */
  predicate StatusMove(a: TransferStatus, b: TransferStatus) {
    || a == b
    || (a == Pending && (b == Completed || b == AckFailed || b == TimedOut))
    || ((a == AckFailed || a == TimedOut) && b == Refunded)
  }

  /** What an operation may do to one transfer. */
  ghost predicate Advanced(s: RouterState, s': RouterState, id: string)
    requires id in s.transfers
  {
    && id in s'.transfers
    && StatusMove(s.transfers[id].status, s'.transfers[id].status)
    && s'.transfers[id] == s.transfers[id].(status := s'.transfers[id].status,
        failureReason := s'.transfers[id].failureReason)
  }

  /** A new transfer never lands on an existing one. */
  lemma InitiateAdvances(s: RouterState, routeID: string, r: Request, id: string)
    requires RouterInv(s) && s.nextSequence < TWO_64 - 1 && id in s.transfers
    ensures Advanced(s, InitiateVia(s, routeID, r), id)
  {
    hide Trim, Destination, Paired, TransferID;
    if InitiateError(s, routeID, r).None? {
      var (chainID, channelID, denom) := Destination(s, routeID, r).value;
      InitiateFresh(s, r, chainID, channelID, denom);
    }
  }

  lemma AcknowledgeAdvances(s: RouterState, other: string, v: Verdict, id: string)
    requires RouterInv(s) && id in s.transfers
    ensures Advanced(s, Acknowledge(s, other, v), id)
  {
    hide Trim, RouterInv, SessionOf, SettleSession, Paired;
    if Trim(other) in s.transfers { PairedAt(s, Trim(other)); }
  }

  lemma RefundAdvances(s: RouterState, other: string, id: string)
    requires RouterInv(s) && id in s.transfers
    ensures Advanced(s, Refund(s, other), id)
  {
    hide Trim, RouterInv, SessionOf, Paired;
    if Trim(other) in s.transfers { PairedAt(s, Trim(other)); }
  }

  /** No operation drops a transfer, rewrites it, or moves its status any other way. */
  lemma StatusOnlyAdvances(s: RouterState, op: RouterOp, id: string)
    requires RouterInv(s) && s.nextSequence < TWO_64 - 1 && id in s.transfers
    ensures Advanced(s, RouterStep(s, op), id)
  {
    hide Trim, RouterInv, InitiateVia, ValidRoute, ValidProfile, CanonicalRoute, CanonicalProfile, SessionOf, Paired,
         SettleSession;
    match op
    case OpInitiate(routeID, r) => InitiateAdvances(s, routeID, r, id);
    case OpAcknowledge(other, v) => AcknowledgeAdvances(s, other, v, id);
    case OpRefund(other) => RefundAdvances(s, other, id);
    case OpStage(_, _) =>
    case OpRoute(_) =>
    case OpProfile(_) =>
  }

  /**
    What the router stores for a request that a profile with a non-empty action list let through: for every
    memo, the destination's parser yields from the stored memo an action only of a listed type.
   */
  lemma StoredActionListed(s: RouterState, routeID: string, r: Request)
    requires Trim(routeID) != "" && InitiateError(s, routeID, r).None?
    requires s.profiles[Trim(routeID)].policy.actionTypes != []
    ensures var id := TransferID(r.assetID, s.nextSequence);
      var t := InitiateVia(s, routeID, r).transfers;
      && id in t
      && (ParseMemo(t[id].memo).Do? ==>
            ParseMemo(t[id].memo).action.kind in CanonicalPolicy(s.profiles[Trim(routeID)].policy).actionTypes)
  {
    hide Trim, ParseMemo, AllowsMemo, TransferID, CanonicalPolicy, AllowsAction;
    PolicyReachesDestination(s.profiles[Trim(routeID)].policy, r.memo);
  }

  // ---- every operation, by what it stores -------------------------------------------------------------

  /** Where a request without a route ID goes: over the asset's own route, when there is one and it is on. */
  predicate OverRoute(s: RouterState, r: Request, chainID: string, channelID: string, denom: string) {
    && Trim(r.assetID) in s.routes
    && var route := s.routes[Trim(r.assetID)];
       route.enabled && chainID == Trim(route.chainID) && channelID == Trim(route.channelID)
         && denom == Trim(route.denom)
  }

  /** The entry of a profile for an asset: the first whose trimmed asset is the one asked for. */
  predicate EntryFor(assets: seq<AssetRoute>, k: nat, assetID: string) {
    && k < |assets| && Trim(assets[k].assetID) == Trim(assetID)
    && forall j | 0 <= j < k :: Trim(assets[j].assetID) != Trim(assetID)
  }

  /** Where a request over a profile goes: it is on, lists the asset, and its policy lets the memo through. */
  predicate OverProfile(s: RouterState, routeID: string, r: Request, chainID: string, channelID: string,
                        denom: string) {
    && Trim(routeID) in s.profiles
    && var p := s.profiles[Trim(routeID)];
       && p.enabled && Permits(p.policy, r.memo)
       && chainID == Trim(p.chainID) && channelID == Trim(p.channelID)
       && exists k: nat | k < |p.assets| :: EntryFor(p.assets, k, r.assetID) && denom == Trim(p.assets[k].denom)
  }

  predicate Goes(s: RouterState, routeID: string, r: Request, chainID: string, channelID: string, denom: string) {
    if Trim(routeID) == "" then OverRoute(s, r, chainID, channelID, denom)
    else OverProfile(s, routeID, r, chainID, channelID, denom)
  }

  /** The stored transfer: its destination, and the request's own fields, trimmed. */
  predicate Stores(t: TransferRecord, s: RouterState, routeID: string, r: Request) {
    && Goes(s, routeID, r, t.chainID, t.channelID, t.denom)
    && t.transferID == "ibc/" + Trim(r.assetID) + "/" + Dec(s.nextSequence)
    && t.assetID == Trim(r.assetID) && r.amount == Some(t.amount) && t.amount > 0
    && t.receiver == Trim(r.receiver) != "" && t.timeoutHeight == r.timeoutHeight != 0 && t.memo == Trim(r.memo)
    && t.status == Pending && t.failureReason == ""
  }

  lemma {:induction false} FoundEntry(assets: seq<AssetRoute>, assetID: string)
    ensures FindAsset(assets, assetID).Some? ==>
      exists k: nat | k < |assets| :: EntryFor(assets, k, assetID) && assets[k] == FindAsset(assets, assetID).value
    ensures FindAsset(assets, assetID).None? ==> forall k: nat :: !EntryFor(assets, k, assetID)
    decreases |assets|
  {
    hide Trim;
    if assets != [] {
      if Trim(assets[0].assetID) == Trim(assetID) {
        assert EntryFor(assets, 0, assetID);
      } else {
        FoundEntry(assets[1..], assetID);
        if FindAsset(assets, assetID).Some? {
          var k: nat :| k < |assets| - 1 && EntryFor(assets[1..], k, assetID)
            && assets[1..][k] == FindAsset(assets, assetID).value;
          assert EntryFor(assets, k + 1, assetID);
        }
        forall k: nat | EntryFor(assets, k, assetID) ensures k > 0 && EntryFor(assets[1..], k - 1, assetID) {
        }
      }
    }
  }

  lemma SameEntry(assets: seq<AssetRoute>, assetID: string, j: nat, k: nat)
    requires EntryFor(assets, j, assetID) && EntryFor(assets, k, assetID)
    ensures j == k
  {
    hide Trim;
  }

  /** The destination is found exactly where there is one, and is that one up to trimming. */
  lemma DestinationExact(s: RouterState, routeID: string, r: Request, chainID: string, channelID: string, denom: string)
    ensures Goes(s, routeID, r, chainID, channelID, denom) <==>
      && Destination(s, routeID, r).Ok?
      && var (x, y, z) := Destination(s, routeID, r).value;
         chainID == Trim(x) && channelID == Trim(y) && denom == Trim(z)
  {
    hide AllowsAction, AllowsMemo, Permits;
    if Trim(routeID) != "" && Trim(routeID) in s.profiles {
      PermitsExact(s.profiles[Trim(routeID)].policy, r.memo);
      var assets := s.profiles[Trim(routeID)].assets;
      FoundEntry(assets, r.assetID);
      hide FindAsset;
      forall j: nat, k: nat | EntryFor(assets, j, r.assetID) && EntryFor(assets, k, r.assetID) ensures j == k {
        SameEntry(assets, r.assetID, j, k);
      }
      forall k: nat | k < |assets| ensures Trim(Trim(assets[k].denom)) == Trim(assets[k].denom) {
        TrimTwice(assets[k].denom);
      }
    }
    hide Trim;
  }

  /** A request is accepted exactly when it has a destination, an amount, a receiver and a timeout. */
  lemma InitiateIff(s: RouterState, routeID: string, r: Request)
    ensures InitiateError(s, routeID, r).None? <==>
      && (exists chainID, channelID, denom :: Goes(s, routeID, r, chainID, channelID, denom))
      && Positive(r.amount) && Trim(r.receiver) != "" && r.timeoutHeight != 0
  {
    hide Trim, Destination, Goes;
    forall x, y, z ensures Goes(s, routeID, r, x, y, z) <==>
      && Destination(s, routeID, r).Ok?
      && var (a, b, d) := Destination(s, routeID, r).value; x == Trim(a) && y == Trim(b) && z == Trim(d) {
      DestinationExact(s, routeID, r, x, y, z);
    }
    if Destination(s, routeID, r).Ok? {
      var (a, b, d) := Destination(s, routeID, r).value;
      assert Goes(s, routeID, r, Trim(a), Trim(b), Trim(d));
    }
  }

  /** What an accepted request adds: one transfer that says all the request said, its session, one sequence number. */
  lemma InitiateEffect(s: RouterState, routeID: string, r: Request)
    requires InitiateError(s, routeID, r).None?
    ensures var t := InitiateVia(s, routeID, r);
      var id := "ibc/" + Trim(r.assetID) + "/" + Dec(s.nextSequence);
      && id in t.transfers && id in t.sessions && Stores(t.transfers[id], s, routeID, r)
      && t == s.(transfers := s.transfers[id := t.transfers[id]], sessions := s.sessions[id := t.sessions[id]],
                 nextSequence := (s.nextSequence + 1) % TWO_64)
      && var u, x := t.sessions[id], t.transfers[id];
      && u.transferID == id && u.assetID == x.assetID && u.chainID == x.chainID && u.channelID == x.channelID
      && u.sequence == s.nextSequence && u.stage == HandshakePending && u.ackReason == ""
  {
    hide Trim, Destination, Goes, Dec;
    var (x, y, z) := Destination(s, routeID, r).value;
    DestinationExact(s, routeID, r, Trim(x), Trim(y), Trim(z));
  }

  /** What an acknowledgement does to a pending transfer and its session; on any other it does nothing. */
  lemma SettleEffect(s: RouterState, id: string, v: Verdict)
    requires RouterInv(s)
    ensures var t, key := Acknowledge(s, id, v), Trim(id);
      && (key !in s.transfers || s.transfers[key].status != Pending ==> t == s)
      && (key in s.transfers && s.transfers[key].status == Pending ==>
            && key in t.transfers && key in t.sessions && key in s.sessions
            && t == s.(transfers := s.transfers[key := t.transfers[key]],
                sessions := s.sessions[key := t.sessions[key]])
            && match v
               case AckSuccess =>
                 && t.transfers[key] == s.transfers[key].(status := Completed, failureReason := "")
                 && t.sessions[key] == s.sessions[key].(stage := AckCompletedStage, ackReason := "")
               case AckFailure(reason) =>
                 && t.transfers[key] == s.transfers[key].(status := AckFailed, failureReason := Trim(reason))
                 && t.sessions[key] == s.sessions[key].(stage := AckFailedStage, ackReason := Trim(reason))
               case Timeout =>
                 && t.transfers[key] == s.transfers[key].(status := TimedOut)
                 && t.sessions[key] == s.sessions[key].(stage := TimedOutStage,
                                                        ackReason := Trim(s.transfers[key].failureReason)))
  {
    hide Trim, Paired, RouterInv, TransferSequence;
    if Trim(id) in s.transfers { PairedAt(s, Trim(id)); }
  }

  /** A refund marks a failed or timed-out transfer and touches nothing else. */
  lemma RefundEffect(s: RouterState, id: string)
    requires RouterInv(s)
    ensures var t, key := Refund(s, id), Trim(id);
      if key in s.transfers && (s.transfers[key].status == AckFailed || s.transfers[key].status == TimedOut)
      then t == s.(transfers := s.transfers[key := s.transfers[key].(status := Refunded)]) else t == s
  {
    hide Trim, Paired, RouterInv, SessionOf;
    if Trim(id) in s.transfers { PairedAt(s, Trim(id)); }
  }

  /** A stage is set on the session of a known transfer, whatever it was before. */
  lemma StageEffect(s: RouterState, id: string, stage: TransportStage)
    requires RouterInv(s)
    ensures var t, key := SetStage(s, id, stage), Trim(id);
      if key in s.transfers
      then key in s.sessions
        && t == s.(sessions := s.sessions[key := s.sessions[key].(stage := stage, ackReason := "")])
      else t == s
  {
    hide Trim, Paired, RouterInv, TransferSequence;
    if Trim(id) in s.transfers { PairedAt(s, Trim(id)); }
  }

  /** A profile as stored: every part trimmed, nothing added, dropped or reordered. */
  predicate Same(p: RouteProfile, q: RouteProfile) {
    && q.routeID == Trim(p.routeID) && q.chainID == Trim(p.chainID) && q.channelID == Trim(p.channelID)
    && q.enabled == p.enabled && |q.assets| == |p.assets|
    && (forall i | 0 <= i < |p.assets| ::
         q.assets[i].assetID == Trim(p.assets[i].assetID) && q.assets[i].denom == Trim(p.assets[i].denom))
    && |q.policy.actionTypes| == |p.policy.actionTypes| && |q.policy.memoPrefixes| == |p.policy.memoPrefixes|
    && (forall i | 0 <= i < |p.policy.actionTypes| :: q.policy.actionTypes[i] == Trim(p.policy.actionTypes[i]))
    && (forall i | 0 <= i < |p.policy.memoPrefixes| :: q.policy.memoPrefixes[i] == Trim(p.policy.memoPrefixes[i]))
  }

  /** Routes and profiles are stored trimmed under their trimmed keys, when no part of them is blank. */
  lemma RoutesExact(s: RouterState, route: Route, p: RouteProfile)
    ensures var key := Trim(route.assetID);
      PutRoute(s, route) ==
        if key != "" && Trim(route.chainID) != "" && Trim(route.channelID) != "" && Trim(route.denom) != ""
        then s.(routes := s.routes[key :=
                 Route(key, Trim(route.chainID), Trim(route.channelID), Trim(route.denom), route.enabled)])
        else s
    ensures var t, key := PutProfile(s, p), Trim(p.routeID);
      if key != "" && Trim(p.chainID) != "" && Trim(p.channelID) != "" && p.assets != []
         && forall i | 0 <= i < |p.assets| :: Trim(p.assets[i].assetID) != "" && Trim(p.assets[i].denom) != ""
      then key in t.profiles && t == s.(profiles := s.profiles[key := t.profiles[key]]) && Same(p, t.profiles[key])
      else t == s
  {
    TrimTwice(route.assetID);
    TrimTwice(p.routeID);
    hide Trim;
  }

  /** Which error an operation on a transfer reports. */
  lemma TransferErrors(s: RouterState, id: string)
    ensures var known := Trim(id) in s.transfers;
      && (PendingError(s, id) == Some(TransferNotFound) <==> !known)
      && (PendingError(s, id) == Some(TransferNotPending) <==> known && s.transfers[Trim(id)].status != Pending)
      && (PendingError(s, id).None? <==> known && s.transfers[Trim(id)].status == Pending)
      && (RefundError(s, id) == Some(TransferNotFound) <==> !known)
      && (RefundError(s, id).None? <==>
            known && (s.transfers[Trim(id)].status == AckFailed || s.transfers[Trim(id)].status == TimedOut))
  {
    hide Trim;
  }

  /** The reason given for refusing a request is a true one. */
  lemma InitiateReason(s: RouterState, routeID: string, r: Request)
    ensures var asset, profile := Trim(r.assetID), Trim(routeID);
      match InitiateError(s, routeID, r)
      case Some(RouteNotFound) => profile == "" && asset !in s.routes
      case Some(RouteDisabled) => profile == "" && asset in s.routes && !s.routes[asset].enabled
      case Some(ProfileNotFound) => profile != "" && profile !in s.profiles
      case Some(ProfileDisabled) => profile in s.profiles && !s.profiles[profile].enabled
      case Some(AssetNotAllowed) =>
        profile in s.profiles && forall k | 0 <= k < |s.profiles[profile].assets| ::
          Trim(s.profiles[profile].assets[k].assetID) != asset
      case Some(PolicyViolation) => profile in s.profiles && !Permits(s.profiles[profile].policy, r.memo)
      case Some(InvalidTransfer) => r.amount.None? || r.amount.value <= 0 || Trim(r.receiver) == ""
        || r.timeoutHeight == 0
      case Some(_) => false
      case None => true
  {
    if Trim(routeID) in s.profiles {
      PermitsExact(s.profiles[Trim(routeID)].policy, r.memo);
      NotListed(s.profiles[Trim(routeID)].assets, r.assetID);
    }
    hide Trim, Permits, AllowsAction, AllowsMemo, FindAsset;
  }

  lemma {:induction false} NotListed(assets: seq<AssetRoute>, assetID: string)
    ensures FindAsset(assets, assetID).None? ==>
      forall k | 0 <= k < |assets| :: Trim(assets[k].assetID) != Trim(assetID)
    decreases |assets|
  {
    hide Trim;
    if assets != [] {
      NotListed(assets[1..], assetID);
      assert forall k | 1 <= k < |assets| :: assets[k] == assets[1..][k - 1];
    }
  }
}
