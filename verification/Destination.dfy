/** The destination runtime: packets, their execution against pools and balances, and acknowledgements. */
module Destination {
  import opened Base
  import opened Text
  import opened RouteAction
  import opened Amm
  import R = Router

  // ---- what travels --------------------------------------------------------------------

  datatype Transfer = Transfer(
    transferID: string, assetID: string, amount: string, receiver: string, chainID: string, channelID: string,
    denom: string, timeoutHeight: U64, memo: string)

  datatype AckStatus = AckPending | AckReceived | AckCompleted | AckFailed | AckTimedOut

  datatype Ack = Ack(status: AckStatus, reason: string)

  datatype AckRecord = AckRecord(transferID: string, status: AckStatus, reason: string)

  datatype Envelope = Envelope(
    transferID: string, chainID: string, sequence: U64, channelID: string, timeoutHeight: U64, baseDenom: string,
    amount: string, receiver: string, memo: string, denom: string, action: Option<RouteAction>, actionError: string)

  // ---- what the runtime stores ----------------------------------------------------------

  datatype PacketState = Received | Executed | AckReady | AckRelayed

  datatype Packet = Packet(
    transferID: string, envelope: Envelope, state: PacketState, ackState: AckStatus, ackReason: string,
    ackPayload: Option<Ack>, ackRelayed: bool)

  datatype Outcome = InvalidAction | SwapSuccess | SwapFailed | StakeSuccess | StakeFailed | Credited | CreditFailed

  datatype Execution = Execution(
    transferID: string, sequence: U64, result: Outcome, recipient: string, inputDenom: string, inputAmount: string,
    outputDenom: string, outputAmount: string, chainID: string, path: string, error: string)

  datatype SwapRecord = SwapRecord(
    transferID: string, inputDenom: string, outputDenom: string, inputAmount: string, outputAmount: string,
    recipient: string, chainID: string, path: string)

  datatype StakeRecord = StakeRecord(transferID: string, denom: string, amount: string, staker: string,
    validator: string)

  datatype Pool = Pool(inputDenom: string, outputDenom: string, reserveIn: string, reserveOut: string, feeBPS: U32)

  datatype Balance = Balance(address: string, denom: string, amount: string)

  /** Everything an execution can move. */
  datatype Books = Books(pools: seq<Pool>, balances: seq<Balance>, swaps: seq<SwapRecord>, stakes: seq<StakeRecord>)

  datatype Mode = Success | Fail | TimeoutMode | Manual

  datatype TargetState = TargetState(mode: Mode, packets: seq<Packet>, executions: seq<Execution>, books: Books)

  // ---- the delivery envelope -------------------------------------------------------------

  datatype DeliveryError = BadTransferID | MissingChannel | MissingAsset | MissingReceiver | NotFiled

  /**
    The message a malformed memo carries to the destination and back; a `%q` argument is shown between plain quotes.
   */
  function ActionText(e: ActionError): (s: string)
    ensures Trim(s) != ""
  {
    var s := match e
      case MissingTarget(kind) => "missing target denom for " + kind + " action"
      case EmptyOption(kind) => "empty " + kind + " option"
      case InvalidOption(kind, option) => "invalid " + kind + " option \"" + option + "\""
      case DuplicateOption(kind, key) => "duplicate " + kind + " option \"" + key + "\""
      case UnsupportedOption(kind, key) => "unsupported " + kind + " option \"" + key + "\""
      case UnsupportedAction(kind) => "unsupported route action \"" + kind + "\"";
    SolidHeadSurvives(s);
    s
  }

  /** `buildDeliveryEnvelope`. */
  function BuildEnvelope(t: Transfer): Result<Envelope, DeliveryError> {
    if R.ParseSequence(t.transferID).None? then Err(BadTransferID)
    else if Trim(t.channelID) == "" then Err(MissingChannel)
    else if Trim(t.assetID) == "" then Err(MissingAsset)
    else if Trim(t.receiver) == "" then Err(MissingReceiver)
    else
      var memo := ParseMemo(t.memo);
      Ok(Envelope(t.transferID, t.chainID, R.ParseSequence(t.transferID).value, Trim(t.channelID), t.timeoutHeight,
                  Trim(t.assetID), Trim(t.amount), Trim(t.receiver), Trim(t.memo), Trim(t.denom),
                  if memo.Do? then Some(memo.action) else None, if memo.Bad? then ActionText(memo.error) else ""))
  }

  function NewPacket(e: Envelope): Packet {
    Packet(e.transferID, e.(actionError := Trim(e.actionError)), Received, AckPending, "", None, false)
  }

  // ---- decimal amounts ---------------------------------------------------------------------

  function Parse(s: string): Option<int> {
    ParseInt(Trim(s))
  }

  predicate ParsesPositive(s: string) {
    Parse(s).Some? && Parse(s).value > 0
  }

  /** A rendered number reads back. */
  lemma ParseRendered(n: int)
    ensures Parse(Render(n)) == Some(n)
  {
    ParseRender(n);
  }

  // ---- swapping -------------------------------------------------------------------------------

  predicate Serves(p: Pool, denom: string, target: string) {
    p.inputDenom == Trim(denom) && p.outputDenom == Trim(target)
  }

  /** Index of the first pool for the pair, or the number of pools. */
  function FindPool(pools: seq<Pool>, denom: string, target: string): (i: nat)
    ensures i <= |pools|
    ensures i < |pools| ==> Serves(pools[i], denom, target)
    ensures forall j | 0 <= j < i :: !Serves(pools[j], denom, target)
    decreases |pools|
  {
    if pools == [] then 0
    else if Serves(pools[0], denom, target) then 0
    else
      var r := FindPool(pools[1..], denom, target);
      assert forall j | 1 <= j < 1 + r :: pools[j] == pools[1..][j - 1];
      1 + r
  }

  function ReservesOf(p: Pool): Reserves
    requires ParsesPositive(p.reserveIn) && ParsesPositive(p.reserveOut)
  {
    Reserves(Parse(p.reserveIn).value, Parse(p.reserveOut).value)
  }

  /** A swap of a textual amount against one pool, with the checks in the runtime's order. */
  function SwapOn(p: Pool, amount: string, minOut: string): Result<(Pool, int), SwapError> {
    if !ParsesPositive(amount) then Err(BadAmount)
    else
      var e := EffectiveInput(Parse(amount).value, p.feeBPS);
      if p.feeBPS > 0 && e <= 0 then Err(ZeroAfterFee)
      else if !ParsesPositive(p.reserveIn) then Err(BadReserveIn)
      else if !ParsesPositive(p.reserveOut) then Err(BadReserveOut)
      else
        var r := ReservesOf(p);
        EffectiveNonNegative(Parse(amount).value, p.feeBPS);
        var out := Output(r, e);
        if out <= 0 || out >= r.output then Err(NoLiquidity)
        else if Trim(minOut) != "" && !ParsesPositive(minOut) then Err(BadMinOut)
        else if Trim(minOut) != "" && out < Parse(minOut).value then Err(MinOutNotMet)
        else Ok((p.(reserveIn := Render(r.input + e), reserveOut := Render(r.output - out)), out))
  }

  function SwapIn(pools: seq<Pool>, denom: string, amount: string, a: RouteAction)
    : Result<(seq<Pool>, int), SwapError> {
    var i := FindPool(pools, denom, a.targetDenom);
    if i == |pools| then Err(NoPool)
    else match SwapOn(pools[i], amount, a.minOut)
      case Err(e) => Err(e)
      case Ok((p, out)) => Ok((pools[i := p], out))
  }

  /** The first pool for the pair. */
  predicate FirstFor(pools: seq<Pool>, i: nat, denom: string, target: string) {
    && i < |pools| && pools[i].inputDenom == Trim(denom) && pools[i].outputDenom == Trim(target)
    && forall j | 0 <= j < i :: !(pools[j].inputDenom == Trim(denom) && pools[j].outputDenom == Trim(target))
  }

  /** The output meets the minimum, if one was asked for. */
  predicate Meets(out: int, minOut: string) {
    Trim(minOut) == "" || (ParsesPositive(minOut) && Parse(minOut).value <= out)
  }

  /** One pool after taking `e` in and paying `out`, everything else about it the same. */
  ghost predicate Traded(p: Pool, q: Pool, amount: string, e: int, out: int) {
    && ParsesPositive(amount) && ParsesPositive(p.reserveIn) && ParsesPositive(p.reserveOut)
    && Fair(Reserves(Parse(p.reserveIn).value, Parse(p.reserveOut).value), p.feeBPS, Parse(amount).value, e, out)
    && q == Pool(p.inputDenom, p.outputDenom, Render(Parse(p.reserveIn).value + e),
                 Render(Parse(p.reserveOut).value - out), p.feeBPS)
  }

  /** A swap through the first pool for the pair, fair and no less than the minimum; other pools are left alone. */
  ghost predicate FairSwap(pools: seq<Pool>, denom: string, target: string, amount: string, minOut: string,
                           after: seq<Pool>, out: int) {
    exists i: nat, e: int ::
      FirstFor(pools, i, denom, target) && |after| == |pools| && Traded(pools[i], after[i], amount, e, out)
      && Meets(out, minOut) && forall j | 0 <= j < |pools| && j != i :: after[j] == pools[j]
  }

  lemma SwapOnFair(p: Pool, amount: string, minOut: string, q: Pool, out: int)
    ensures SwapOn(p, amount, minOut) == Ok((q, out)) <==>
      (exists e :: Traded(p, q, amount, e, out)) && Meets(out, minOut)
  {
    hide Parse, Trim, Render, EffectiveInput, Output, Fair;
    if ParsesPositive(amount) && ParsesPositive(p.reserveIn) && ParsesPositive(p.reserveOut) {
      var r, n := ReservesOf(p), Parse(amount).value;
      EffectiveNonNegative(n, p.feeBPS);
      var e := EffectiveInput(n, p.feeBPS);
      QuoteExact(r, p.feeBPS, n, e, Output(r, e));
      forall x, y ensures Fair(r, p.feeBPS, n, x, y) ==>
        Quote(r, p.feeBPS, n) == Ok((Reserves(r.input + x, r.output - y), y)) {
        QuoteExact(r, p.feeBPS, n, x, y);
      }
      assert SwapOn(p, amount, minOut) == Ok((q, out)) ==> Traded(p, q, amount, e, out);
    }
  }

  /** A swap goes through exactly when a fair one can be had, and then it is that one. */
  lemma SwapInFair(pools: seq<Pool>, denom: string, amount: string, a: RouteAction, after: seq<Pool>, out: int)
    ensures SwapIn(pools, denom, amount, a) == Ok((after, out)) <==>
      FairSwap(pools, denom, a.targetDenom, amount, a.minOut, after, out)
  {
    hide SwapOn, Traded, Meets, Trim;
    var i := FindPool(pools, denom, a.targetDenom);
    if i < |pools| && |after| == |pools| { SwapOnFair(pools[i], amount, a.minOut, after[i], out); }
    if SwapIn(pools, denom, amount, a) == Ok((after, out)) {
      SwapOnFair(pools[i], amount, a.minOut, after[i], out);
      var e :| Traded(pools[i], after[i], amount, e, out);
      assert FirstFor(pools, i, denom, a.targetDenom);
    }
    if FairSwap(pools, denom, a.targetDenom, amount, a.minOut, after, out) {
      var k: nat, e: int :| FirstFor(pools, k, denom, a.targetDenom) && Traded(pools[k], after[k], amount, e, out)
        && forall j | 0 <= j < |pools| && j != k :: after[j] == pools[j];
      assert k == i;
      assert after == pools[i := after[i]];
    }
  }

  lemma SwapInDecides(pools: seq<Pool>, denom: string, amount: string, a: RouteAction)
    ensures match SwapIn(pools, denom, amount, a)
      case Ok((after, out)) => FairSwap(pools, denom, a.targetDenom, amount, a.minOut, after, out)
      case Err(_) => forall after, out :: !FairSwap(pools, denom, a.targetDenom, amount, a.minOut, after, out)
  {
    hide SwapIn, FairSwap;
    forall after, out ensures SwapIn(pools, denom, amount, a) == Ok((after, out)) <==>
      FairSwap(pools, denom, a.targetDenom, amount, a.minOut, after, out) {
      SwapInFair(pools, denom, amount, a, after, out);
    }
  }

  /** The error texts of a swap; amounts inside them are left out. */
  function SwapText(e: SwapError): string {
    match e
    case NoPool => "no pool"
    case BadAmount => "invalid swap amount"
    case ZeroAfterFee => "effective input is zero after fee"
    case BadReserveIn => "invalid pool reserve in"
    case BadReserveOut => "invalid pool reserve out"
    case NoLiquidity => "insufficient liquidity"
    case BadMinOut => "invalid min_out"
    case MinOutNotMet => "min_out not met"
  }

  // ---- crediting --------------------------------------------------------------------------------

  predicate Holds(b: Balance, address: string, denom: string) {
    b.address == Trim(address) && b.denom == Trim(denom)
  }

  function FindBalance(bs: seq<Balance>, address: string, denom: string): (i: nat)
    ensures i <= |bs|
    ensures i < |bs| ==> Holds(bs[i], address, denom)
    ensures forall j | 0 <= j < i :: !Holds(bs[j], address, denom)
    decreases |bs|
  {
    if bs == [] then 0
    else if Holds(bs[0], address, denom) then 0
    else
      var r := FindBalance(bs[1..], address, denom);
      assert forall j | 1 <= j < 1 + r :: bs[j] == bs[1..][j - 1];
      1 + r
  }

  /** `creditBalanceLocked`: nothing for a blank amount; a first credit stores the amount as it came. */
  function Credit(bs: seq<Balance>, address: string, denom: string, amount0: string): Result<seq<Balance>, string> {
    var amount := Trim(amount0);
    if amount == "" then Ok(bs)
    else
      var i := FindBalance(bs, address, denom);
      if i == |bs| then Ok(bs + [Balance(Trim(address), Trim(denom), amount)])
      else if Parse(bs[i].amount).None? then Err("invalid balance amount")
      else if Parse(amount).None? then Err("invalid credit amount")
      else Ok(bs[i := bs[i].(amount := Render(Parse(bs[i].amount).value + Parse(amount).value))])
  }

  // ---- executing one packet -----------------------------------------------------------------------

  function Recipient(e: Envelope): string {
    if e.action.Some? && Trim(e.action.value.recipient) != "" then Trim(e.action.value.recipient) else Trim(e.receiver)
  }

  function PathOf(e: Envelope): string {
    if e.action.Some? then Trim(e.action.value.path) else ""
  }

  /** The books after an execution, its record, and the reason when it failed. */
  datatype Effect = Effect(books: Books, execution: Execution, failure: Option<string>)

  function Blank(e: Envelope, result: Outcome): Execution {
    Execution(e.transferID, e.sequence, result, Recipient(e), e.denom, Trim(e.amount), "", "", e.chainID, PathOf(e), "")
  }

  function ExecuteSwap(b: Books, e: Envelope, a: RouteAction): Effect {
    var x := Blank(e, SwapSuccess).(outputDenom := a.targetDenom);
    match SwapIn(b.pools, e.denom, e.amount, a)
    case Err(err) => Effect(b, x.(result := SwapFailed, error := SwapText(err)), Some(SwapText(err)))
    case Ok((pools, out)) =>
      var paid := Render(out);
      var b' := b.(pools := pools, swaps := b.swaps + [
        SwapRecord(e.transferID, e.denom, a.targetDenom, Trim(e.amount), paid, Recipient(e), e.chainID, PathOf(e))]);
      match Credit(b.balances, Recipient(e), a.targetDenom, paid)
      case Err(reason) => Effect(b', x.(result := SwapFailed, outputAmount := paid, error := reason), Some(reason))
      case Ok(balances) => Effect(b'.(balances := balances), x.(outputAmount := paid), None)
  }

  function ExecuteStake(b: Books, e: Envelope, a: RouteAction): Effect {
    var x := Blank(e, StakeSuccess).(outputDenom := a.targetDenom, outputAmount := Trim(e.amount));
    var wrongDenom := "stake action requires received denom " + e.denom;
    var noPath := "missing validator path for stake action";
    if Trim(a.targetDenom) != Trim(e.denom) then
      Effect(b, x.(result := StakeFailed, error := wrongDenom), Some(wrongDenom))
    else if Trim(PathOf(e)) == "" then Effect(b, x.(result := StakeFailed, error := noPath), Some(noPath))
    else Effect(b.(stakes := b.stakes
      + [StakeRecord(e.transferID, a.targetDenom, Trim(e.amount), Recipient(e), PathOf(e))]), x, None)
  }

  function ExecuteCredit(b: Books, e: Envelope): Effect {
    var x := Blank(e, Credited).(outputDenom := e.denom, outputAmount := Trim(e.amount));
    match Credit(b.balances, Recipient(e), e.denom, Trim(e.amount))
    case Err(reason) => Effect(b, x.(result := CreditFailed, error := reason), Some(reason))
    case Ok(balances) => Effect(b.(balances := balances), x, None)
  }

  /** `executePacketLocked`, up to the packet's own acknowledgement fields. */
  function Execute(b: Books, e: Envelope): Effect {
    if Trim(e.actionError) != "" then
      Effect(b, Blank(e, InvalidAction).(error := Trim(e.actionError)), Some(Trim(e.actionError)))
    else if e.action.Some? && e.action.value.kind == "swap" then ExecuteSwap(b, e, e.action.value)
    else if e.action.Some? && e.action.value.kind == "stake" then ExecuteStake(b, e, e.action.value)
    else ExecuteCredit(b, e)
  }

  function DefaultPools(): seq<Pool> {
    [Pool("ibc/uatom-usdc", "uosmo", "500000000", "1000000000", 0),
      Pool("ibc/uethusdc", "uosmo", "500000000", "1000000000", 0)]
  }

  function EnsurePools(b: Books): Books {
    if b.pools == [] then b.(pools := DefaultPools()) else b
  }

  // ---- acknowledgements -------------------------------------------------------------------------------

  function MarkReady(p: Packet, ack: Ack): Packet {
    p.(state := AckReady, ackState := ack.status, ackReason := Trim(ack.reason), ackRelayed := false,
      ackPayload := Some(ack))
  }

  function AfterExecution(mode: Mode, p: Packet): Packet {
    match mode
    case Success => MarkReady(p, Ack(AckCompleted, ""))
    case Fail => MarkReady(p, Ack(AckFailed, "mock ack failed"))
    case TimeoutMode => MarkReady(p, Ack(AckTimedOut, "mock timeout"))
    case Manual => p.(state := Executed, ackState := AckPending, ackReason := "", ackPayload := None,
      ackRelayed := false)
  }

  function Acked(mode: Mode, p: Packet, fx: Effect): Packet {
    if fx.failure.Some? then MarkReady(p, Ack(AckFailed, fx.failure.value)) else AfterExecution(mode, p)
  }

  function EffectAt(s: TargetState, i: nat): Effect
    requires i < |s.packets|
  {
    Execute(EnsurePools(s.books), s.packets[i].envelope)
  }

  function ExecuteAt(s: TargetState, i: nat): (s': TargetState)
    requires i < |s.packets|
    ensures |s'.packets| == |s.packets| && s'.mode == s.mode
  {
    var fx := EffectAt(s, i);
    s.(books := fx.books, executions := s.executions
      + [fx.execution], packets := s.packets[i := Acked(s.mode, s.packets[i], fx)])
  }

  function AdvanceOne(s: TargetState, i: nat): (s': TargetState)
    requires i < |s.packets|
    ensures |s'.packets| == |s.packets| && s'.mode == s.mode
  {
    if s.packets[i].state != Received then s
    else if s.mode == TimeoutMode then
      s.(packets := s.packets[i := MarkReady(s.packets[i], Ack(AckTimedOut, "mock timeout"))])
    else ExecuteAt(s, i)
  }

  /** `advanceReceivedPacketsLocked` over the first `n` packets. */
  function AdvanceFirst(s: TargetState, n: nat): (s': TargetState)
    requires n <= |s.packets|
    ensures |s'.packets| == |s.packets| && s'.mode == s.mode
  {
    if n == 0 then s else AdvanceOne(AdvanceFirst(s, n - 1), n - 1)
  }

  predicate Ready(p: Packet) {
    p.state == AckReady && p.ackPayload.Some? && !p.ackRelayed
  }

  function ReadyRecord(p: Packet): AckRecord
    requires Ready(p)
  {
    AckRecord(p.transferID, p.ackPayload.value.status, p.ackPayload.value.reason)
  }

  function ReadyRecords(ps: seq<Packet>): seq<AckRecord> {
    if ps == [] then []
    else
      var n := |ps| - 1;
      ReadyRecords(ps[..n]) + if Ready(ps[n]) then [ReadyRecord(ps[n])] else []
  }

  /** Stored IDs are compared as they are; only the ID asked for is trimmed. */
  function FindPacket(ps: seq<Packet>, id: string): (i: nat)
    ensures i <= |ps|
    ensures i < |ps| ==> ps[i].transferID == Trim(id)
    ensures forall j | 0 <= j < i :: ps[j].transferID != Trim(id)
    decreases |ps|
  {
    if ps == [] then 0
    else if ps[0].transferID == Trim(id) then 0
    else
      var r := FindPacket(ps[1..], id);
      assert forall j | 1 <= j < 1 + r :: ps[j] == ps[1..][j - 1];
      1 + r
  }

  function ReceiveEnvelope(s: TargetState, e: Envelope): TargetState {
    if FindPacket(s.packets, e.transferID) < |s.packets| then s else s.(packets := s.packets + [NewPacket(e)])
  }

  function Receive(s: TargetState, t: Transfer): TargetState {
    match BuildEnvelope(t)
    case Err(_) => s
    case Ok(e) => ReceiveEnvelope(s, e)
  }

  datatype AckAction = Confirm | Complete | FailAck(reason: string) | TimeoutAck(reason: string)

  datatype AckError = PacketNotFound | AckNotReady | NotFiled

  function SetAckError(s: TargetState, id: string, a: AckAction): Option<AckError> {
    var i := FindPacket(s.packets, id);
    if i == |s.packets| then Some(PacketNotFound)
    else if a.Confirm? && s.packets[i].state != AckReady then Some(AckNotReady)
    else None
  }

  function EnsureExecuted(s: TargetState, i: nat): (s': TargetState)
    requires i < |s.packets|
    ensures |s'.packets| == |s.packets|
  {
    if s.packets[i].state == Received then ExecuteAt(s, i) else s
  }

  function PutPacket(s: TargetState, i: nat, p: Packet): TargetState
    requires i < |s.packets|
  {
    s.(packets := s.packets[i := p])
  }

  /** `setAckState`. */
  function SetAck(s: TargetState, id: string, a: AckAction): TargetState {
    if SetAckError(s, id, a).Some? then s
    else
      var i := FindPacket(s.packets, id);
      match a
      case Confirm => PutPacket(s, i, s.packets[i].(state := AckRelayed, ackRelayed := true))
      case Complete =>
        var s' := EnsureExecuted(s, i);
        PutPacket(s', i, MarkReady(s'.packets[i], Ack(AckCompleted, "")))
      case FailAck(reason) =>
        var s' := EnsureExecuted(s, i);
        PutPacket(s', i, MarkReady(s'.packets[i], Ack(AckFailed, Trim(reason))))
      case TimeoutAck(reason) => PutPacket(s, i, MarkReady(s.packets[i], Ack(AckTimedOut, Trim(reason))))
  }

  // ---- the state file --------------------------------------------------------------------------------

  function DefaultBalances(): seq<Balance> {
    [Balance("osmo1faucet", "uosmo", "1000000000")]
  }

  function Defaults(b: Books): Books {
    var pooled := EnsurePools(b);
    if b.balances == [] then pooled.(balances := DefaultBalances()) else pooled
  }

  /** What a start makes of the state file, if there is one: configured pools replace those stored. */
  function Loaded(mode: Mode, configured: seq<Pool>, stored: Option<TargetState>): TargetState {
    match stored
    case None => TargetState(mode, [], [], Defaults(Books(configured, [], [], [])))
    case Some(t) =>
      var pools := if configured == [] then t.books.pools else configured;
      TargetState(mode, t.packets, t.executions, Defaults(t.books.(pools := pools)))
  }

  /** Loading what was saved gives back what was saved, unless pools are configured that have moved since. */
  lemma ReloadExactIff(t: TargetState, configured: seq<Pool>)
    ensures Loaded(t.mode, configured, Some(t)) == t <==>
      (configured == [] || configured == t.books.pools) && t.books.pools != [] && t.books.balances != []
  {
  }

  /** A changed state is written as a whole or not at all; a runtime without a path never writes. */
  predicate Writes(durable: bool, writes: bool) {
    durable && writes
  }

  /** Whether the caller is told of success. */
  predicate Reports(durable: bool, writes: bool) {
    !durable || writes
  }

  /** Whether a poll finds anything to execute. */
  predicate Waiting(ps: seq<Packet>) {
    exists i | 0 <= i < |ps| :: ps[i].state == Received
  }

  // ---- the class ---------------------------------------------------------------------------------------

  class MockTarget {
    const mode: Mode
    const durable: bool
    var packets: seq<Packet>
    var executions: seq<Execution>
    var swaps: seq<SwapRecord>
    var stakes: seq<StakeRecord>
    var pools: seq<Pool>
    var balances: seq<Balance>
    var file: TargetState

    /** `LoadMockTargetRuntime`, once its first write has succeeded. */
    constructor (mode: Mode, durable: bool, configured: seq<Pool>, stored: Option<TargetState>)
      requires stored.Some? ==> durable
      ensures State() == file == Loaded(mode, configured, stored)
      ensures this.durable == durable
    {
      this.mode, this.durable := mode, durable;
      var now := Loaded(mode, configured, stored);
      packets, executions, swaps, stakes := now.packets, now.executions, now.books.swaps, now.books.stakes;
      pools, balances := now.books.pools, now.books.balances;
      file := now;
    }

    ghost function BooksNow(): Books
      reads this
    {
      Books(pools, balances, swaps, stakes)
    }

    ghost function State(): TargetState
      reads this
    {
      TargetState(mode, packets, executions, BooksNow())
    }

    /** `persistMockTargetState`. */
    method Persist(writes: bool) returns (ok: bool)
      modifies `file
      ensures file == (if Writes(durable, writes) then State() else old(file)) && ok == Reports(durable, writes)
    {
      if !durable { return true; }
      if !writes { return false; }
      file := TargetState(mode, packets, executions, Books(pools, balances, swaps, stakes));
      ok := true;
    }

    method EnsurePoolsNow()
      modifies `pools
      ensures BooksNow() == EnsurePools(old(BooksNow()))
    {
      if |pools| == 0 { pools := DefaultPools(); }
    }

    method FindPoolFor(denom: string, target: string) returns (i: nat)
      ensures i == FindPool(pools, denom, target)
    {
      i := 0;
      while i < |pools| && !Serves(pools[i], denom, target)
        invariant 0 <= i <= |pools|
        invariant forall j | 0 <= j < i :: !Serves(pools[j], denom, target)
      {
        i := i + 1;
      }
    }

    /** `executeSwapLocked`: only a swap that goes through touches a pool. */
    method SwapThrough(e: Envelope, a: RouteAction) returns (r: Result<int, SwapError>)
      modifies `pools
      ensures r == match SwapIn(old(pools), e.denom, e.amount, a) case Ok((_, out)) => Ok(out) case Err(err) => Err(err)
      ensures pools == match SwapIn(old(pools), e.denom, e.amount, a) case Ok((after, _)) => after
        case Err(_) => old(pools)
      ensures r.Ok? ==> FairSwap(old(pools), e.denom, a.targetDenom, e.amount, a.minOut, pools, r.value)
      ensures r.Err? ==> pools == old(pools) && forall after, out ::
        !FairSwap(old(pools), e.denom, a.targetDenom, e.amount, a.minOut, after, out)
    {
      hide Parse, Trim, Serves, EffectiveInput, Output, Render, FairSwap;
      SwapInDecides(pools, e.denom, e.amount, a);
      var i := FindPoolFor(e.denom, a.targetDenom);
      if i == |pools| { return Err(NoPool); }
      var pool := pools[i];
      if !ParsesPositive(e.amount) { return Err(BadAmount); }
      var amount := Parse(e.amount).value;
      var effective := EffectiveInput(amount, pool.feeBPS);
      if pool.feeBPS > 0 && effective <= 0 { return Err(ZeroAfterFee); }
      if !ParsesPositive(pool.reserveIn) { return Err(BadReserveIn); }
      if !ParsesPositive(pool.reserveOut) { return Err(BadReserveOut); }
      var reserves := ReservesOf(pool);
      EffectiveNonNegative(amount, pool.feeBPS);
      var out := Output(reserves, effective);
      if out <= 0 || out >= reserves.output { return Err(NoLiquidity); }
      if Trim(a.minOut) != "" {
        if !ParsesPositive(a.minOut) { return Err(BadMinOut); }
        if out < Parse(a.minOut).value { return Err(MinOutNotMet); }
      }
      pools := pools[i := pool.(reserveIn := Render(reserves.input + effective),
        reserveOut := Render(reserves.output - out))];
      r := Ok(out);
    }

    method CreditBalance(address: string, denom: string, amount0: string) returns (failure: Option<string>)
      modifies `balances
      ensures failure == match Credit(old(balances), address, denom, amount0) case Ok(_) => None
        case Err(reason) => Some(reason)
      ensures balances == match Credit(old(balances), address, denom, amount0) case Ok(after) => after
        case Err(_) => old(balances)
    {
      hide Parse, Trim, Render;
      var amount := Trim(amount0);
      if amount == "" { return None; }
      var i := 0;
      while i < |balances|
        invariant 0 <= i <= |balances|
        invariant balances == old(balances)
        invariant forall j | 0 <= j < i :: !Holds(balances[j], address, denom)
      {
        if Holds(balances[i], address, denom) {
          assert i == FindBalance(balances, address, denom);
          if Parse(balances[i].amount).None? { return Some("invalid balance amount"); }
          if Parse(amount).None? { return Some("invalid credit amount"); }
          balances := balances[i :=
            balances[i].(amount := Render(Parse(balances[i].amount).value + Parse(amount).value))];
          return None;
        }
        i := i + 1;
      }
      balances := balances + [Balance(Trim(address), Trim(denom), amount)];
      failure := None;
    }

    /** The branch the envelope selects; the caller records the execution. */
    method Perform(e: Envelope) returns (x: Execution, failure: Option<string>)
      modifies `pools, `balances, `swaps, `stakes
      ensures Execute(old(BooksNow()), e) == Effect(BooksNow(), x, failure)
    {
      hide Trim, SwapIn, Credit, Render, SwapText;
      if Trim(e.actionError) != "" {
        return Blank(e, InvalidAction).(error := Trim(e.actionError)), Some(Trim(e.actionError));
      }
      if e.action.Some? && e.action.value.kind == "swap" {
        var a := e.action.value;
        x := Blank(e, SwapSuccess).(outputDenom := a.targetDenom);
        var out := SwapThrough(e, a);
        if out.Err? {
          return x.(result := SwapFailed, error := SwapText(out.error)), Some(SwapText(out.error));
        }
        x := x.(outputAmount := Render(out.value));
        swaps := swaps + [SwapRecord(e.transferID, e.denom, a.targetDenom, Trim(e.amount), Render(out.value),
                                     Recipient(e), e.chainID, PathOf(e))];
        failure := CreditBalance(Recipient(e), a.targetDenom, Render(out.value));
        if failure.Some? { x := x.(result := SwapFailed, error := failure.value); }
      } else if e.action.Some? && e.action.value.kind == "stake" {
        var a := e.action.value;
        x := Blank(e, StakeSuccess).(outputDenom := a.targetDenom, outputAmount := Trim(e.amount));
        failure := None;
        if Trim(a.targetDenom) != Trim(e.denom) {
          failure := Some("stake action requires received denom " + e.denom);
        } else if Trim(PathOf(e)) == "" {
          failure := Some("missing validator path for stake action");
        }
        if failure.Some? { return x.(result := StakeFailed, error := failure.value), failure; }
        stakes := stakes + [StakeRecord(e.transferID, a.targetDenom, Trim(e.amount), Recipient(e), PathOf(e))];
      } else {
        x := Blank(e, Credited).(outputDenom := e.denom, outputAmount := Trim(e.amount));
        failure := CreditBalance(Recipient(e), e.denom, Trim(e.amount));
        if failure.Some? { x := x.(result := CreditFailed, error := failure.value); }
      }
    }

    /** `executePacketLocked`. */
    method ExecutePacket(i: nat)
      requires i < |packets|
      modifies this
      ensures State() == ExecuteAt(old(State()), i) && file == old(file)
    {
      hide Execute;
      EnsurePoolsNow();
      var x, failure := Perform(packets[i].envelope);
      executions := executions + [x];
      if failure.Some? {
        packets := packets[i := MarkReady(packets[i], Ack(AckFailed, failure.value))];
      } else {
        packets := packets[i := AfterExecution(mode, packets[i])];
      }
    }

    /** The body of the loop below. */
    method AdvancePacket(i: nat) returns (changed: bool)
      requires i < |packets|
      modifies this
      ensures State() == AdvanceOne(old(State()), i) && file == old(file)
      ensures changed == (old(packets)[i].state == Received)
    {
      hide ExecuteAt;
      changed := packets[i].state == Received;
      if changed {
        if mode == TimeoutMode {
          packets := packets[i := MarkReady(packets[i], Ack(AckTimedOut, "mock timeout"))];
        } else {
          ExecutePacket(i);
        }
      }
    }

    /** `advanceReceivedPacketsLocked`. */
    method AdvanceReceivedPackets() returns (changed: bool)
      modifies this
      ensures State() == AdvanceFirst(old(State()), |old(packets)|) && file == old(file)
      ensures changed <==> Waiting(old(packets))
    {
      hide AdvanceOne;
      changed := false;
      ghost var s := State();
      for i := 0 to |packets|
        invariant |packets| == |s.packets|
        invariant State() == AdvanceFirst(s, i) && file == old(file)
        invariant forall j | i <= j < |packets| :: packets[j] == s.packets[j]
        invariant changed <==> exists j | 0 <= j < i :: s.packets[j].state == Received
      {
        ExecuteAtTouchesOne(State(), i);
        var advanced := AdvancePacket(i);
        changed := changed || advanced;
      }
    }

    /** `ReceiveTransfer`: a second delivery of a known ID changes nothing, but writes again. */
    method ReceiveTransfer(t: Transfer, writes: bool) returns (r: Result<Ack, DeliveryError>)
      modifies `packets, `file
      ensures State() == Receive(old(State()), t)
      ensures file == if BuildEnvelope(t).Ok? && Writes(durable, writes) then State() else old(file)
      ensures r == match BuildEnvelope(t)
        case Err(e) => Err(e)
        case Ok(_) => if Reports(durable, writes) then Ok(Ack(AckReceived, "")) else Err(DeliveryError.NotFiled)
    {
      hide FindPacket, BuildEnvelope, NewPacket, Trim;
      var built := BuildEnvelope(t);
      if built.Err? { return Err(built.error); }
      var i := IndexOf(built.value.transferID);
      if i == |packets| { packets := packets + [NewPacket(built.value)]; }
      var filed := Persist(writes);
      r := if filed then Ok(Ack(AckReceived, "")) else Err(DeliveryError.NotFiled);
    }

    method IndexOf(id: string) returns (i: nat)
      ensures i == FindPacket(packets, id)
    {
      hide Trim;
      i := 0;
      while i < |packets| && packets[i].transferID != Trim(id)
        invariant 0 <= i <= |packets|
        invariant forall j | 0 <= j < i :: packets[j].transferID != Trim(id)
      {
        i := i + 1;
      }
    }

    /**
      `ReadyAckRecords`: executes what arrived and writes it, then lists every acknowledgement not yet
      confirmed. A failing write stops it, but only when this very call executed something.
     */
    method ReadyAckRecords(writes: bool) returns (acks: Option<seq<AckRecord>>)
      modifies this
      ensures State() == AdvanceFirst(old(State()), |old(packets)|)
      ensures file == if Waiting(old(packets)) && Writes(durable, writes) then State() else old(file)
      ensures acks == if Waiting(old(packets)) && !Reports(durable, writes) then None else Some(ReadyRecords(packets))
    {
      hide AdvanceFirst;
      var changed := AdvanceReceivedPackets();
      if changed {
        var filed := Persist(writes);
        if !filed { return None; }
      }
      var listed := ListReady();
      acks := Some(listed);
    }

    method ListReady() returns (acks: seq<AckRecord>)
      ensures acks == ReadyRecords(packets)
    {
      acks := [];
      for i := 0 to |packets|
        invariant acks == ReadyRecords(packets[..i])
      {
        assert packets[..i + 1][..i] == packets[..i];
        if Ready(packets[i]) { acks := acks + [ReadyRecord(packets[i])]; }
      }
      assert packets[..|packets|] == packets;
    }

    /** `setAckState`, behind `ConfirmReadyAck`, `CompleteAck`, `FailAck` and `TimeoutAck`. */
    method SetAckState(id: string, a: AckAction, writes: bool) returns (e: Option<AckError>)
      modifies this
      ensures State() == SetAck(old(State()), id, a)
      ensures file == if SetAckError(old(State()), id, a).None? && Writes(durable, writes) then State() else old(file)
      ensures e == if SetAckError(old(State()), id, a).None? && !Reports(durable, writes) then Some(AckError.NotFiled)
        else SetAckError(old(State()), id, a)
    {
      hide FindPacket, ExecuteAt, Trim;
      var i := IndexOf(id);
      if i == |packets| { return Some(PacketNotFound); }
      match a {
        case Confirm =>
          if packets[i].state != AckReady { return Some(AckNotReady); }
          packets := packets[i := packets[i].(state := AckRelayed, ackRelayed := true)];
        case Complete =>
          if packets[i].state == Received { ExecutePacket(i); }
          packets := packets[i := MarkReady(packets[i], Ack(AckCompleted, ""))];
        case FailAck(reason) =>
          if packets[i].state == Received { ExecutePacket(i); }
          packets := packets[i := MarkReady(packets[i], Ack(AckFailed, Trim(reason)))];
        case TimeoutAck(reason) =>
          packets := packets[i := MarkReady(packets[i], Ack(AckTimedOut, Trim(reason)))];
      }
      var filed := Persist(writes);
      e := if filed then None else Some(AckError.NotFiled);
    }
  }

  lemma ExecuteAtTouchesOne(s: TargetState, i: nat)
    requires i < |s.packets|
    ensures forall j | 0 <= j < |s.packets| && j != i :: AdvanceOne(s, i).packets[j] == s.packets[j]
  {
  }
}
