/**
  What the relayer's loops guarantee across polls, failures and restarts, and what the chain guarantees against
  resubmission.
 */
module PipelineSafety {
  import opened Base
  import opened Text
  import opened Canonical
  import opened Signers
  import opened Attestations
  import opened Bridge
  import opened Ledger
  import opened Pipeline

  // ---- one cursor -------------------------------------------------------------------------

  /** No gap: everything below the cursor is marked. */
  ghost predicate NoGap(s: StoreState, name: string, items: seq<Item>) {
    forall x | x in items && x.height < Cursor(s, name) :: x.key in s.processed
  }

  /** The cursor never passed what was final at some height already reached. */
  ghost predicate Final(s: StoreState, name: string, height: U64, confirmations: U64) {
    Cursor(s, name) == 0 || Cursor(s, name) + confirmations <= height + 1
  }

  ghost predicate StoreOk(s: StoreState, name: string, items: seq<Item>, height: U64, confirmations: U64,
                          accepted: set<string>) {
    NoGap(s, name, items) && Final(s, name, height, confirmations) && s.processed <= accepted
  }

  /** Memory and file are both sound, and the file is never ahead. */
  ghost predicate Sound(r: Relay, name: string, items: seq<Item>, height: U64, confirmations: U64) {
    && StoreOk(r.memory, name, items, height, confirmations, r.accepted)
    && StoreOk(r.disk, name, items, height, confirmations, r.accepted)
    && (!r.broken ==> Cursor(r.disk, name) <= Cursor(r.memory, name))
  }

  lemma MarkSound(r: Relay, key: string, writes: bool, name: string, items: seq<Item>, height: U64, confirmations: U64)
    requires Sound(r, name, items, height, confirmations) && key in r.accepted
    ensures var r' := Mark(r, key, writes);
      Sound(r', name, items, height, confirmations) && r'.memory.checkpoints == r.memory.checkpoints
  {
  }

  lemma AcceptSound(r: Relay, key: string, name: string, items: seq<Item>, height: U64, confirmations: U64)
    requires Sound(r, name, items, height, confirmations)
    ensures Sound(r.(accepted := r.accepted + {key}), name, items, height, confirmations)
  {
    hide NoGap, Final;
  }

  lemma HandleSound(r: Relay, x: Item, i: nat, w: Weather, limit: int, name: string, items: seq<Item>, height: U64,
                    confirmations: U64)
    requires Sound(r, name, items, height, confirmations) && !r.broken
    ensures var (r', ok) := Handle(r, x, i, w, limit);
      && Sound(r', name, items, height, confirmations) && !r'.broken
      && r'.memory.checkpoints == r.memory.checkpoints && r.memory.processed <= r'.memory.processed
      && (ok ==> x.key in r'.memory.processed)
  {
    hide Sound;
    var called := r.(accepted := r.accepted + {x.key});
    AcceptSound(r, x.key, name, items, height, confirmations);
    MarkSound(called, x.key, w.marks(i), name, items, height, confirmations);
  }

  lemma {:induction false} HandleAllSound(r: Relay, xs: seq<Item>, w: Weather, limit: int,
                                          name: string, items: seq<Item>, height: U64, confirmations: U64)
    requires Sound(r, name, items, height, confirmations) && !r.broken
    ensures var (r', ok) := HandleAll(r, xs, w, limit);
      && Sound(r', name, items, height, confirmations) && !r'.broken
      && r'.memory.checkpoints == r.memory.checkpoints && r.memory.processed <= r'.memory.processed
      && (ok ==> forall x | x in xs :: x.key in r'.memory.processed)
    decreases |xs|
  {
    hide Sound, Handle;
    if xs != [] {
      var n := |xs| - 1;
      HandleAllSound(r, xs[..n], w, limit, name, items, height, confirmations);
      var (before, ok) := HandleAll(r, xs[..n], w, limit);
      if ok { HandleSound(before, xs[n], n, w, limit, name, items, height, confirmations); }
      assert xs == xs[..n] + [xs[n]];
    }
  }

  lemma SaveSound(r: Relay, name: string, value: U64, writes: bool, items: seq<Item>, height: U64, confirmations: U64)
    requires Sound(r, name, items, height, confirmations) && !r.broken && Cursor(r.memory, name) <= value
    requires NoGap(r.memory.(checkpoints := r.memory.checkpoints[name := value]), name, items)
    requires value == Cursor(r.memory, name) || value + confirmations <= height + 1
    ensures Sound(Save(r, name, value, writes), name, items, height, confirmations)
  {
    hide NoGap;
  }

  lemma SaveOther(r: Relay, other: string, value: U64, writes: bool, name: string, items: seq<Item>, height: U64,
                  confirmations: U64)
    requires Sound(r, name, items, height, confirmations) && other != name
    ensures Sound(Save(r, other, value, writes), name, items, height, confirmations)
  {
  }

  /** A poll of the cursor's own source, at a height the source has reached. */
  lemma PollSound(r: Relay, name: string, items: seq<Item>, height: U64, confirmations: U64, limit: int, w: Weather)
    requires Sound(r, name, items, height, confirmations) && (w.latest.Some? ==> w.latest.value <= height)
    ensures var r' := Poll(r, name, items, confirmations, limit, w).0;
      Sound(r', name, items, height, confirmations)
  {
    hide Sound, FinalTip, Observed, NextCursor;
    if !r.broken && w.latest.Some? {
      var from := Cursor(r.memory, name);
      var tip := FinalTip(from, w.latest.value, confirmations);
      ObservedExact(items, from, w.latest.value, confirmations);
      ObservedComesFrom(items, from, w.latest.value, confirmations);
      var observed := Observed(items, from, tip);
      HandleAllSound(r, observed, w, limit, name, items, height, confirmations);
      var (handled, ok) := HandleAll(r, observed, w, limit);
      if ok {
        GapClosed(r, handled, name, items, NextCursor(from, tip), observed, height, confirmations);
        SaveSound(handled, name, NextCursor(from, tip), w.saves, items, height, confirmations);
      }
    }
  }

  lemma GapClosed(r: Relay, handled: Relay, name: string, items: seq<Item>, cursor: U64, observed: seq<Item>,
                  height: U64, confirmations: U64)
    requires Sound(r, name, items, height, confirmations)
    requires r.memory.processed <= handled.memory.processed && handled.memory.checkpoints == r.memory.checkpoints
    requires forall x | x in observed :: x.key in handled.memory.processed
    requires forall x | x in items && Cursor(r.memory, name) <= x.height < cursor :: x in observed
    ensures NoGap(handled.memory.(checkpoints := handled.memory.checkpoints[name := cursor]), name, items)
  {
    hide Final;
  }

  lemma PollOther(r: Relay, other: string, others: seq<Item>, otherConfirmations: U64, limit: int, w: Weather,
                  name: string, items: seq<Item>, height: U64, confirmations: U64)
    requires Sound(r, name, items, height, confirmations) && other != name
    ensures var r' := Poll(r, other, others, otherConfirmations, limit, w).0;
      Sound(r', name, items, height, confirmations)
  {
    hide Sound, FinalTip, Observed, NextCursor;
    if !r.broken && w.latest.Some? {
      var from := Cursor(r.memory, other);
      var tip := FinalTip(from, w.latest.value, otherConfirmations);
      var observed := Observed(others, from, tip);
      HandleAllSound(r, observed, w, limit, name, items, height, confirmations);
      SaveOther(HandleAll(r, observed, w, limit).0, other, NextCursor(from, tip), w.saves, name, items, height,
        confirmations);
    }
  }

  lemma RestartSound(r: Relay, readable: bool, name: string, items: seq<Item>, height: U64, confirmations: U64)
    requires Sound(r, name, items, height, confirmations)
    ensures Sound(Restart(r, readable), name, items, height, confirmations)
  {
    assert NoGap(EMPTY_STORE, name, items);
  }

  /** The source may grow above its final tip, and its height may rise. */
  lemma GrowSound(r: Relay, name: string, items: seq<Item>, x: Item, height: U64, confirmations: U64)
    requires Sound(r, name, items, height, confirmations) && x.height + confirmations > height
    ensures Sound(r, name, items + [x], height, confirmations)
  {
  }

  lemma RiseSound(r: Relay, name: string, items: seq<Item>, height: U64, height': U64, confirmations: U64)
    requires Sound(r, name, items, height, confirmations) && height <= height'
    ensures Sound(r, name, items, height', confirmations)
  {
    hide NoGap;
  }

  // ---- the withdrawals of the chain as the relayer sees them --------------------------------

  function ItemOf(c: Crypto, w: WithdrawalRecord): Item {
    Item(w.blockHeight, w.identity.sourceLogIndex, w.identity.sourceTxHash, DerivedMessageID(c, w.identity))
  }

  function ItemsOf(c: Crypto, ws: seq<WithdrawalRecord>): seq<Item> {
    seq(|ws|, i requires 0 <= i < |ws| => ItemOf(c, ws[i]))
  }

  /** One operation appends at most one withdrawal, recorded at the height it runs at. */
  ghost predicate Appends(s: LedgerState, t: LedgerState) {
    || t.bridge.withdrawals == s.bridge.withdrawals
    || (exists w: WithdrawalRecord :: t.bridge.withdrawals == s.bridge.withdrawals + [w]
          && w.blockHeight == s.bridge.currentHeight == t.bridge.currentHeight && w.identity.kind == KIND_WITHDRAWAL)
  }

  lemma SubmitAppendsNone(c: Crypto, s: LedgerState, claim: DepositClaim, att: Attestation, persists: bool)
    ensures Submit(c, s, claim, att, persists).0.bridge.withdrawals == s.bridge.withdrawals
    ensures Submit(c, s, claim, att, persists).0.bridge.currentHeight == s.bridge.currentHeight
  {
    hide Trim, ValidClaim, VerifyDeposit, Limits.CheckTransfer, AuditPasses, Limits.RecordTransfer, Bank.CreditError,
         Bank.Credited, IdentityBytes, Registry.BridgeDenom;
  }

  lemma {:induction false} DrainAppendsNone(c: Crypto, s: LedgerState, queue: seq<QueuedClaim>, persists: nat -> bool)
    ensures Drain(c, s, queue, persists).bridge.withdrawals == s.bridge.withdrawals
    ensures Drain(c, s, queue, persists).bridge.currentHeight == s.bridge.currentHeight
  {
    hide Submit;
    if queue != [] {
      var n := |queue| - 1;
      DrainAppendsNone(c, s, queue[..n], persists);
      SubmitAppendsNone(c, Drain(c, s, queue[..n], persists), queue[n].claim, queue[n].attestation, persists(n));
    }
  }

  lemma WithdrawAppendsOne(c: Crypto, s: LedgerState, owner: string, r: WithdrawalRequest, persists: bool)
    ensures Appends(s, Withdraw(c, s, owner, r, persists).0)
    ensures Withdraw(c, s, owner, r, persists).0.bridge.currentHeight == s.bridge.currentHeight
  {
    hide Trim, Limits.CheckTransfer, AuditPasses, Limits.RecordTransfer, SupplyCovers, Bank.DebitError, Bank.Debited,
         Lower, Registry.BridgeDenom, DerivedMessageID, Dec, Render;
    var t := Withdraw(c, s, owner, r, persists).0;
    if t.bridge.withdrawals != s.bridge.withdrawals {
      var w := NewRecord(c, s.bridge, s.policy, r);
      assert t.bridge.withdrawals == s.bridge.withdrawals + [w] && w.blockHeight == s.bridge.currentHeight;
    }
  }

  /** The chain's height after an operation; the two that set it must not lower it. */
  predicate HeightRises(s: LedgerState, op: Ledger.Op) {
    match op
    case DoSetHeight(height) => height >= s.bridge.currentHeight
    case DoAdvance(_) => s.bridge.currentHeight < TWO_64 - 1
    case _ => true
  }

  lemma StepAppends(c: Crypto, s: LedgerState, op: Ledger.Op)
    requires HeightRises(s, op)
    ensures Appends(s, Ledger.Step(c, s, op)) && s.bridge.currentHeight <= Ledger.Step(c, s, op).bridge.currentHeight
  {
    hide Trim, Upsert, Registry.Register, Registry.SetEnabled, Limits.PutLimit, Queue, Submit, Drain, Withdraw;
    match op
    case DoSubmit(claim, att, persists) => SubmitAppendsNone(c, s, claim, att, persists);
    case DoQueue(claim, att) => QueueKeepsBridge(c, s, claim, att);
    case DoAdvance(oracle) =>
      var next := s.(bridge := s.bridge.(currentHeight := Add64(s.bridge.currentHeight, 1)), pending := []);
      DrainAppendsNone(c, next, s.pending, oracle);
    case DoWithdraw(owner, req, persists) => WithdrawAppendsOne(c, s, owner, req, persists);
    case _ =>
  }

  // ---- the relayer's key and the chain's key ----------------------------------------------------------

  /** A deposit event: the identity fields it carries and whether its asset address is the zero address. */
  datatype DepositEvent = DepositEvent(identity: ClaimIdentity, zeroAsset: bool)

  /** A logged event and the block it is in. */
  datatype Deposit = Deposit(height: U64, event: DepositEvent)

  /** The item the relayer keeps books on; its key is the event's replay key. */
  function DepositItem(c: Crypto, d: Deposit): Item {
    Item(d.height, d.event.identity.sourceLogIndex, d.event.identity.sourceTxHash,
      DerivedMessageID(c, d.event.identity))
  }

  function DepositItems(c: Crypto, ds: seq<Deposit>): seq<Item> {
    seq(|ds|, i requires 0 <= i < |ds| => DepositItem(c, ds[i]))
  }

  /** The message ID the chain files the event's claim under. */
  function ClaimID(c: Crypto, d: Deposit): string {
    DerivedMessageID(c, ClaimIdentityOf(d.event))
  }

  /** A deposit of the named kind, or of another than the zero asset. */
  predicate WellNamed(d: Deposit) {
    d.event.identity.kind == KIND_DEPOSIT && !(d.event.identity.sourceAssetKind == "" && d.event.zeroAsset)
  }

  /** The identity of `event.Claim`: a missing asset kind is filled in from the asset address. */
  function ClaimIdentityOf(e: DepositEvent): ClaimIdentity {
    if e.identity.sourceAssetKind != "" then e.identity
    else e.identity.(sourceAssetKind := if e.zeroAsset then ASSET_NATIVE_ETH else ASSET_ERC20)
  }

  /**
    The key the relayer marks and the message ID the chain files the claim under have the same bytes
    before hashing, exactly unless the event left its asset kind out and its asset is the zero address.
   */
  lemma KeysAgreeIff(e: DepositEvent)
    ensures IdentityBytes(e.identity) == IdentityBytes(ClaimIdentityOf(e)) <==>
      !(e.identity.sourceAssetKind == "" && e.zeroAsset)
  {
    IdentityBytesUnambiguous(e.identity, ClaimIdentityOf(e));
    hide IdentityBytes;
    KindsApart();
    hide Trim;
  }

  /** A missing kind reads as erc20, and native ETH does not. */
  lemma KindsApart()
    ensures CanonicalAssetKind("") == CanonicalAssetKind(ASSET_ERC20) != CanonicalAssetKind(ASSET_NATIVE_ETH)
  {
    SolidEndsTrim(ASSET_NATIVE_ETH);
    SolidEndsTrim(ASSET_ERC20);
    assert Trim("") == "";
    hide Trim;
  }

  // ---- both loops over both chains -------------------------------------------------------------

  /** The Ethereum side: what its gateway logged and the height it reports. */
  datatype Evm = Evm(logs: seq<Deposit>, height: U64)

  datatype Config = Config(evmConfirmations: U64, cosmosConfirmations: U64, retryLimit: int)

  datatype Bridged = Bridged(relay: Relay, evm: Evm, ledger: LedgerState)

  datatype BridgedOp =
    | PollDeposits(w: Weather)
    | PollWithdrawals(w: Weather)
    | Crash(readable: bool)
    | Log(d: Deposit)
    | Mine(height: U64)
    | OnChain(op: Ledger.Op)

  /**
    What can happen next: a source reports only a height it has reached, Ethereum logs only above its
    final tip, and heights do not fall. Everything else, including every failure, may happen at any time.
   */
  predicate Possible(g: Config, s: Bridged, op: BridgedOp) {
    match op
    case PollDeposits(w) => w.latest.Some? ==> w.latest.value <= s.evm.height
    case PollWithdrawals(w) => w.latest.Some? ==> w.latest.value <= s.ledger.bridge.currentHeight
    case Crash(_) => true
    case Log(d) => d.height + g.evmConfirmations > s.evm.height
    case Mine(height) => height >= s.evm.height
    case OnChain(op) => HeightRises(s.ledger, op)
  }

  ghost function BridgedStep(c: Crypto, g: Config, s: Bridged, op: BridgedOp): Bridged {
    if !Possible(g, s, op) then s
    else match op
      case PollDeposits(w) =>
        s.(relay := Poll(s.relay, DEPOSITS, DepositItems(c, s.evm.logs), g.evmConfirmations, g.retryLimit, w).0)
      case PollWithdrawals(w) =>
        s.(relay := Poll(s.relay, WITHDRAWALS, ItemsOf(c, s.ledger.bridge.withdrawals), g.cosmosConfirmations,
          g.retryLimit, w).0)
      case Crash(readable) => s.(relay := Restart(s.relay, readable))
      case Log(d) => s.(evm := s.evm.(logs := s.evm.logs + [d]))
      case Mine(height) => s.(evm := s.evm.(height := height))
      case OnChain(op) => s.(ledger := Ledger.Step(c, s.ledger, op))
  }

  ghost function BridgedRun(c: Crypto, g: Config, s: Bridged, ops: seq<BridgedOp>): Bridged {
    if ops == [] then s else BridgedStep(c, g, BridgedRun(c, g, s, ops[..|ops| - 1]), ops[|ops| - 1])
  }

  ghost predicate DepositsSound(c: Crypto, g: Config, s: Bridged) {
    Sound(s.relay, DEPOSITS, DepositItems(c, s.evm.logs), s.evm.height, g.evmConfirmations)
  }

  ghost predicate WithdrawalsSound(c: Crypto, g: Config, s: Bridged) {
    Sound(s.relay, WITHDRAWALS, ItemsOf(c, s.ledger.bridge.withdrawals), s.ledger.bridge.currentHeight,
      g.cosmosConfirmations)
  }

  lemma DepositsStep(c: Crypto, g: Config, s: Bridged, op: BridgedOp)
    requires DepositsSound(c, g, s)
    ensures DepositsSound(c, g, BridgedStep(c, g, s, op))
  {
    hide Sound, Poll, Ledger.Step, HeightRises, ItemsOf, DepositItems, DepositItem;
    var items, height := DepositItems(c, s.evm.logs), s.evm.height;
    match op
    case PollDeposits(w) =>
      if Possible(g, s, op) { PollSound(s.relay, DEPOSITS, items, height, g.evmConfirmations, g.retryLimit, w); }
    case PollWithdrawals(w) =>
      PollOther(s.relay, WITHDRAWALS, ItemsOf(c, s.ledger.bridge.withdrawals), g.cosmosConfirmations, g.retryLimit, w,
                DEPOSITS, items, height, g.evmConfirmations);
    case Crash(readable) => RestartSound(s.relay, readable, DEPOSITS, items, height, g.evmConfirmations);
    case Log(d) =>
      if Possible(g, s, op) {
        DepositItemsGrow(c, s.evm.logs, d);
        GrowSound(s.relay, DEPOSITS, items, DepositItem(c, d), height, g.evmConfirmations);
      }
    case Mine(height') =>
      if Possible(g, s, op) { RiseSound(s.relay, DEPOSITS, items, height, height', g.evmConfirmations); }
    case OnChain(_) =>
  }

  lemma DepositItemsGrow(c: Crypto, logs: seq<Deposit>, d: Deposit)
    ensures DepositItems(c, logs + [d]) == DepositItems(c, logs) + [DepositItem(c, d)]
    ensures DepositItem(c, d).height == d.height
  {
    hide DerivedMessageID;
  }

  lemma ChainStep(c: Crypto, g: Config, s: Bridged, op: Ledger.Op)
    requires WithdrawalsSound(c, g, s) && g.cosmosConfirmations >= 1 && HeightRises(s.ledger, op)
    ensures WithdrawalsSound(c, g, s.(ledger := Ledger.Step(c, s.ledger, op)))
  {
    hide Sound, Ledger.Step, HeightRises, DerivedMessageID;
    var t := Ledger.Step(c, s.ledger, op);
    StepAppends(c, s.ledger, op);
    var items, height := ItemsOf(c, s.ledger.bridge.withdrawals), s.ledger.bridge.currentHeight;
    if t.bridge.withdrawals != s.ledger.bridge.withdrawals {
      var w :| t.bridge.withdrawals == s.ledger.bridge.withdrawals + [w]
        && w.blockHeight == height == t.bridge.currentHeight;
      GrowSound(s.relay, WITHDRAWALS, items, ItemOf(c, w), height, g.cosmosConfirmations);
      assert ItemsOf(c, t.bridge.withdrawals) == items + [ItemOf(c, w)];
    } else {
      RiseSound(s.relay, WITHDRAWALS, items, height, t.bridge.currentHeight, g.cosmosConfirmations);
    }
  }

  lemma WithdrawalsStep(c: Crypto, g: Config, s: Bridged, op: BridgedOp)
    requires WithdrawalsSound(c, g, s) && g.cosmosConfirmations >= 1
    ensures WithdrawalsSound(c, g, BridgedStep(c, g, s, op))
  {
    hide Sound, Poll, Ledger.Step, HeightRises, ItemsOf;
    var items, height := ItemsOf(c, s.ledger.bridge.withdrawals), s.ledger.bridge.currentHeight;
    match op
    case PollWithdrawals(w) =>
      if Possible(g, s, op) { PollSound(s.relay, WITHDRAWALS, items, height, g.cosmosConfirmations, g.retryLimit, w); }
    case PollDeposits(w) =>
      PollOther(s.relay, DEPOSITS, DepositItems(c, s.evm.logs), g.evmConfirmations, g.retryLimit, w, WITHDRAWALS, items,
        height, g.cosmosConfirmations);
    case Crash(readable) => RestartSound(s.relay, readable, WITHDRAWALS, items, height, g.cosmosConfirmations);
    case Log(_) =>
    case Mine(_) =>
    case OnChain(op) => if HeightRises(s.ledger, op) { ChainStep(c, g, s, op); }
  }

  ghost function Cold(durable: bool, ledger: LedgerState): Bridged {
    Bridged(Relay(EMPTY_STORE, EMPTY_STORE, durable, false, {}), Evm([], 0), ledger)
  }

  /** What a poll may rely on, in memory and in the file alike. */
  ghost predicate NothingMissed(r: Relay, name: string, items: seq<Item>) {
    && NoGap(r.memory, name, items) && NoGap(r.disk, name, items)
    && r.memory.processed <= r.accepted && r.disk.processed <= r.accepted
  }

  /**
    Over every run of polls, failed calls, failed writes, crashes and restarts: every deposit logged below
    the deposit cursor, in memory or saved, is marked, and every marked key had a call that returned success.
   */
  lemma {:induction false} NoDepositMissed(c: Crypto, g: Config, durable: bool, ledger: LedgerState,
                                           ops: seq<BridgedOp>)
    ensures var s := BridgedRun(c, g, Cold(durable, ledger), ops);
      DepositsSound(c, g, s) && NothingMissed(s.relay, DEPOSITS, DepositItems(c, s.evm.logs))
  {
    hide BridgedStep;
    if ops != [] {
      hide Sound;
      NoDepositMissed(c, g, durable, ledger, ops[..|ops| - 1]);
      DepositsStep(c, g, BridgedRun(c, g, Cold(durable, ledger), ops[..|ops| - 1]), ops[|ops| - 1]);
    }
    var s := BridgedRun(c, g, Cold(durable, ledger), ops);
    SoundMissesNothing(s.relay, DEPOSITS, DepositItems(c, s.evm.logs), s.evm.height, g.evmConfirmations);
  }

  lemma SoundMissesNothing(r: Relay, name: string, items: seq<Item>, height: U64, confirmations: U64)
    requires Sound(r, name, items, height, confirmations)
    ensures NothingMissed(r, name, items)
  {
    hide NoGap;
  }

  /**
    With at least one confirmation and a chain height that does not fall: whenever a withdrawal is
    recorded relative to the polls, once it is below the withdrawal cursor it has been released.
   */
  lemma {:induction false} NoWithdrawalSkipped(c: Crypto, g: Config, durable: bool, ledger: LedgerState,
                                               ops: seq<BridgedOp>)
    requires g.cosmosConfirmations >= 1
    ensures var s := BridgedRun(c, g, Cold(durable, ledger), ops);
      WithdrawalsSound(c, g, s) && NothingMissed(s.relay, WITHDRAWALS, ItemsOf(c, s.ledger.bridge.withdrawals))
  {
    hide BridgedStep, ItemsOf;
    if ops != [] {
      hide Sound;
      NoWithdrawalSkipped(c, g, durable, ledger, ops[..|ops| - 1]);
      WithdrawalsStep(c, g, BridgedRun(c, g, Cold(durable, ledger), ops[..|ops| - 1]), ops[|ops| - 1]);
    }
    var s := BridgedRun(c, g, Cold(durable, ledger), ops);
    SoundMissesNothing(s.relay, WITHDRAWALS, ItemsOf(c, s.ledger.bridge.withdrawals), s.ledger.bridge.currentHeight,
      g.cosmosConfirmations);
  }

  // ---- what is saved is never lost --------------------------------------------------------------------

  /** A working store never has more on file than in memory. */
  ghost predicate Ahead(r: Relay) {
    !r.broken ==>
      r.disk.processed <= r.memory.processed && forall name :: Cursor(r.disk, name) <= Cursor(r.memory, name)
  }

  /** No saved cursor moved back, and nothing saved as marked, nor any success, was forgotten. */
  ghost predicate DiskGrows(r: Relay, r': Relay) {
    && (forall name :: Cursor(r.disk, name) <= Cursor(r'.disk, name))
    && r.disk.processed <= r'.disk.processed && r.accepted <= r'.accepted
  }

  lemma MarkAhead(r: Relay, key: string, writes: bool)
    requires Ahead(r)
    ensures Ahead(Mark(r, key, writes)) && DiskGrows(r, Mark(r, key, writes))
    ensures Mark(r, key, writes).memory.checkpoints == r.memory.checkpoints && Mark(r, key, writes).broken == r.broken
  {
  }

  lemma SaveAhead(r: Relay, name: string, value: U64, writes: bool)
    requires Ahead(r) && Cursor(r.memory, name) <= value
    ensures Ahead(Save(r, name, value, writes)) && DiskGrows(r, Save(r, name, value, writes))
  {
  }

  lemma HandleAhead(r: Relay, x: Item, i: nat, w: Weather, limit: int)
    requires Ahead(r)
    ensures var r' := Handle(r, x, i, w, limit).0;
      Ahead(r') && DiskGrows(r, r') && r'.memory.checkpoints == r.memory.checkpoints && r'.broken == r.broken
  {
    var called := r.(accepted := r.accepted + {x.key});
    assert Ahead(called);
    hide Ahead, GoesThrough;
    MarkAhead(called, x.key, w.marks(i));
  }

  lemma {:induction false} HandleAllAhead(r: Relay, xs: seq<Item>, w: Weather, limit: int)
    requires Ahead(r)
    ensures var r' := HandleAll(r, xs, w, limit).0;
      Ahead(r') && DiskGrows(r, r') && r'.memory.checkpoints == r.memory.checkpoints && r'.broken == r.broken
    decreases |xs|
  {
    hide Ahead, Handle;
    if xs != [] {
      var n := |xs| - 1;
      HandleAllAhead(r, xs[..n], w, limit);
      HandleAhead(HandleAll(r, xs[..n], w, limit).0, xs[n], n, w, limit);
    }
  }

  lemma PollAhead(r: Relay, name: string, items: seq<Item>, confirmations: U64, limit: int, w: Weather)
    requires Ahead(r)
    ensures var r' := Poll(r, name, items, confirmations, limit, w).0; Ahead(r') && DiskGrows(r, r')
  {
    hide Ahead, FinalTip, Observed, HandleAll;
    if !r.broken && w.latest.Some? {
      var from := Cursor(r.memory, name);
      var tip := FinalTip(from, w.latest.value, confirmations);
      ObservedExact(items, from, w.latest.value, confirmations);
      var (handled, ok) := HandleAll(r, Observed(items, from, tip), w, limit);
      HandleAllAhead(r, Observed(items, from, tip), w, limit);
      if ok { SaveAhead(handled, name, NextCursor(from, tip), w.saves); }
    }
  }

  lemma StepAhead(c: Crypto, g: Config, s: Bridged, op: BridgedOp)
    requires Ahead(s.relay)
    ensures var t := BridgedStep(c, g, s, op); Ahead(t.relay) && DiskGrows(s.relay, t.relay)
  {
    hide Poll, Ledger.Step, HeightRises, ItemsOf, DepositItems;
    match op
    case PollDeposits(w) =>
      PollAhead(s.relay, DEPOSITS, DepositItems(c, s.evm.logs), g.evmConfirmations, g.retryLimit, w);
    case PollWithdrawals(w) =>
      PollAhead(s.relay, WITHDRAWALS, ItemsOf(c, s.ledger.bridge.withdrawals), g.cosmosConfirmations, g.retryLimit, w);
    case _ =>
  }

  lemma {:induction false} RunAhead(c: Crypto, g: Config, durable: bool, ledger: LedgerState, ops: seq<BridgedOp>)
    ensures Ahead(BridgedRun(c, g, Cold(durable, ledger), ops).relay)
  {
    hide BridgedStep, Ahead;
    if ops == [] {
      StoreIsItself(Cold(durable, ledger).relay);
    } else {
      RunAhead(c, g, durable, ledger, ops[..|ops| - 1]);
      StepAhead(c, g, BridgedRun(c, g, Cold(durable, ledger), ops[..|ops| - 1]), ops[|ops| - 1]);
    }
  }

  lemma StoreIsItself(r: Relay)
    requires r.disk == r.memory
    ensures Ahead(r)
  {
  }

  /**
    No saved cursor ever moves back and no saved mark is ever lost, from any reachable state and under any
    step, whatever fails or crashes and however many confirmations are asked for.
   */
  lemma CursorsNeverFall(c: Crypto, g: Config, durable: bool, ledger: LedgerState, ops: seq<BridgedOp>, op: BridgedOp)
    ensures var s := BridgedRun(c, g, Cold(durable, ledger), ops);
      DiskGrows(s.relay, BridgedStep(c, g, s, op).relay)
  {
    hide BridgedStep, BridgedRun, DiskGrows, Ahead;
    RunAhead(c, g, durable, ledger, ops);
    StepAhead(c, g, BridgedRun(c, g, Cold(durable, ledger), ops), op);
  }

  /**
    Why one confirmation: a withdrawal recorded at the height a poll has just seen ends up below the new
    cursor exactly when there are no confirmations, or the cursor was already past that height; and then
    no later poll looks at it.
   */
  lemma SkippedIffUnconfirmed(from: U64, height: U64, confirmations: U64, items: seq<Item>, x: Item, latest: U64)
    requires x.height == height < TWO_64 - 1
    ensures var cursor := NextCursor(from, FinalTip(from, height, confirmations));
      && (x.height < cursor <==> confirmations == 0 || from > height)
      && (x.height < cursor ==> x !in Observed(items, cursor, FinalTip(cursor, latest, confirmations)))
  {
    var cursor := NextCursor(from, FinalTip(from, height, confirmations));
    ObservedComesFrom(items, cursor, latest, confirmations);
    hide Observed;
  }
}
