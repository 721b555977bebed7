/** The application: bridge, bank, limits and registry composed, with rollback when the bank step fails. */
module Ledger {
  import opened Base
  import opened Text
  import opened Sums
  import opened Canonical
  import opened Attestations
  import opened Signers
  import Limits
  import Bank
  import Registry
  import opened Bridge

  datatype QueuedClaim = QueuedClaim(claim: DepositClaim, attestation: Attestation, enqueuedAt: U64)

  datatype LedgerState = LedgerState(
    bridge: BridgeState,
    bank: Bank.Balances,
    limits: Limits.LimitsState,
    policy: Policy,
    pending: seq<QueuedClaim>)

  datatype AppError = InvalidAddress | InvalidSubmission | BridgeRefused(error: BridgeError)
    | BankRefused(bank: Bank.BankError)

  function NormalizeAddress(c: Crypto, address: string): Option<string> {
    if Trim(address) == "" || !c.validAddress(Trim(address)) then None else Some(Trim(address))
  }

  // ---- the operations as functions ---------------------------------------------------------

  /** Bridge as it is after a rollback to `b`. */
  function RolledBack(b: BridgeState): BridgeState {
    Restored(b, b.signerSets)
  }

  /**
    `submitDepositClaimLocked`; `persists` says whether the bank write reaches storage. When the
    audit fails the reported fault depends on map order, and this function stands for one choice.
   */
  ghost function Submit(c: Crypto, s: LedgerState, claim0: DepositClaim, att: Attestation, persists: bool)
    : (LedgerState, Result<ClaimResult, AppError>)
  {
    var address := NormalizeAddress(c, claim0.recipient);
    if address.None? then (s, Err(InvalidAddress))
    else
      var claim := claim0.(recipient := address.value);
      var e := DepositChecks(c, s.bridge, s.policy, s.limits, claim, att);
      if e.Some? then (s.(bridge := Reject(s.bridge)), Err(BridgeRefused(e.value)))
      else
        var minted := AcceptDeposit(c, s.bridge, s.policy, claim);
        var limits := Limits.RecordTransfer(s.limits, claim.assetID, claim.amount, s.bridge.currentHeight);
        if !AuditPasses(minted, s.policy.assets) then
          (s.(bridge := Reject(Trip(minted, MissingAsset(""))), limits := limits),
            Err(BridgeRefused(InvariantBroken(MissingAsset("")))))
        else
          var receipt := Receipt(s.policy, claim);
          var refused := Bank.CreditError(claim.recipient, receipt.denom, Some(receipt.amount), persists);
          if refused.Some? then (s.(bridge := RolledBack(s.bridge)), Err(BankRefused(refused.value)))
          else (s.(bridge := minted, limits := limits,
                   bank := Bank.Credited(s.bank, claim.recipient, receipt.denom, Some(receipt.amount))), Ok(receipt))
  }

  ghost function Withdraw(c: Crypto, s: LedgerState, owner: string, r: WithdrawalRequest, persists: bool)
    : (LedgerState, Result<WithdrawalRecord, AppError>)
  {
    var address := NormalizeAddress(c, owner);
    if address.None? then (s, Err(InvalidAddress))
    else
      var e := WithdrawChecks(s.bridge, s.policy, s.limits, r);
      if e.Some? then (s, Err(BridgeRefused(e.value)))
      else
        var limits := Limits.RecordTransfer(s.limits, r.assetID, r.amount, s.bridge.currentHeight);
        if !SupplyCovers(s.bridge, s.policy, r) then (s.(limits := limits), Err(BridgeRefused(InsufficientSupply)))
        else
          var burnt := AcceptWithdrawal(c, s.bridge, s.policy, r);
          if !AuditPasses(burnt, s.policy.assets) then
            (s.(bridge := Trip(burnt, MissingAsset("")), limits := limits),
              Err(BridgeRefused(InvariantBroken(MissingAsset("")))))
          else
            var denom := s.policy.assets[Trim(r.assetID)].denom;
            var refused := Bank.DebitError(s.bank, address.value, denom, r.amount, persists);
            if refused.Some? then (s.(bridge := RolledBack(s.bridge)), Err(BankRefused(refused.value)))
            else (s.(bridge := burnt, limits := limits, bank := Bank.Debited(s.bank, address.value, denom, r.amount)),
                  Ok(NewRecord(c, s.bridge, s.policy, r)))
  }

  ghost function Queue(c: Crypto, s: LedgerState, claim: DepositClaim, att: Attestation): LedgerState {
    var address := NormalizeAddress(c, claim.recipient);
    if !ValidClaim(c, claim) || !ValidAttestation(att) || address.None? then s
    else s.(pending := s.pending + [QueuedClaim(claim.(recipient := address.value), att, s.bridge.currentHeight)])
  }

  /** Submit the queued claims in order; a refused claim does not stop the others. */
  ghost function Drain(c: Crypto, s: LedgerState, queue: seq<QueuedClaim>, persists: nat -> bool): LedgerState {
    if queue == [] then s
    else
      var n := |queue| - 1;
      Submit(c, Drain(c, s, queue[..n], persists), queue[n].claim, queue[n].attestation, persists(n)).0
  }

  /** How many of the queued claims were accepted. */
  ghost function Applied(c: Crypto, s: LedgerState, queue: seq<QueuedClaim>, persists: nat -> bool): nat {
    if queue == [] then 0
    else
      var n := |queue| - 1;
      var r := Submit(c, Drain(c, s, queue[..n], persists), queue[n].claim, queue[n].attestation, persists(n)).1;
      Applied(c, s, queue[..n], persists) + if r.Ok? then 1 else 0
  }

  ghost function Advanced(c: Crypto, s: LedgerState, persists: nat -> bool): LedgerState {
    Drain(c, NextBlock(s), s.pending, persists)
  }

  function NextBlock(s: LedgerState): LedgerState {
    s.(bridge := s.bridge.(currentHeight := Add64(s.bridge.currentHeight, 1)), pending := [])
  }

  // ---- the class -------------------------------------------------------------------------------

  class App {
    const crypto: Crypto
    const bankKeeper: Bank.BankKeeper
    const bridgeKeeper: BridgeKeeper
    const limitsKeeper: Limits.LimitsKeeper
    const registryKeeper: Registry.RegistryKeeper
    const pauserKeeper: PauserKeeper
    var pendingDepositClaims: seq<QueuedClaim>

    constructor (crypto: Crypto, allowedSigners: seq<string>, requiredThreshold: U32)
      ensures Valid() && this.crypto == crypto
      ensures State() == GenesisLedger(allowedSigners, requiredThreshold)
    {
      this.crypto := crypto;
      var registry := new Registry.RegistryKeeper();
      var limits := new Limits.LimitsKeeper();
      var pauser := new PauserKeeper();
      bankKeeper := new Bank.BankKeeper();
      registryKeeper, limitsKeeper, pauserKeeper := registry, limits, pauser;
      bridgeKeeper := new BridgeKeeper(crypto, registry, limits, pauser, allowedSigners, requiredThreshold);
      pendingDepositClaims := [];
      new;
      hide NormalizeSet, Trim, Lower;
      var threshold := if requiredThreshold == 0 then 1 else requiredThreshold;
      NormalizeSetTwice(SignerSet(1, allowedSigners, threshold, 0, 0));
    }

    ghost function State(): LedgerState
      reads this, bankKeeper, bridgeKeeper, limitsKeeper, registryKeeper, pauserKeeper
    {
      LedgerState(bridgeKeeper.State(), bankKeeper.balances, limitsKeeper.State(),
                  Policy(registryKeeper.assets, pauserKeeper.paused), pendingDepositClaims)
    }

    /** The keepers are wired to each other and store what they store in normal form. */
    ghost predicate Valid()
      reads this, bankKeeper, bridgeKeeper, limitsKeeper, registryKeeper, pauserKeeper
    {
      && bridgeKeeper.crypto == crypto
      && bridgeKeeper.registryKeeper == registryKeeper
      && bridgeKeeper.limitsKeeper == limitsKeeper
      && bridgeKeeper.pauserKeeper == pauserKeeper
      && Stored(State())
    }

    /** `rollbackDepositClaimState` and `rollbackWithdrawalState`. */
    method Rollback(bridge: BridgeSnapshot, bank: seq<Bank.BalanceRecord>, limits: Limits.LimitsSnapshot,
                    ghost s: LedgerState)
      requires SnapshotOfBridge(bridge, s.bridge) && Bank.RecordsOf(bank, s.bank) && Limits.SnapshotOf(limits, s.limits)
      requires Stored(s) && bridgeKeeper.signerSets == s.bridge.signerSets
      modifies bridgeKeeper, bankKeeper, limitsKeeper
      ensures bridgeKeeper.State() == RolledBack(s.bridge)
      ensures bankKeeper.balances == s.bank && limitsKeeper.State() == s.limits
    {
      hide SetsInv, Bank.BankInv, Limits.LimitsInv, SnapshotOfBridge, Bank.RecordsOf, Limits.SnapshotOf, Parses,
           Imported, Registry.RegistryInv;
      ImportExportBridge(bridge, s.bridge, s.bridge.signerSets);
      var ok := bridgeKeeper.ImportState(bridge);
      Bank.ImportExportBank(bank, s.bank);
      ok := bankKeeper.ImportState(bank);
      ok := limitsKeeper.ImportState(limits);
    }

    method SubmitDepositClaim(claim0: DepositClaim, att: Attestation, persists: bool)
      returns (r: Result<ClaimResult, AppError>)
      requires Valid()
      modifies bridgeKeeper, bankKeeper, limitsKeeper
      ensures Valid()
      ensures old(DepositAudited(crypto, State(), claim0, att)) ==>
        (State(), r) == old(Submit(crypto, State(), claim0, att, persists))
      ensures old(DepositAudited(crypto, State(), claim0, att)) && r.Err? && r.error.BankRefused? ==>
        (State() == old(State()) <==> old(bridgeKeeper.nextWithdrawalNonce) != 0)
    {
      hide SetsInv, Bank.BankInv, Limits.LimitsInv, Registry.RegistryInv, AuditPasses, DepositChecks, AcceptDeposit,
           Bank.CreditError, Bank.Credited, Limits.RecordTransfer, SnapshotOfBridge, Bank.RecordsOf, Limits.SnapshotOf,
           FaultReal, FaultMessage, Trim, Receipt;
      ghost var s := State();
      var address := NormalizeAddress(crypto, claim0.recipient);
      if address.None? {
        return Err(InvalidAddress);
      }
      var claim := claim0.(recipient := address.value);
      var bridgeState := bridgeKeeper.ExportState();
      var bankState := bankKeeper.ExportState();
      var limitsState := limitsKeeper.ExportState();
      DepositKeepsStored(crypto, s, claim, att);
      var result := bridgeKeeper.ExecuteDepositClaim(claim, att);
      if result.Err? {
        return Err(BridgeRefused(result.error));
      }
      Bank.CreditKeepsInv(s.bank, claim.recipient, result.value.denom, Some(result.value.amount));
      var refused := bankKeeper.Credit(claim.recipient, result.value.denom, Some(result.value.amount), persists);
      if refused.Some? {
        Rollback(bridgeState, bankState, limitsState, s);
        RollbackKeepsStored(s);
        return Err(BankRefused(refused.value));
      }
      r := Ok(result.value);
    }

    method ExecuteWithdrawal(owner: string, req: WithdrawalRequest, persists: bool)
      returns (r: Result<WithdrawalRecord, AppError>)
      requires Valid()
      modifies bridgeKeeper, bankKeeper, limitsKeeper
      ensures Valid()
      ensures old(WithdrawalAudited(crypto, State(), req)) ==>
        (State(), r) == old(Withdraw(crypto, State(), owner, req, persists))
      ensures old(WithdrawalAudited(crypto, State(), req)) && r.Err? && r.error.BankRefused? ==>
        (State() == old(State()) <==> old(bridgeKeeper.nextWithdrawalNonce) != 0)
    {
      hide SetsInv, Bank.BankInv, Limits.LimitsInv, Registry.RegistryInv, AuditPasses, AcceptWithdrawal,
           Bank.DebitError, Bank.Debited, Limits.RecordTransfer, SnapshotOfBridge, Bank.RecordsOf, Limits.SnapshotOf,
           FaultReal, FaultMessage, Trim, NewRecord, SupplyCovers, Limits.CheckTransfer, ValidWithdrawal;
      ghost var s := State();
      var address := NormalizeAddress(crypto, owner);
      if address.None? {
        return Err(InvalidAddress);
      }
      var bridgeState := bridgeKeeper.ExportState();
      var bankState := bankKeeper.ExportState();
      var limitsState := limitsKeeper.ExportState();
      WithdrawalKeepsStored(crypto, s, req);
      var withdrawal := bridgeKeeper.ExecuteWithdrawal(req);
      if withdrawal.Err? {
        return Err(BridgeRefused(withdrawal.error));
      }
      RecordAmountIs(crypto, s.bridge, s.policy, req);
      var key := Trim(req.assetID);
      var asset := registryKeeper.assets[key];
      Bank.DebitKeepsInv(s.bank, address.value, asset.denom, Some(withdrawal.value.amount));
      var refused := bankKeeper.Debit(address.value, asset.denom, Some(withdrawal.value.amount), persists);
      if refused.Some? {
        Rollback(bridgeState, bankState, limitsState, s);
        RollbackKeepsStored(s);
        return Err(BankRefused(refused.value));
      }
      r := Ok(withdrawal.value);
    }

    method QueueDepositClaim(claim: DepositClaim, att: Attestation) returns (queued: bool)
      requires Valid()
      modifies this
      ensures Valid() && State() == old(Queue(crypto, State(), claim, att))
      ensures queued <==>
        ValidClaim(crypto, claim) && ValidAttestation(att) && NormalizeAddress(crypto, claim.recipient).Some?
    {
      hide ValidClaim, Trim, Stored;
      if !ValidClaim(crypto, claim) { return false; }
      queued := Attestations.ValidateBasic(att);
      if !queued { return; }
      var address := NormalizeAddress(crypto, claim.recipient);
      if address.None? { return false; }
      pendingDepositClaims := pendingDepositClaims
        + [QueuedClaim(claim.(recipient := address.value), att, bridgeKeeper.currentHeight)];
      StoredIgnoresQueue(old(State()), State());
    }

    /** The next height, then every queued claim; `applied` counts the accepted ones. */
    method AdvanceBlock(persists: nat -> bool) returns (height: U64, applied: nat)
      requires Valid()
      modifies this, bridgeKeeper, bankKeeper, limitsKeeper
      ensures Valid() && height == Add64(old(bridgeKeeper.currentHeight), 1)
      ensures old(LedgerInv(State())) ==> State() == old(Advanced(crypto, State(), persists))
      ensures old(LedgerInv(State())) ==>
        applied == old(Applied(crypto, NextBlock(State()), pendingDepositClaims, persists))
    {
      hide Stored, Books, Submit;
      ghost var s := State();
      height := Add64(bridgeKeeper.currentHeight, 1);
      bridgeKeeper.SetCurrentHeight(height);
      applied := 0;
      var queue := pendingDepositClaims;
      pendingDepositClaims := [];
      ghost var start := State();
      StoredIgnoresQueue(s, start);
      HeightKeepsInv(s, start);
      for i := 0 to |queue|
        invariant Valid() && applied <= i
        invariant old(LedgerInv(State())) ==> applied == Applied(crypto, start, queue[..i], persists)
        invariant old(LedgerInv(State())) ==>
          LedgerInv(State()) && State() == Drain(crypto, start, queue[..i], persists)
      {
        ghost var before := State();
        if LedgerInv(before) { InvAudits(crypto, before, queue[i].claim, queue[i].attestation); }
        var result := SubmitDepositClaim(queue[i].claim, queue[i].attestation, persists(i));
        if LedgerInv(before) { SubmitKeepsInv(crypto, before, queue[i].claim, queue[i].attestation, persists(i)); }
        assert queue[..i + 1][..i] == queue[..i];
        if result.Ok? {
          applied := applied + 1;
        }
      }
      assert queue[..|queue|] == queue;
    }
  }

  function GenesisLedger(allowedSigners: seq<string>, requiredThreshold: U32): LedgerState {
    LedgerState(Genesis(allowedSigners, requiredThreshold), map[], Limits.LimitsState(map[], map[]),
      Policy(map[], {}), [])
  }

  // ---- invariants ---------------------------------------------------------------------------------

  /** Normal forms of what the keepers store. */
  ghost predicate Stored(s: LedgerState) {
    && SetsInv(s.bridge.signerSets)
    && Bank.BankInv(s.bank)
    && Limits.LimitsInv(s.limits)
    && Registry.RegistryInv(s.policy.assets)
  }

  /** The supply of a denomination that no wallet holds. */
  ghost function Outside(s: LedgerState, d: string): int {
    SupplyOf(s.bridge.supply, d) - Bank.TotalHeld(s.bank, d)
  }

  /** Bridge and bank moved together. */
  ghost predicate Conserves(s: LedgerState, t: LedgerState) {
    forall d :: Outside(t, d) == Outside(s, d)
  }

  ghost predicate Books(s: LedgerState) {
    && !s.bridge.tripped
    && AmountsPositive(s.bridge)
    && BooksBalance(s.bridge, s.policy.assets)
  }

  ghost predicate LedgerInv(s: LedgerState) {
    Stored(s) && Books(s)
  }

  /** If this submission gets as far as the audit, the audit passes. */
  ghost predicate DepositAudited(c: Crypto, s: LedgerState, claim0: DepositClaim, att: Attestation) {
    var address := NormalizeAddress(c, claim0.recipient);
    address.Some? ==>
      var claim := claim0.(recipient := address.value);
      DepositChecks(c, s.bridge, s.policy, s.limits, claim, att).None? ==>
        AuditPasses(AcceptDeposit(c, s.bridge, s.policy, claim), s.policy.assets)
  }

  ghost predicate WithdrawalAudited(c: Crypto, s: LedgerState, r: WithdrawalRequest) {
    WithdrawChecks(s.bridge, s.policy, s.limits, r).None? && SupplyCovers(s.bridge, s.policy, r) ==>
      AuditPasses(AcceptWithdrawal(c, s.bridge, s.policy, r), s.policy.assets)
  }

  lemma StoredIgnoresQueue(s: LedgerState, t: LedgerState)
    requires Stored(s) && t.bank == s.bank && t.limits == s.limits && t.policy == s.policy
    requires t.bridge.signerSets == s.bridge.signerSets
    ensures Stored(t)
  {
  }

  lemma HeightKeepsInv(s: LedgerState, t: LedgerState)
    requires t.bridge == s.bridge.(currentHeight := t.bridge.currentHeight)
    requires t.bank == s.bank && t.limits == s.limits && t.policy == s.policy
    ensures LedgerInv(s) ==> LedgerInv(t)
    ensures Conserves(s, t)
  {
    hide SetsInv, Bank.BankInv, Limits.LimitsInv, Registry.RegistryInv;
    if LedgerInv(s) {
      BooksIgnore(s.bridge, t.bridge, s.policy.assets);
    }
  }

  /** The books depend on claims, supply and withdrawals only. */
  lemma BooksIgnore(b: BridgeState, b': BridgeState, assets: Registry.Assets)
    requires b'.claims == b.claims && b'.supply == b.supply && b'.withdrawals == b.withdrawals
    ensures AmountsPositive(b) ==> AmountsPositive(b')
    ensures BooksBalance(b, assets) ==> BooksBalance(b', assets)
  {
    hide Claimed, Withdrawn, AssetsKnown;
  }

  lemma DepositKeepsStored(c: Crypto, s: LedgerState, claim: DepositClaim, att: Attestation)
    requires Stored(s)
    ensures Limits.LimitsInv(Limits.RecordTransfer(s.limits, claim.assetID, claim.amount, s.bridge.currentHeight))
    ensures DepositChecks(c, s.bridge, s.policy, s.limits, claim, att).None? ==>
      claim.amount.Some? && Trim(claim.assetID) in s.policy.assets
      && AcceptDeposit(c, s.bridge, s.policy, claim).signerSets == s.bridge.signerSets
  {
    hide VerifyDeposit, Trim, IdentityBytes;
    Limits.RecordKeepsInv(s.limits, claim.assetID, claim.amount, s.bridge.currentHeight);
  }

  lemma WithdrawalKeepsStored(c: Crypto, s: LedgerState, r: WithdrawalRequest)
    requires Stored(s)
    ensures Limits.LimitsInv(Limits.RecordTransfer(s.limits, r.assetID, r.amount, s.bridge.currentHeight))
    ensures WithdrawChecks(s.bridge, s.policy, s.limits, r).None? ==>
      r.amount.Some? && Trim(r.assetID) in s.policy.assets
      && (SupplyCovers(s.bridge, s.policy, r) ==>
          AcceptWithdrawal(c, s.bridge, s.policy, r).signerSets == s.bridge.signerSets)
  {
    hide Trim, NewRecord, Lower;
    Limits.RecordKeepsInv(s.limits, r.assetID, r.amount, s.bridge.currentHeight);
  }

  lemma RollbackKeepsStored(s: LedgerState)
    requires Stored(s)
    ensures Stored(s.(bridge := RolledBack(s.bridge)))
  {
  }

  lemma RecordAmountIs(c: Crypto, b: BridgeState, p: Policy, r: WithdrawalRequest)
    ensures Trim(r.assetID) in p.assets && r.amount.Some? ==> NewRecord(c, b, p, r).amount == r.amount.value
  {
  }

  // ---- conservation ------------------------------------------------------------------------------

  /** Minting and recording a fresh claim keeps the books balanced. */
  lemma AcceptDepositBalances(c: Crypto, b: BridgeState, p: Policy, claim: DepositClaim)
    requires Trim(claim.assetID) in p.assets && Positive(claim.amount)
    requires DerivedMessageID(c, claim.identity) !in b.claims
    requires AmountsPositive(b) && BooksBalance(b, p.assets)
    ensures var s := AcceptDeposit(c, b, p, claim); AmountsPositive(s) && BooksBalance(s, p.assets)
  {
    hide Trim, Withdrawn, AssetsKnown, IdentityBytes, Registry.BridgeDenom;
    var s := AcceptDeposit(c, b, p, claim);
    var key := DerivedMessageID(c, claim.identity);
    forall d ensures SupplyOf(s.supply, d) == Claimed(s.claims, d) - Withdrawn(s.withdrawals, p.assets, d) >= 0 {
      SumByPut(b.claims, AcceptedIn(d), key, s.claims[key]);
      assert SupplyOf(b.supply, d) == Claimed(b.claims, d) - Withdrawn(b.withdrawals, p.assets, d) >= 0;
    }
  }

  lemma AcceptWithdrawalBalances(c: Crypto, b: BridgeState, p: Policy, r: WithdrawalRequest)
    requires Trim(r.assetID) in p.assets && Positive(r.amount) && SupplyCovers(b, p, r)
    requires AmountsPositive(b) && BooksBalance(b, p.assets)
    ensures var s := AcceptWithdrawal(c, b, p, r); AmountsPositive(s) && BooksBalance(s, p.assets)
  {
    hide Trim, Claimed, Registry.BridgeDenom;
    var s := AcceptWithdrawal(c, b, p, r);
    var w := NewRecord(c, b, p, r);
    RecordFacts(c, b, p, r);
    forall d ensures SupplyOf(s.supply, d) == Claimed(s.claims, d) - Withdrawn(s.withdrawals, p.assets, d) >= 0 {
      assert s.withdrawals[..|b.withdrawals|] == b.withdrawals;
      assert SupplyOf(b.supply, d) == Claimed(b.claims, d) - Withdrawn(b.withdrawals, p.assets, d) >= 0;
    }
  }

  lemma RecordFacts(c: Crypto, b: BridgeState, p: Policy, r: WithdrawalRequest)
    requires Trim(r.assetID) in p.assets && r.amount.Some?
    ensures var w := NewRecord(c, b, p, r); w.amount == r.amount.value && Trim(w.assetID) == Trim(r.assetID)
  {
    TrimTwice(r.assetID);
  }

  /** On balanced books no submission and no withdrawal ever fails the audit. */
  lemma InvAudits(c: Crypto, s: LedgerState, claim: DepositClaim, att: Attestation)
    requires LedgerInv(s)
    ensures DepositAudited(c, s, claim, att)
  {
    hide Trim, VerifyDeposit, AcceptDeposit, AuditPasses, BooksBalance, Stored, IdentityBytes;
    var address := NormalizeAddress(c, claim.recipient);
    if address.Some? {
      var claim' := claim.(recipient := address.value);
      if DepositChecks(c, s.bridge, s.policy, s.limits, claim', att).None? {
        AcceptDepositBalances(c, s.bridge, s.policy, claim');
        AuditExact(AcceptDeposit(c, s.bridge, s.policy, claim'), s.policy.assets);
      }
    }
  }

  lemma InvAuditsWithdrawal(c: Crypto, s: LedgerState, r: WithdrawalRequest)
    requires LedgerInv(s)
    ensures WithdrawalAudited(c, s, r)
  {
    hide Trim, AcceptWithdrawal, AuditPasses, BooksBalance, Stored, SupplyCovers, Lower;
    if WithdrawChecks(s.bridge, s.policy, s.limits, r).None? && SupplyCovers(s.bridge, s.policy, r) {
      AcceptWithdrawalBalances(c, s.bridge, s.policy, r);
      AuditExact(AcceptWithdrawal(c, s.bridge, s.policy, r), s.policy.assets);
    }
  }

  lemma SubmitKeepsInv(c: Crypto, s: LedgerState, claim0: DepositClaim, att: Attestation, persists: bool)
    requires LedgerInv(s)
    ensures LedgerInv(Submit(c, s, claim0, att, persists).0) && Conserves(s, Submit(c, s, claim0, att, persists).0)
  {
    hide Trim, VerifyDeposit, AuditPasses, BooksBalance, AmountsPositive, SetsInv, Bank.BankInv, Limits.LimitsInv,
         Registry.RegistryInv, IdentityBytes, Registry.BridgeDenom, Bank.CreditError, Bank.Credited,
         Limits.RecordTransfer, Limits.CheckTransfer, Restored;
    InvAudits(c, s, claim0, att);
    var address := NormalizeAddress(c, claim0.recipient);
    BooksIgnore(s.bridge, Reject(s.bridge), s.policy.assets);
    RolledBackBooks(s.bridge, s.policy.assets);
    if address.Some? {
      var claim := claim0.(recipient := address.value);
      if DepositChecks(c, s.bridge, s.policy, s.limits, claim, att).None? {
        AcceptDepositBalances(c, s.bridge, s.policy, claim);
        DepositKeepsStored(c, s, claim, att);
        var t := Submit(c, s, claim0, att, persists).0;
        var receipt := Receipt(s.policy, claim);
        if Bank.CreditError(claim.recipient, receipt.denom, Some(receipt.amount), persists).None? {
          Bank.CreditKeepsInv(s.bank, claim.recipient, receipt.denom, Some(receipt.amount));
          DepositConserves(c, s, claim, persists, t.bank);
        }
      }
    }
  }

  lemma RolledBackBooks(b: BridgeState, assets: Registry.Assets)
    ensures AmountsPositive(b) ==> AmountsPositive(RolledBack(b))
    ensures BooksBalance(b, assets) ==> BooksBalance(RolledBack(b), assets)
    ensures RolledBack(b).tripped == b.tripped && RolledBack(b).signerSets == b.signerSets
    ensures RolledBack(b).supply == b.supply
  {
    BooksIgnore(b, RolledBack(b), assets);
  }

  /** The mint and the credit raise the same denomination by the same amount. */
  lemma DepositConserves(c: Crypto, s: LedgerState, claim: DepositClaim, persists: bool, bank: Bank.Balances)
    requires Registry.RegistryInv(s.policy.assets)
    requires Trim(claim.assetID) in s.policy.assets && Positive(claim.amount)
    requires var receipt := Receipt(s.policy, claim);
      && Bank.CreditError(claim.recipient, receipt.denom, Some(receipt.amount), persists).None?
      && bank == Bank.Credited(s.bank, claim.recipient, receipt.denom, Some(receipt.amount))
    ensures Conserves(s, s.(bridge := AcceptDeposit(c, s.bridge, s.policy, claim), bank := bank))
  {
    hide Trim, Registry.RegistryInv, Registry.BridgeDenom, IdentityBytes, Bank.CreditWallet;
    var key := Trim(claim.assetID);
    Registry.BridgeAndBankAgree(s.policy.assets, key);
    var denom := Registry.BridgeDenom(s.policy.assets[key]);
    forall d ensures Outside(s.(bridge := AcceptDeposit(c, s.bridge, s.policy, claim), bank := bank), d)
      == Outside(s, d) {
      Bank.CreditTotal(s.bank, Trim(claim.recipient), denom, claim.amount.value, d);
    }
  }

  lemma WithdrawKeepsInv(c: Crypto, s: LedgerState, owner: string, r: WithdrawalRequest, persists: bool)
    requires LedgerInv(s)
    ensures LedgerInv(Withdraw(c, s, owner, r, persists).0) && Conserves(s, Withdraw(c, s, owner, r, persists).0)
  {
    hide Trim, AuditPasses, BooksBalance, AmountsPositive, SetsInv, Bank.BankInv, Limits.LimitsInv,
         Registry.RegistryInv, Lower, Registry.BridgeDenom, Bank.DebitError, Bank.Debited, Limits.RecordTransfer,
         Limits.CheckTransfer, Restored, NewRecord;
    InvAuditsWithdrawal(c, s, r);
    RolledBackBooks(s.bridge, s.policy.assets);
    WithdrawalKeepsStored(c, s, r);
    var address := NormalizeAddress(c, owner);
    if address.Some? && WithdrawChecks(s.bridge, s.policy, s.limits, r).None? && SupplyCovers(s.bridge, s.policy, r) {
      AcceptWithdrawalBalances(c, s.bridge, s.policy, r);
      var denom := s.policy.assets[Trim(r.assetID)].denom;
      if Bank.DebitError(s.bank, address.value, denom, r.amount, persists).None? {
        Bank.DebitKeepsInv(s.bank, address.value, denom, r.amount);
        WithdrawalConserves(c, s, address.value, r, persists);
      }
    }
  }

  lemma WithdrawalConserves(c: Crypto, s: LedgerState, owner: string, r: WithdrawalRequest, persists: bool)
    requires Registry.RegistryInv(s.policy.assets)
    requires Trim(r.assetID) in s.policy.assets && Positive(r.amount) && SupplyCovers(s.bridge, s.policy, r)
    requires Bank.DebitError(s.bank, owner, s.policy.assets[Trim(r.assetID)].denom, r.amount, persists).None?
    ensures var bank := Bank.Debited(s.bank, owner, s.policy.assets[Trim(r.assetID)].denom, r.amount);
      Conserves(s, s.(bridge := AcceptWithdrawal(c, s.bridge, s.policy, r), bank := bank))
  {
    hide Trim, Registry.RegistryInv, Registry.BridgeDenom, Bank.DebitWallet, NewRecord;
    var key := Trim(r.assetID);
    Registry.BridgeAndBankAgree(s.policy.assets, key);
    var denom := Registry.BridgeDenom(s.policy.assets[key]);
    var t := s.(bridge := AcceptWithdrawal(c, s.bridge, s.policy, r),
      bank := Bank.Debited(s.bank, owner, s.policy.assets[key].denom, r.amount));
    forall d ensures Outside(t, d) == Outside(s, d) {
      Bank.DebitTotal(s.bank, Trim(owner), denom, r.amount.value, d);
    }
  }

  lemma {:induction false} DrainKeepsInv(c: Crypto, s: LedgerState, queue: seq<QueuedClaim>, persists: nat -> bool)
    requires LedgerInv(s)
    ensures LedgerInv(Drain(c, s, queue, persists)) && Conserves(s, Drain(c, s, queue, persists))
  {
    hide LedgerInv, Submit, Outside;
    if queue != [] {
      var n := |queue| - 1;
      DrainKeepsInv(c, s, queue[..n], persists);
      SubmitKeepsInv(c, Drain(c, s, queue[..n], persists), queue[n].claim, queue[n].attestation, persists(n));
    }
  }

  // ---- runs --------------------------------------------------------------------------------------

  datatype Op =
    | DoSubmit(claim: DepositClaim, att: Attestation, persists: bool)
    | DoQueue(claim: DepositClaim, att: Attestation)
    | DoAdvance(oracle: nat -> bool)
    | DoWithdraw(owner: string, req: WithdrawalRequest, persists: bool)
    | DoSetHeight(height: U64)
    | DoRegister(asset: Registry.Asset)
    | DoSetEnabled(assetID: string, enabled: bool)
    | DoSetLimit(limit: Limits.RateLimit)
    | DoPause(flow: string)
    | DoUnpause(flow: string)
    | DoUpsertSigners(signers: SignerSet)

  ghost function Step(c: Crypto, s: LedgerState, op: Op): LedgerState {
    match op
    case DoSubmit(claim, att, persists) => Submit(c, s, claim, att, persists).0
    case DoQueue(claim, att) => Queue(c, s, claim, att)
    case DoAdvance(oracle) => Advanced(c, s, oracle)
    case DoWithdraw(owner, req, persists) => Withdraw(c, s, owner, req, persists).0
    case DoSetHeight(height) => s.(bridge := s.bridge.(currentHeight := height))
    case DoRegister(asset) => s.(policy := s.policy.(assets := Registry.Register(s.policy.assets, asset)))
    case DoSetEnabled(assetID, enabled) =>
      s.(policy := s.policy.(assets := Registry.SetEnabled(s.policy.assets, assetID, enabled)))
    case DoSetLimit(limit) => s.(limits := Limits.PutLimit(s.limits, limit))
    case DoPause(flow) =>
      if Trim(flow) == "" then s else s.(policy := s.policy.(paused := s.policy.paused + {Trim(flow)}))
    case DoUnpause(flow) =>
      if Trim(flow) == "" then s else s.(policy := s.policy.(paused := s.policy.paused - {Trim(flow)}))
    case DoUpsertSigners(signers) => s.(bridge := s.bridge.(signerSets := Upsert(s.bridge.signerSets, signers)))
  }

  ghost function Run(c: Crypto, s: LedgerState, ops: seq<Op>): LedgerState {
    if ops == [] then s else Step(c, Run(c, s, ops[..|ops| - 1]), ops[|ops| - 1])
  }

  /** No registry change reaches back into recorded withdrawals. */
  lemma {:induction false} WithdrawnFixed(ws: seq<WithdrawalRecord>, assets: Registry.Assets, assets': Registry.Assets,
                                          d: string)
    requires AssetsKnown(ws, assets)
    requires forall k | k in assets ::
      k in assets' && Registry.BridgeDenom(assets'[k]) == Registry.BridgeDenom(assets[k])
    ensures Withdrawn(ws, assets', d) == Withdrawn(ws, assets, d)
  {
    hide Trim, Registry.BridgeDenom;
    if ws != [] {
      var front := ws[..|ws| - 1];
      assert ws[|ws| - 1] in ws && forall w | w in front :: w in ws;
      WithdrawnFixed(front, assets, assets', d);
    }
  }

  lemma AssetsChangeKeepsBooks(s: LedgerState, assets': Registry.Assets)
    requires Books(s)
    requires forall k | k in s.policy.assets ::
      k in assets' && Registry.BridgeDenom(assets'[k]) == Registry.BridgeDenom(s.policy.assets[k])
    ensures Books(s.(policy := s.policy.(assets := assets')))
  {
    hide Trim, Registry.BridgeDenom, Withdrawn, Claimed;
    forall d ensures Withdrawn(s.bridge.withdrawals, assets', d)
      == Withdrawn(s.bridge.withdrawals, s.policy.assets, d) {
      WithdrawnFixed(s.bridge.withdrawals, s.policy.assets, assets', d);
    }
  }

  lemma StepKeepsInv(c: Crypto, s: LedgerState, op: Op)
    requires LedgerInv(s)
    ensures LedgerInv(Step(c, s, op)) && Conserves(s, Step(c, s, op))
  {
    hide Submit, Withdraw, Drain, Queue, Registry.Register, Registry.SetEnabled, Upsert, Limits.PutLimit, Trim, SetsInv,
         Bank.BankInv, Limits.LimitsInv, Registry.RegistryInv, Registry.BridgeDenom, BooksBalance, AmountsPositive,
         Conserves;
    var t := Step(c, s, op);
    match op
    case DoSubmit(claim, att, persists) => SubmitKeepsInv(c, s, claim, att, persists);
    case DoQueue(claim, att) => QueueKeepsInv(c, s, claim, att);
    case DoAdvance(oracle) =>
      var next := s.(bridge := s.bridge.(currentHeight := Add64(s.bridge.currentHeight, 1)), pending := []);
      HeightKeepsInv(s, next);
      DrainKeepsInv(c, next, s.pending, oracle);
      ConservesChains(s, next, t);
    case DoWithdraw(owner, req, persists) => WithdrawKeepsInv(c, s, owner, req, persists);
    case DoSetHeight(height) => HeightKeepsInv(s, t);
    case DoRegister(asset) =>
      Registry.RegisterKeepsInv(s.policy.assets, asset);
      forall k | k in s.policy.assets ensures k in t.policy.assets && t.policy.assets[k] == s.policy.assets[k] {
        Registry.DenomsAreFinal(s.policy.assets, asset, "", true, k);
      }
      AssetsChangeKeepsBooks(s, t.policy.assets);
      ConservesAlone(s, t);
    case DoSetEnabled(assetID, enabled) =>
      Registry.SetEnabledKeepsInv(s.policy.assets, assetID, enabled);
      forall k | k in s.policy.assets
        ensures k in t.policy.assets
        ensures Registry.BridgeDenom(t.policy.assets[k]) == Registry.BridgeDenom(s.policy.assets[k])
      {
        Registry.DenomsAreFinal(s.policy.assets, s.policy.assets[k], assetID, enabled, k);
      }
      AssetsChangeKeepsBooks(s, t.policy.assets);
      ConservesAlone(s, t);
    case DoSetLimit(limit) =>
      Limits.SetLimitKeepsInv(s.limits, limit);
      ConservesAlone(s, t);
    case DoPause(_) => ConservesAlone(s, t);
    case DoUnpause(_) => ConservesAlone(s, t);
    case DoUpsertSigners(signers) =>
      UpsertKeepsInv(s.bridge.signerSets, signers);
      BooksIgnore(s.bridge, t.bridge, s.policy.assets);
      ConservesAlone(s, t);
  }

  lemma ConservesAlone(s: LedgerState, t: LedgerState)
    requires t.bank == s.bank && t.bridge.supply == s.bridge.supply
    ensures Conserves(s, t)
  {
  }

  lemma ConservesChains(s: LedgerState, t: LedgerState, u: LedgerState)
    requires Conserves(s, t) && Conserves(t, u)
    ensures Conserves(s, u)
  {
    hide Outside;
  }

  lemma QueueKeepsInv(c: Crypto, s: LedgerState, claim: DepositClaim, att: Attestation)
    requires LedgerInv(s)
    ensures LedgerInv(Queue(c, s, claim, att)) && Conserves(s, Queue(c, s, claim, att))
  {
    hide ValidClaim, ValidAttestation, Trim, Stored, BooksBalance, AmountsPositive, Conserves;
    var t := Queue(c, s, claim, att);
    StoredIgnoresQueue(s, t);
    ConservesAlone(s, t);
  }

  lemma {:induction false} RunKeepsInv(c: Crypto, s: LedgerState, ops: seq<Op>)
    requires LedgerInv(s)
    ensures LedgerInv(Run(c, s, ops)) && Conserves(s, Run(c, s, ops))
  {
    hide LedgerInv, Step, Outside;
    if ops != [] {
      RunKeepsInv(c, s, ops[..|ops| - 1]);
      StepKeepsInv(c, Run(c, s, ops[..|ops| - 1]), ops[|ops| - 1]);
    }
  }

  lemma GenesisInv(allowedSigners: seq<string>, requiredThreshold: U32)
    ensures LedgerInv(GenesisLedger(allowedSigners, requiredThreshold))
    ensures forall d :: Outside(GenesisLedger(allowedSigners, requiredThreshold), d) == 0
  {
    hide NormalizeSet, Trim, Registry.BridgeDenom, Outside, BooksBalance, Registry.RegistryInv, Limits.LimitsInv;
    NormalizeSetTwice(SignerSet(1, allowedSigners, if requiredThreshold == 0 then 1 else requiredThreshold, 0, 0));
    GenesisBooks(allowedSigners, requiredThreshold);
  }

  lemma GenesisBooks(allowedSigners: seq<string>, requiredThreshold: U32)
    ensures var g := GenesisLedger(allowedSigners, requiredThreshold);
      && BooksBalance(g.bridge, g.policy.assets) && Registry.RegistryInv(g.policy.assets) && Limits.LimitsInv(g.limits)
      && forall d :: Outside(g, d) == 0
  {
    hide NormalizeSet, Trim, Registry.BridgeDenom;
    NothingClaimed();
  }

  /**
    Over every run from an empty application, with the bank failing wherever it likes: all balances
    of a denomination sum to its bridge supply, supply is claims minus withdrawals, the audit passes
    and the circuit breaker has not tripped.
   */
  lemma Conservation(c: Crypto, allowedSigners: seq<string>, requiredThreshold: U32, ops: seq<Op>)
    ensures var s := Run(c, GenesisLedger(allowedSigners, requiredThreshold), ops);
      && (forall d :: Bank.TotalHeld(s.bank, d) == SupplyOf(s.bridge.supply, d)
                        == Claimed(s.bridge.claims, d) - Withdrawn(s.bridge.withdrawals, s.policy.assets, d))
      && AuditPasses(s.bridge, s.policy.assets)
      && !s.bridge.tripped
  {
    hide AuditPasses, Stored, GenesisLedger, Run, BooksBalance, Outside, Claimed, Withdrawn, Bank.TotalHeld;
    var s := Run(c, GenesisLedger(allowedSigners, requiredThreshold), ops);
    RunConserves(c, allowedSigners, requiredThreshold, ops);
    AuditExact(s.bridge, s.policy.assets);
    forall d ensures Bank.TotalHeld(s.bank, d) == SupplyOf(s.bridge.supply, d)
                       == Claimed(s.bridge.claims, d) - Withdrawn(s.bridge.withdrawals, s.policy.assets, d)
    {
      NothingOutside(s, d);
    }
  }

  lemma NothingOutside(s: LedgerState, d: string)
    requires BooksBalance(s.bridge, s.policy.assets) && Outside(s, d) == 0
    ensures Bank.TotalHeld(s.bank, d) == SupplyOf(s.bridge.supply, d)
              == Claimed(s.bridge.claims, d) - Withdrawn(s.bridge.withdrawals, s.policy.assets, d)
  {
    hide Claimed, Withdrawn, Bank.TotalHeld;
  }

  lemma RunConserves(c: Crypto, allowedSigners: seq<string>, requiredThreshold: U32, ops: seq<Op>)
    ensures LedgerInv(Run(c, GenesisLedger(allowedSigners, requiredThreshold), ops))
    ensures forall d :: Outside(Run(c, GenesisLedger(allowedSigners, requiredThreshold), ops), d) == 0
  {
    hide LedgerInv, GenesisLedger, Run, Outside;
    GenesisInv(allowedSigners, requiredThreshold);
    RunKeepsInv(c, GenesisLedger(allowedSigners, requiredThreshold), ops);
    forall d ensures Outside(Run(c, GenesisLedger(allowedSigners, requiredThreshold), ops), d) == 0 {
      assert Outside(Run(c, GenesisLedger(allowedSigners, requiredThreshold), ops), d)
        == Outside(GenesisLedger(allowedSigners, requiredThreshold), d);
    }
  }

  /**
    With no more in wallets than there is supply, as after every run, an owner who holds the amount is
    never told that supply is short; with all other checks passed, only storage can fail.
   */
  lemma HolderIsServed(c: Crypto, s: LedgerState, owner: string, r: WithdrawalRequest, persists: bool)
    requires LedgerInv(s) && WithdrawChecks(s.bridge, s.policy, s.limits, r).None?
    requires forall d :: Outside(s, d) >= 0
    requires NormalizeAddress(c, owner).Some?
    requires Bank.Held(s.bank, Trim(owner), Trim(s.policy.assets[Trim(r.assetID)].denom)) >= r.amount.value
    ensures SupplyCovers(s.bridge, s.policy, r)
    ensures Withdraw(c, s, owner, r, persists).1.Ok? <==> persists
  {
    hide Trim, Lower, Limits.CheckTransfer, NewRecord, BooksBalance, AuditPasses, Limits.LimitsInv, SetsInv,
         AcceptWithdrawal, Registry.BridgeDenom, Bank.TotalHeld, Registry.RegistryInv, Bank.BankInv;
    var key := Trim(r.assetID);
    Registry.BridgeAndBankAgree(s.policy.assets, key);
    var denom := Registry.BridgeDenom(s.policy.assets[key]);
    Bank.HeldWithinTotal(s.bank, Trim(owner), denom);
    assert Outside(s, denom) >= 0;
    InvAuditsWithdrawal(c, s, r);
    TrimTwice(owner);
  }

  /** When the bank refuses, nothing at all has changed, exactly unless the withdrawal nonce had wrapped to zero. */
  lemma BankRefusalRestores(c: Crypto, s: LedgerState, claim: DepositClaim, att: Attestation,
                            owner: string, r: WithdrawalRequest, persists: bool)
    ensures Submit(c, s, claim, att, persists).1.Err? && Submit(c, s, claim, att, persists).1.error.BankRefused? ==>
      (Submit(c, s, claim, att, persists).0 == s <==> s.bridge.nextNonce != 0)
    ensures Withdraw(c, s, owner, r, persists).1.Err? && Withdraw(c, s, owner, r, persists).1.error.BankRefused? ==>
      (Withdraw(c, s, owner, r, persists).0 == s <==> s.bridge.nextNonce != 0)
  {
    hide Trim, Lower, Limits.CheckTransfer, NewRecord, AuditPasses, AcceptWithdrawal, AcceptDeposit, DepositChecks,
         WithdrawChecks, Bank.CreditError, Bank.DebitError, Bank.Credited, Bank.Debited, SupplyCovers,
         Registry.BridgeDenom, Restored;
    RollbackExactIff(s.bridge, s.bridge.signerSets);
  }

  /** The parts of the state that hold or move money. */
  ghost predicate SameMoney(s: LedgerState, t: LedgerState) {
    && t.bridge.tripped == s.bridge.tripped && t.bridge.supply == s.bridge.supply && t.bridge.claims == s.bridge.claims
    && t.bridge.withdrawals == s.bridge.withdrawals && t.bank == s.bank
  }

  lemma SubmitTripped(c: Crypto, s: LedgerState, claim: DepositClaim, att: Attestation, persists: bool)
    requires s.bridge.tripped
    ensures SameMoney(s, Submit(c, s, claim, att, persists).0)
  {
    hide Trim, ValidClaim, VerifyDeposit, Limits.CheckTransfer, AcceptDeposit, AuditPasses, Limits.RecordTransfer;
  }

  /** Once the breaker has tripped no operation moves money: supply, claims, withdrawals and wallets stay put. */
  lemma TrippedFreezes(c: Crypto, s: LedgerState, op: Op)
    requires s.bridge.tripped
    ensures SameMoney(s, Step(c, s, op))
  {
    hide Trim, Lower, Upsert, Registry.Register, Registry.SetEnabled, Limits.PutLimit, Queue, Submit, Drain,
         ValidWithdrawal, Limits.CheckTransfer, AcceptWithdrawal, NewRecord, AuditPasses, Limits.RecordTransfer,
         SupplyCovers;
    match op
    case DoSubmit(claim, att, persists) => SubmitTripped(c, s, claim, att, persists);
    case DoQueue(claim, att) => QueueKeepsBridge(c, s, claim, att);
    case DoAdvance(oracle) =>
      var next := s.(bridge := s.bridge.(currentHeight := Add64(s.bridge.currentHeight, 1)), pending := []);
      DrainTripped(c, next, s.pending, oracle);
    case _ =>
  }

  lemma {:induction false} DrainTripped(c: Crypto, s: LedgerState, queue: seq<QueuedClaim>, oracle: nat -> bool)
    requires s.bridge.tripped
    ensures SameMoney(s, Drain(c, s, queue, oracle))
  {
    hide Submit;
    if queue != [] {
      var n := |queue| - 1;
      DrainTripped(c, s, queue[..n], oracle);
      SubmitTripped(c, Drain(c, s, queue[..n], oracle), queue[n].claim, queue[n].attestation, oracle(n));
    }
  }

  ghost predicate Keeps(before: map<string, ClaimRecord>, after: map<string, ClaimRecord>) {
    forall key | key in before :: key in after && after[key] == before[key]
  }

  lemma AcceptKeepsClaims(c: Crypto, b: BridgeState, p: Policy, claim: DepositClaim)
    requires Trim(claim.assetID) in p.assets && claim.amount.Some? && DerivedMessageID(c, claim.identity) !in b.claims
    ensures Keeps(b.claims, AcceptDeposit(c, b, p, claim).claims)
  {
    hide Trim, IdentityBytes, Registry.BridgeDenom;
  }

  lemma SubmitKeepsClaims(c: Crypto, s: LedgerState, claim: DepositClaim, att: Attestation, persists: bool)
    ensures Keeps(s.bridge.claims, Submit(c, s, claim, att, persists).0.bridge.claims)
  {
    hide Trim, AuditPasses, Bank.CreditError, Bank.Credited, VerifyDeposit, Limits.CheckTransfer, Limits.RecordTransfer,
         IdentityBytes, ValidClaim, Registry.BridgeDenom, AcceptDeposit;
    var address := NormalizeAddress(c, claim.recipient);
    if address.Some? {
      var claim' := claim.(recipient := address.value);
      if DepositChecks(c, s.bridge, s.policy, s.limits, claim', att).None? {
        ValidClaimFacts(c, claim');
        AcceptKeepsClaims(c, s.bridge, s.policy, claim');
      }
    }
  }

  /** A recorded claim is never forgotten or altered, so its replay key never mints again. */
  lemma ClaimsAreFinal(c: Crypto, s: LedgerState, op: Op)
    ensures Keeps(s.bridge.claims, Step(c, s, op).bridge.claims)
  {
    hide Trim, Lower, Upsert, Registry.Register, Registry.SetEnabled, Limits.PutLimit, Queue, Submit, AuditPasses,
         Bank.DebitError, Bank.Debited, NewRecord, Limits.CheckTransfer, Limits.RecordTransfer, Drain;
    match op
    case DoSubmit(claim, att, persists) => SubmitKeepsClaims(c, s, claim, att, persists);
    case DoQueue(claim, att) => QueueKeepsBridge(c, s, claim, att);
    case DoAdvance(oracle) =>
      var next := s.(bridge := s.bridge.(currentHeight := Add64(s.bridge.currentHeight, 1)), pending := []);
      DrainKeepsClaims(c, next, s.pending, oracle);
    case _ =>
  }

  lemma QueueKeepsBridge(c: Crypto, s: LedgerState, claim: DepositClaim, att: Attestation)
    ensures Queue(c, s, claim, att).bridge == s.bridge && Queue(c, s, claim, att).bank == s.bank
  {
    hide ValidClaim, ValidAttestation, Trim;
  }

  lemma {:induction false} DrainKeepsClaims(c: Crypto, s: LedgerState, queue: seq<QueuedClaim>, oracle: nat -> bool)
    ensures Keeps(s.bridge.claims, Drain(c, s, queue, oracle).bridge.claims)
  {
    hide Submit;
    if queue != [] {
      var n := |queue| - 1;
      DrainKeepsClaims(c, s, queue[..n], oracle);
      SubmitKeepsClaims(c, Drain(c, s, queue[..n], oracle), queue[n].claim, queue[n].attestation, oracle(n));
    }
  }

  lemma MintEffect(c: Crypto, b: BridgeState, p: Policy, claim: DepositClaim)
    requires Trim(claim.assetID) in p.assets && claim.amount.Some?
    ensures var t := AcceptDeposit(c, b, p, claim);
      var denom := Registry.BridgeDenom(p.assets[Trim(claim.assetID)]);
      && t.claims.Keys == b.claims.Keys + {DerivedMessageID(c, claim.identity)}
      && forall d :: SupplyOf(t.supply, d) == SupplyOf(b.supply, d) + (if d == denom then claim.amount.value else 0)
  {
    hide Trim, IdentityBytes, Registry.BridgeDenom;
  }

  lemma CreditEffect(b: Bank.Balances, address: string, denom: string, amount: BigInt)
    requires Bank.CreditError(address, denom, amount, true).None?
    ensures forall a, d ::
      (Bank.Held(Bank.Credited(b, address, denom, amount), a, d)
        == Bank.Held(b, a, d) + (if a == Trim(address) && d == Trim(denom) then amount.value else 0))
  {
    hide Trim;
  }

  /** The effect of an accepted deposit, on both ledgers and nowhere else. */
  lemma DepositEffect(c: Crypto, s: LedgerState, claim: DepositClaim, att: Attestation, persists: bool)
    requires LedgerInv(s) && Submit(c, s, claim, att, persists).1.Ok?
    ensures var (t, r) := Submit(c, s, claim, att, persists);
      var key := DerivedMessageID(c, claim.identity);
      && key !in s.bridge.claims && t.bridge.claims.Keys == s.bridge.claims.Keys + {key}
      && claim.amount == Some(r.value.amount) && r.value.amount > 0
      && (forall d ::
          SupplyOf(t.bridge.supply, d) == SupplyOf(s.bridge.supply, d)
            + (if d == r.value.denom then r.value.amount else 0))
      && (forall a, d :: Bank.Held(t.bank, a, d) == Bank.Held(s.bank, a, d)
            + (if a == Trim(claim.recipient) && d == r.value.denom then r.value.amount else 0))
  {
    hide Trim, VerifyDeposit, AuditPasses, Limits.CheckTransfer, IdentityBytes, Registry.RegistryInv, Books,
         Registry.BridgeDenom, Bank.BankInv, SetsInv, Limits.LimitsInv, AcceptDeposit, Bank.Credited, Bank.Held,
         ValidClaim, Limits.RecordTransfer, SupplyOf;
    TrimTwice(claim.recipient);
    var claim' := claim.(recipient := Trim(claim.recipient));
    ValidClaimFacts(c, claim');
    Registry.BridgeAndBankAgree(s.policy.assets, Trim(claim.assetID));
    MintEffect(c, s.bridge, s.policy, claim');
    CreditEffect(s.bank, claim'.recipient, Receipt(s.policy, claim').denom, claim.amount);
  }
}
