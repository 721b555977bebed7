/** What the application accepts, and what each accepted or refused operation does to the whole ledger. */
module LedgerEffects {
  import opened Base
  import opened Text
  import opened Canonical
  import opened Attestations
  import opened Signers
  import Limits
  import Bank
  import Registry
  import opened Bridge
  import opened Ledger
  import M = Minting

  /** The asset is registered, switched on and not paused. */
  predicate Open(p: Policy, assetID: string) {
    var key := Trim(assetID);
    key != "" && key in p.assets && p.assets[key].enabled && key !in p.paused
  }

  /** A deposit identity as the bridge takes it: of a known kind and origin, filed under its own replay key. */
  predicate Identified(c: Crypto, id: ClaimIdentity) {
    && id.kind == "deposit"
    && Trim(id.sourceAssetKind) in {"", "native_eth", "erc20"}
    && Trim(id.sourceChainID) != "" && Trim(id.sourceTxHash) != ""
    && (Trim(id.sourceAssetKind) == "native_eth" || Trim(id.sourceContract) != "")
    && Trim(id.messageID) != "" && id.messageID == DerivedMessageID(c, id)
  }

  /** A deposit that may be minted now. */
  ghost predicate Mintable(c: Crypto, s: LedgerState, claim: DepositClaim, att: Attestation) {
    && Trim(claim.recipient) != "" && c.validAddress(Trim(claim.recipient))
    && Identified(c, claim.identity)
    && Trim(claim.destinationChainID) != "" && claim.amount.Some? && claim.amount.value > 0 && claim.deadline != 0
    && claim.identity.messageID !in s.bridge.claims
    && (exists active, members ::
         Vouched(c, s.bridge, claim.(recipient := Trim(claim.recipient)), att, active, members))
    && Open(s.policy, claim.assetID)
    && Limits.Room(s.limits, claim.assetID, claim.amount, s.bridge.currentHeight)
    && !s.bridge.tripped
  }

  lemma ValidClaimIs(c: Crypto, claim: DepositClaim)
    ensures ValidClaim(c, claim) <==>
      && Identified(c, claim.identity) && Trim(claim.destinationChainID) != "" && Trim(claim.assetID) != ""
      && claim.amount.Some? && claim.amount.value > 0 && Trim(claim.recipient) != "" && claim.deadline != 0
  {
    hide Trim, IdentityBytes;
  }

  lemma ChecksIff(c: Crypto, s: LedgerState, claim: DepositClaim, att: Attestation)
    requires LedgerInv(s) && Trim(claim.recipient) == claim.recipient && c.validAddress(claim.recipient)
    ensures DepositChecks(c, s.bridge, s.policy, s.limits, claim, att).None? <==> Mintable(c, s, claim, att)
  {
    hide Trim, ValidClaim, VerifyDeposit, Vouched, Limits.CheckTransfer, Limits.Room, IdentityBytes, LedgerInv,
         Identified;
    InvParts(s);
    ValidClaimIs(c, claim);
    VerifiedIff(c, s.bridge, claim, att);
    Limits.CheckExact(s.limits, claim.assetID, claim.amount, s.bridge.currentHeight);
    if ValidClaim(c, claim) { ValidClaimFacts(c, claim); }
    hide DerivedMessageID;
    assert claim.(recipient := claim.recipient) == claim;
  }

  lemma InvParts(s: LedgerState)
    requires LedgerInv(s)
    ensures SetsInv(s.bridge.signerSets) && Bank.BankInv(s.bank) && Limits.LimitsInv(s.limits)
    ensures Registry.RegistryInv(s.policy.assets) && !s.bridge.tripped
  {
    hide SetsInv, Bank.BankInv, Limits.LimitsInv, Registry.RegistryInv, AmountsPositive, BooksBalance;
  }

  /** A deposit is accepted exactly when it may be minted and the wallet can be written. */
  lemma AcceptedDepositIff(c: Crypto, s: LedgerState, claim: DepositClaim, att: Attestation, persists: bool)
    requires LedgerInv(s)
    ensures Submit(c, s, claim, att, persists).1.Ok? <==> Mintable(c, s, claim, att) && persists
  {
    TrimTwice(claim.recipient);
    var claim' := claim.(recipient := Trim(claim.recipient));
    InvAudits(c, s, claim, att);
    if Trim(claim.recipient) != "" && c.validAddress(Trim(claim.recipient)) {
      ChecksIff(c, s, claim', att);
      MintableTrimmed(c, s, claim, att);
      hide Mintable, DepositChecks, Trim, LedgerInv, AuditPasses, Limits.RecordTransfer, Bank.Credited, AcceptDeposit;
      if DepositChecks(c, s.bridge, s.policy, s.limits, claim', att).None? { CreditGoes(c, s, claim', att, persists); }
    } else {
      hide Vouched, Trim, Limits.Room, Identified, DepositChecks;
    }
  }

  lemma MintableTrimmed(c: Crypto, s: LedgerState, claim: DepositClaim, att: Attestation)
    ensures Mintable(c, s, claim.(recipient := Trim(claim.recipient)), att) <==> Mintable(c, s, claim, att)
  {
    TrimTwice(claim.recipient);
    hide Vouched, Trim, Limits.Room, Identified;
    var claim' := claim.(recipient := Trim(claim.recipient));
    assert claim'.(recipient := Trim(claim'.recipient)) == claim';
  }

  /** The wallet of a checked claim can be credited whenever storage works. */
  lemma CreditGoes(c: Crypto, s: LedgerState, claim: DepositClaim, att: Attestation, persists: bool)
    requires LedgerInv(s) && DepositChecks(c, s.bridge, s.policy, s.limits, claim, att).None?
    ensures claim.amount.Some? && Trim(claim.assetID) in s.policy.assets
    ensures var receipt := Receipt(s.policy, claim);
      Bank.CreditError(claim.recipient, receipt.denom, Some(receipt.amount), persists).None? <==> persists
  {
    hide VerifyDeposit, Trim, Limits.CheckTransfer, IdentityBytes, Books, Registry.BridgeDenom, Registry.RegistryInv;
    Registry.BridgeAndBankAgree(s.policy.assets, Trim(claim.assetID));
    TrimTwice(claim.assetID);
  }

  // ---- an accepted deposit ------------------------------------------------------------------------------

  /** Nothing of the bridge but claims and supply has changed. */
  predicate OnlyMints(b: BridgeState, b': BridgeState) {
    b' == b.(claims := b'.claims, supply := b'.supply)
  }

  /**
    An accepted deposit: one claim recorded that says what was minted for whom, that much supply and that much in
    that wallet more, that much of the limit used, and nothing else.
   */
  lemma DepositExact(c: Crypto, s: LedgerState, claim: DepositClaim, att: Attestation, persists: bool)
    requires LedgerInv(s) && Submit(c, s, claim, att, persists).1.Ok?
    ensures var (t, r) := Submit(c, s, claim, att, persists);
      var key := claim.identity.messageID;
      && Trim(claim.assetID) in s.policy.assets
      && var denom := Trim(s.policy.assets[Trim(claim.assetID)].denom);
      && r.value == ClaimResult(key, denom, r.value.amount) && claim.amount == Some(r.value.amount)
      && t.bridge.claims == s.bridge.claims[key := ClaimRecord(
           key, claim.identity.sourceTxHash, denom, claim.assetID, Trim(claim.recipient), r.value.amount, Accepted)]
      && OnlyMints(s.bridge, t.bridge) && t.policy == s.policy && t.pending == s.pending
      && Trim(claim.assetID) in s.limits.limits
      && Limits.Spends(s.limits, t.limits, claim.assetID, r.value.amount, s.bridge.currentHeight)
  {
    TrimTwice(claim.recipient);
    var claim' := claim.(recipient := Trim(claim.recipient));
    InvAudits(c, s, claim, att);
    hide Trim, LedgerInv, AuditPasses, Bank.Credited, Bank.CreditError, DepositChecks, Limits.RecordTransfer,
         Registry.BridgeDenom, IdentityBytes, Limits.Spends;
    assert DepositChecks(c, s.bridge, s.policy, s.limits, claim', att).None?;
    CheckedDeposit(c, s, claim', att);
  }

  lemma CheckedDeposit(c: Crypto, s: LedgerState, claim: DepositClaim, att: Attestation)
    requires LedgerInv(s) && DepositChecks(c, s.bridge, s.policy, s.limits, claim, att).None?
    ensures claim.amount.Some? && Trim(claim.assetID) in s.policy.assets && Trim(claim.assetID) in s.limits.limits
    ensures DerivedMessageID(c, claim.identity) == claim.identity.messageID
    ensures Registry.BridgeDenom(s.policy.assets[Trim(claim.assetID)])
      == Trim(s.policy.assets[Trim(claim.assetID)].denom)
    ensures Limits.Spends(s.limits,
      Limits.RecordTransfer(s.limits, claim.assetID, claim.amount, s.bridge.currentHeight), claim.assetID,
      claim.amount.value, s.bridge.currentHeight)
  {
    hide VerifyDeposit, Trim, Limits.CheckTransfer, Limits.RecordTransfer, Limits.Spends, IdentityBytes, LedgerInv,
         Registry.BridgeDenom, Registry.RegistryInv, ValidClaim, Limits.LimitsInv;
    InvParts(s);
    Limits.CheckExact(s.limits, claim.assetID, claim.amount, s.bridge.currentHeight);
    Limits.RecordExact(s.limits, claim.assetID, claim.amount, s.bridge.currentHeight);
    ValidClaimFacts(c, claim);
    Registry.BridgeAndBankAgree(s.policy.assets, Trim(claim.assetID));
  }

  // ---- a refused deposit -----------------------------------------------------------------------------------

  /**
    A refused deposit moves nothing: no claim, supply, wallet, limit or asset. A bad address leaves no trace,
    a refusal by the bridge counts a rejection, and one by the bank lifts a wrapped nonce to one.
   */
  lemma RefusedDeposit(c: Crypto, s: LedgerState, claim: DepositClaim, att: Attestation, persists: bool)
    requires LedgerInv(s) && Submit(c, s, claim, att, persists).1.Err?
    ensures var (t, r) := Submit(c, s, claim, att, persists);
      && t == s.(bridge := t.bridge)
      && t.bridge == s.bridge.(rejected := t.bridge.rejected, nextNonce := t.bridge.nextNonce,
                                                               signerSets := t.bridge.signerSets)
      && t.bridge.signerSets == s.bridge.signerSets
      && t.bridge.rejected == (if r.error.BridgeRefused? then (s.bridge.rejected + 1) % TWO_64 else s.bridge.rejected)
      && t.bridge.nextNonce == (if r.error.BankRefused? && s.bridge.nextNonce == 0 then 1 else s.bridge.nextNonce)
      && (r.error.InvalidAddress? <==> Trim(claim.recipient) == "" || !c.validAddress(Trim(claim.recipient)))
      && (r.error.BankRefused? ==> !persists)
  {
    TrimTwice(claim.recipient);
    InvAudits(c, s, claim, att);
    var claim' := claim.(recipient := Trim(claim.recipient));
    hide Trim, LedgerInv, AuditPasses, Bank.Credited, DepositChecks, Limits.RecordTransfer, AcceptDeposit;
    if NormalizeAddress(c, claim.recipient).Some?
       && DepositChecks(c, s.bridge, s.policy, s.limits, claim', att).None? {
      CreditGoes(c, s, claim', att, persists);
    }
  }

  // ---- withdrawals --------------------------------------------------------------------------------------------

  /** A withdrawal that this owner may make now, storage permitting. */
  predicate Withdrawable(c: Crypto, s: LedgerState, owner: string, r: WithdrawalRequest) {
    && Trim(owner) != "" && c.validAddress(Trim(owner))
    && r.amount.Some? && r.amount.value > 0
    && Trim(r.recipient) != "" && Lower(Trim(r.recipient)) != "0x0000000000000000000000000000000000000000"
    && r.deadline != 0 && r.signature != ""
    && Open(s.policy, r.assetID)
    && Limits.Room(s.limits, r.assetID, r.amount, s.bridge.currentHeight)
    && Bank.Held(s.bank, Trim(owner), Trim(s.policy.assets[Trim(r.assetID)].denom)) >= r.amount.value
    && !s.bridge.tripped
  }

  lemma WithdrawChecksIff(s: LedgerState, r: WithdrawalRequest)
    requires LedgerInv(s)
    ensures WithdrawChecks(s.bridge, s.policy, s.limits, r).None? <==>
      && r.amount.Some? && r.amount.value > 0 && Trim(r.recipient) != ""
      && Lower(Trim(r.recipient)) != "0x0000000000000000000000000000000000000000"
      && r.deadline != 0 && r.signature != "" && Open(s.policy, r.assetID)
      && Limits.Room(s.limits, r.assetID, r.amount, s.bridge.currentHeight)
  {
    hide Trim, Lower, Limits.CheckTransfer, Limits.Room, LedgerInv, Limits.LimitsInv;
    InvParts(s);
    Limits.CheckExact(s.limits, r.assetID, r.amount, s.bridge.currentHeight);
  }

  /**
    A withdrawal is accepted exactly when it may be made and the wallet can be written, on every ledger whose
    wallets hold no more than the supply, as they do on every run.
   */
  lemma AcceptedWithdrawalIff(c: Crypto, s: LedgerState, owner: string, r: WithdrawalRequest, persists: bool)
    requires LedgerInv(s) && forall d :: Outside(s, d) >= 0
    ensures Withdraw(c, s, owner, r, persists).1.Ok? <==> Withdrawable(c, s, owner, r) && persists
  {
    hide Trim, Lower, Limits.Room, LedgerInv, WithdrawChecks, Withdraw, Outside, Bank.Held, SupplyCovers;
    WithdrawChecksIff(s, r);
    InvParts(s);
    if WithdrawChecks(s.bridge, s.policy, s.limits, r).None? && NormalizeAddress(c, owner).Some? {
      if Withdrawable(c, s, owner, r) { HolderIsServed(c, s, owner, r, persists); }
    }
    if Withdraw(c, s, owner, r, persists).1.Ok? { AcceptedHolds(c, s, owner, r, persists); }
  }

  lemma AcceptedHolds(c: Crypto, s: LedgerState, owner: string, r: WithdrawalRequest, persists: bool)
    requires LedgerInv(s) && Withdraw(c, s, owner, r, persists).1.Ok?
    ensures NormalizeAddress(c, owner).Some? && WithdrawChecks(s.bridge, s.policy, s.limits, r).None?
    ensures r.amount.Some? && Trim(r.assetID) in s.policy.assets && SupplyCovers(s.bridge, s.policy, r)
    ensures Bank.DebitError(s.bank, Trim(owner), s.policy.assets[Trim(r.assetID)].denom, r.amount, persists).None?
    ensures Bank.Held(s.bank, Trim(owner), Trim(s.policy.assets[Trim(r.assetID)].denom)) >= r.amount.value && persists
  {
    TrimTwice(owner);
    WithdrawAccepted(c, s, owner, r, persists);
    hide Trim, Lower, LedgerInv, WithdrawChecks, Withdraw, SupplyCovers, Bank.Held, Bank.DebitError, Bank.BankInv;
    InvParts(s);
    Bank.DebitIff(s.bank, Trim(owner), s.policy.assets[Trim(r.assetID)].denom, r.amount, persists);
  }

  /** What went before an accepted withdrawal, and the state it leaves. */
  lemma WithdrawAccepted(c: Crypto, s: LedgerState, owner: string, r: WithdrawalRequest, persists: bool)
    requires Withdraw(c, s, owner, r, persists).1.Ok?
    ensures NormalizeAddress(c, owner).Some? && WithdrawChecks(s.bridge, s.policy, s.limits, r).None?
    ensures r.amount.Some? && Trim(r.assetID) in s.policy.assets && SupplyCovers(s.bridge, s.policy, r)
    ensures Bank.DebitError(s.bank, Trim(owner), s.policy.assets[Trim(r.assetID)].denom, r.amount, persists).None?
    ensures Withdraw(c, s, owner, r, persists).1.value == NewRecord(c, s.bridge, s.policy, r)
    ensures Withdraw(c, s, owner, r, persists).0 == s.(
      bridge := AcceptWithdrawal(c, s.bridge, s.policy, r),
      limits := Limits.RecordTransfer(s.limits, r.assetID, r.amount, s.bridge.currentHeight),
      bank := Bank.Debited(s.bank, Trim(owner), s.policy.assets[Trim(r.assetID)].denom, r.amount))
  {
    hide Trim, Lower, AuditPasses, Bank.DebitError, Bank.Debited, Limits.CheckTransfer, Limits.RecordTransfer,
         NewRecord, AcceptWithdrawal, SupplyCovers;
  }

  /** Where the released asset lives on Ethereum. */
  predicate LivesAt(a: Registry.Asset, address: string) {
    if Trim(a.sourceAssetAddress) != "" then address == Trim(a.sourceAssetAddress)
    else if Trim(a.sourceContract) != "" then address == Trim(a.sourceContract)
    else if a.sourceAssetKind == "native_eth" then address == "0x0000000000000000000000000000000000000000"
    else address == ""
  }

  /** The record of a withdrawal: every field is what was asked for, or where and when it was asked. */
  predicate RecordOf(c: Crypto, s: LedgerState, r: WithdrawalRequest, w: WithdrawalRecord) {
    && w.blockHeight == s.bridge.currentHeight
    && w.assetID == Trim(r.assetID) && w.assetID in s.policy.assets
    && LivesAt(s.policy.assets[w.assetID], w.assetAddress)
    && r.amount == Some(w.amount) && w.amount > 0
    && w.recipient == Trim(r.recipient) && w.deadline == r.deadline && w.signature == r.signature
    && w.identity.kind == "withdrawal" && w.identity.sourceAssetKind == ""
    && w.identity.sourceChainID == "aegislink-1" && w.identity.sourceContract == "aegislink.bridge"
    && w.identity.sourceTxHash == "0x" + c.sha256Hex(
         Dec(s.bridge.currentHeight) + ":" + Dec(s.bridge.nextNonce) + ":" + r.assetID + ":" + Trim(r.recipient) + ":"
           + Render(w.amount))
    && w.identity.sourceLogIndex == 0 && w.identity.nonce == s.bridge.nextNonce
    && w.identity.messageID == DerivedMessageID(c, w.identity)
  }

  lemma RecordExact(c: Crypto, s: LedgerState, r: WithdrawalRequest)
    requires Trim(r.assetID) in s.policy.assets && r.amount.Some? && r.amount.value > 0
    ensures RecordOf(c, s, r, NewRecord(c, s.bridge, s.policy, r))
  {
    AddressTrimmed(s.policy.assets[Trim(r.assetID)]);
    hide Trim, Dec, Render, IdentityBytes, LivesAt, AssetAddress;
    var w := NewRecord(c, s.bridge, s.policy, r);
    IgnoresMessageID(w.identity.(messageID := ""), w.identity.messageID);
  }

  lemma AddressTrimmed(a: Registry.Asset)
    ensures LivesAt(a, Trim(AssetAddress(a)))
  {
    TrimTwice(a.sourceAssetAddress);
    TrimTwice(a.sourceContract);
    SolidEndsTrim(ZERO_ADDRESS);
    assert Trim("") == "";
    hide Trim;
  }

  lemma IgnoresMessageID(id: ClaimIdentity, messageID: string)
    ensures IdentityBytes(id.(messageID := messageID)) == IdentityBytes(id)
  {
    hide StringThen, Uint64Then, CanonicalAssetKind;
  }

  /** Nothing of the bridge but the nonce, the supply and the list of withdrawals has changed. */
  predicate OnlyBurns(b: BridgeState, b': BridgeState) {
    b' == b.(nextNonce := (b.nextNonce + 1) % TWO_64, supply := b'.supply, withdrawals := b'.withdrawals)
  }

  /**
    An accepted withdrawal: one record more, which is the answer and says all that was asked; that much supply and
    that much in the owner's wallet less, that much of the limit used, the nonce one on, and nothing else.
   */
  lemma WithdrawalEffect(c: Crypto, s: LedgerState, owner: string, r: WithdrawalRequest, persists: bool)
    requires LedgerInv(s) && Withdraw(c, s, owner, r, persists).1.Ok?
    ensures var (t, res) := Withdraw(c, s, owner, r, persists);
      var w := res.value;
      && RecordOf(c, s, r, w) && t.bridge.withdrawals == s.bridge.withdrawals + [w]
      && OnlyBurns(s.bridge, t.bridge) && t.policy == s.policy && t.pending == s.pending
      && var denom := Trim(s.policy.assets[w.assetID].denom);
      && (forall d :: SupplyOf(t.bridge.supply, d) == SupplyOf(s.bridge.supply, d) - if d == denom then w.amount else 0)
      && (forall a, d :: Bank.Held(t.bank, a, d)
            == Bank.Held(s.bank, a, d) - if a == Trim(owner) && d == denom then w.amount else 0)
      && w.assetID in s.limits.limits
      && Limits.Spends(s.limits, t.limits, r.assetID, w.amount, s.bridge.currentHeight)
  {
    hide Trim, Lower, LedgerInv, WithdrawChecks, Withdraw, Limits.Spends, Limits.RecordTransfer, Bank.Debited,
         Bank.DebitError, Bank.Held, RecordOf, NewRecord, Limits.LimitsInv, SupplyOf, AcceptWithdrawal, SupplyCovers;
    WithdrawAccepted(c, s, owner, r, persists);
    InvParts(s);
    WithdrawChecksIff(s, r);
    TrimTwice(owner);
    RecordExact(c, s, r);
    AcceptedHolds(c, s, owner, r, persists);
    Limits.CheckExact(s.limits, r.assetID, r.amount, s.bridge.currentHeight);
    Limits.RecordExact(s.limits, r.assetID, r.amount, s.bridge.currentHeight);
    BurnExact(c, s, r);
    DebitExact(s, owner, r);
    RecordSays(c, s, r, NewRecord(c, s.bridge, s.policy, r));
    hide OnlyBurns;
  }

  lemma RecordSays(c: Crypto, s: LedgerState, r: WithdrawalRequest, w: WithdrawalRecord)
    requires RecordOf(c, s, r, w)
    ensures w.assetID == Trim(r.assetID) && w.assetID in s.policy.assets && r.amount == Some(w.amount)
  {
  }

  lemma BurnExact(c: Crypto, s: LedgerState, r: WithdrawalRequest)
    requires Registry.RegistryInv(s.policy.assets) && Trim(r.assetID) in s.policy.assets && r.amount.Some?
    requires SupplyCovers(s.bridge, s.policy, r)
    ensures var b := AcceptWithdrawal(c, s.bridge, s.policy, r);
      var denom := Trim(s.policy.assets[Trim(r.assetID)].denom);
      && OnlyBurns(s.bridge, b) && b.withdrawals == s.bridge.withdrawals + [NewRecord(c, s.bridge, s.policy, r)]
      && (forall d :: SupplyOf(b.supply, d) == SupplyOf(s.bridge.supply, d) - if d == denom then r.amount.value else 0)
  {
    hide Trim, NewRecord, Registry.RegistryInv, Registry.BridgeDenom;
    Registry.BridgeAndBankAgree(s.policy.assets, Trim(r.assetID));
  }

  lemma DebitExact(s: LedgerState, owner: string, r: WithdrawalRequest)
    requires Trim(r.assetID) in s.policy.assets && r.amount.Some?
    requires Bank.DebitError(s.bank, Trim(owner), s.policy.assets[Trim(r.assetID)].denom, r.amount, true).None?
    ensures var denom := s.policy.assets[Trim(r.assetID)].denom;
      forall a, d :: Bank.Held(Bank.Debited(s.bank, Trim(owner), denom, r.amount), a, d)
        == Bank.Held(s.bank, a, d) - if a == Trim(owner) && d == Trim(denom) then r.amount.value else 0
  {
    TrimTwice(owner);
    hide Trim, Bank.Debited, Bank.DebitError, Bank.Held;
    var denom := s.policy.assets[Trim(r.assetID)].denom;
    forall a, d ensures Bank.Held(Bank.Debited(s.bank, Trim(owner), denom, r.amount), a, d)
      == Bank.Held(s.bank, a, d) - if a == Trim(owner) && d == Trim(denom) then r.amount.value else 0 {
      Bank.DebitTakes(s.bank, Trim(owner), denom, r.amount.value, a, d);
    }
  }

  /**
    A refused withdrawal moves no supply, wallet, record or asset. It leaves no trace at all, but that a short
    supply has used the limit, and that a refusal by the bank lifts a wrapped nonce to one.
   */
  lemma RefusedWithdrawal(c: Crypto, s: LedgerState, owner: string, r: WithdrawalRequest, persists: bool)
    requires LedgerInv(s) && Withdraw(c, s, owner, r, persists).1.Err?
    ensures var (t, res) := Withdraw(c, s, owner, r, persists);
      && t == s.(bridge := t.bridge, limits := t.limits)
      && t.bridge == s.bridge.(nextNonce := t.bridge.nextNonce)
      && t.bridge.nextNonce == (if res.error.BankRefused? && s.bridge.nextNonce == 0 then 1 else s.bridge.nextNonce)
      && (res.error != BridgeRefused(InsufficientSupply) ==> t.limits == s.limits)
      && (res.error.InvalidAddress? <==> Trim(owner) == "" || !c.validAddress(Trim(owner)))
  {
    hide Trim, LedgerInv, Withdraw, Refusal;
    RefusalsAre(c, s, owner, r, persists);
    RefusalMoves(c, s, owner, Withdraw(c, s, owner, r, persists).0, Withdraw(c, s, owner, r, persists).1.error);
  }

  lemma RefusalMoves(c: Crypto, s: LedgerState, owner: string, t: LedgerState, e: AppError)
    requires Refusal(c, s, owner, t, e)
    ensures t == s.(bridge := t.bridge, limits := t.limits)
    ensures t.bridge == s.bridge.(nextNonce := t.bridge.nextNonce)
    ensures t.bridge.nextNonce == if e.BankRefused? && s.bridge.nextNonce == 0 then 1 else s.bridge.nextNonce
    ensures e != BridgeRefused(InsufficientSupply) ==> t.limits == s.limits
    ensures e.InvalidAddress? <==> Trim(owner) == "" || !c.validAddress(Trim(owner))
  {
    RolledBackIs(s.bridge);
    hide Trim, RolledBack;
  }

  /** The states a refused withdrawal can leave. */
  predicate Refusal(c: Crypto, s: LedgerState, owner: string, t: LedgerState, e: AppError) {
    match e
    case InvalidAddress => t == s && NormalizeAddress(c, owner).None?
    case BankRefused(_) => t == s.(bridge := RolledBack(s.bridge)) && NormalizeAddress(c, owner).Some?
    case BridgeRefused(why) =>
      && NormalizeAddress(c, owner).Some?
      && (t == s || (why == InsufficientSupply && t == s.(limits := t.limits)))
    case _ => false
  }

  lemma RefusalsAre(c: Crypto, s: LedgerState, owner: string, r: WithdrawalRequest, persists: bool)
    requires LedgerInv(s) && Withdraw(c, s, owner, r, persists).1.Err?
    ensures Refusal(c, s, owner, Withdraw(c, s, owner, r, persists).0, Withdraw(c, s, owner, r, persists).1.error)
  {
    hide Trim, Lower, LedgerInv, WithdrawChecks, SupplyCovers, RolledBack, Withdraw, Refusal, NormalizeAddress,
         Limits.Room;
    WithdrawChecksIff(s, r);
    if NormalizeAddress(c, owner).Some? && WithdrawChecks(s.bridge, s.policy, s.limits, r).None?
       && SupplyCovers(s.bridge, s.policy, r) {
      RefusedByBank(c, s, owner, r, persists);
      RefusedThere(c, s, owner, Withdraw(c, s, owner, r, persists).0, Withdraw(c, s, owner, r, persists).1.error);
    } else {
      RefusedBefore(c, s, owner, r, persists);
    }
  }

  lemma RefusedThere(c: Crypto, s: LedgerState, owner: string, t: LedgerState, e: AppError)
    requires t == s.(bridge := RolledBack(s.bridge)) && e.BankRefused? && NormalizeAddress(c, owner).Some?
    ensures Refusal(c, s, owner, t, e)
  {
    hide RolledBack, NormalizeAddress;
  }

  lemma RefusedBefore(c: Crypto, s: LedgerState, owner: string, r: WithdrawalRequest, persists: bool)
    requires !(NormalizeAddress(c, owner).Some? && WithdrawChecks(s.bridge, s.policy, s.limits, r).None?
               && SupplyCovers(s.bridge, s.policy, r))
    ensures Withdraw(c, s, owner, r, persists).1.Err?
    ensures Refusal(c, s, owner, Withdraw(c, s, owner, r, persists).0, Withdraw(c, s, owner, r, persists).1.error)
  {
    hide Trim, Lower, AuditPasses, WithdrawChecks, Limits.RecordTransfer, AcceptWithdrawal, NewRecord,
         Bank.DebitError, Bank.Debited, SupplyCovers, RolledBack, NormalizeAddress;
  }

  lemma RefusedByBank(c: Crypto, s: LedgerState, owner: string, r: WithdrawalRequest, persists: bool)
    requires LedgerInv(s) && Withdraw(c, s, owner, r, persists).1.Err?
    requires NormalizeAddress(c, owner).Some? && WithdrawChecks(s.bridge, s.policy, s.limits, r).None?
    requires SupplyCovers(s.bridge, s.policy, r)
    ensures var (t, res) := Withdraw(c, s, owner, r, persists);
      t == s.(bridge := RolledBack(s.bridge)) && res.error.BankRefused?
  {
    InvAuditsWithdrawal(c, s, r);
    hide Trim, Lower, LedgerInv, AuditPasses, WithdrawChecks, Limits.RecordTransfer, AcceptWithdrawal, NewRecord,
         Bank.DebitError, Bank.Debited, SupplyCovers, RolledBack, NormalizeAddress;
  }

  lemma RolledBackIs(b: BridgeState)
    ensures RolledBack(b) == b.(nextNonce := if b.nextNonce == 0 then 1 else b.nextNonce)
  {
  }

  /** An asset that is unknown, switched off or paused takes no deposit and lets nothing out. */
  lemma ClosedMovesNothing(c: Crypto, s: LedgerState, claim: DepositClaim, att: Attestation, owner: string,
                           r: WithdrawalRequest, persists: bool)
    requires LedgerInv(s)
    ensures !Open(s.policy, claim.assetID) ==>
      var (t, res) := Submit(c, s, claim, att, persists);
      && t.bank == s.bank && t.bridge.supply == s.bridge.supply && t.bridge.claims == s.bridge.claims
      && t.limits == s.limits && res.Err?
    ensures !Open(s.policy, r.assetID) ==>
      var (t, res) := Withdraw(c, s, owner, r, persists);
      t == s && res.Err?
  {
    hide LedgerInv, Submit, Withdraw, Open, Vouched, Limits.Room, Identified, Trim, WithdrawChecks;
    AcceptedDepositIff(c, s, claim, att, persists);
    if !Open(s.policy, claim.assetID) { RefusedDeposit(c, s, claim, att, persists); }
    if !Open(s.policy, r.assetID) {
      WithdrawChecksIff(s, r);
      ClosedWithdraw(c, s, owner, r, persists);
    }
  }

  lemma ClosedWithdraw(c: Crypto, s: LedgerState, owner: string, r: WithdrawalRequest, persists: bool)
    requires WithdrawChecks(s.bridge, s.policy, s.limits, r).Some?
    ensures Withdraw(c, s, owner, r, persists).0 == s && Withdraw(c, s, owner, r, persists).1.Err?
  {
    hide Trim, WithdrawChecks;
  }

  /** Pausing closes just that asset until it is unpaused, and opens no other; switching works the same way. */
  lemma SwitchesOpen(c: Crypto, s: LedgerState, flow: string, other: string, enabled: bool)
    ensures var t := Step(c, s, DoPause(flow));
      && t == s.(policy := s.policy.(paused := t.policy.paused))
      && (Open(t.policy, other) <==> Open(s.policy, other) && Trim(other) != Trim(flow))
    ensures var t := Step(c, s, DoUnpause(flow));
      && t == s.(policy := s.policy.(paused := t.policy.paused))
      && (Trim(other) != Trim(flow) ==> (Open(t.policy, other) <==> Open(s.policy, other)))
      && (Open(t.policy, flow) <==>
            Trim(flow) != "" && Trim(flow) in s.policy.assets && s.policy.assets[Trim(flow)].enabled)
    ensures var t := Step(c, s, DoSetEnabled(flow, enabled));
      && t == s.(policy := s.policy.(assets := t.policy.assets))
      && (Trim(other) != Trim(flow) ==> (Open(t.policy, other) <==> Open(s.policy, other)))
      && (Open(t.policy, flow) <==>
            enabled && Trim(flow) != "" && Trim(flow) in s.policy.assets && Trim(flow) !in s.policy.paused)
  {
    hide Trim, Registry.SetEnabled, Submit, Withdraw, Queue, Advanced, Limits.PutLimit, Registry.Register, Upsert;
    Registry.SwitchExact(s.policy.assets, flow, enabled);
  }

  // ---- the queue ----------------------------------------------------------------------------------------------

  /** A claim is queued, recipient trimmed, exactly when claim, attestation and recipient are valid. */
  lemma QueueExact(c: Crypto, s: LedgerState, claim: DepositClaim, att: Attestation)
    ensures Queue(c, s, claim, att) ==
      if && Identified(c, claim.identity) && Trim(claim.destinationChainID) != "" && Trim(claim.assetID) != ""
         && claim.amount.Some? && claim.amount.value > 0 && claim.deadline != 0 && ValidAttestation(att)
         && Trim(claim.recipient) != "" && c.validAddress(Trim(claim.recipient))
      then s.(pending := s.pending
        + [QueuedClaim(claim.(recipient := Trim(claim.recipient)), att, s.bridge.currentHeight)])
      else s
  {
    hide Trim, ValidClaim, ValidAttestation, Identified;
    ValidClaimIs(c, claim);
  }

  function Submissions(queue: seq<QueuedClaim>, persists: nat -> bool): (ops: seq<Op>)
    ensures |ops| == |queue|
  {
    seq(|queue|, i requires 0 <= i < |queue| => DoSubmit(queue[i].claim, queue[i].attestation, persists(i)))
  }

  lemma {:induction false} DrainIsRun(c: Crypto, s: LedgerState, queue: seq<QueuedClaim>, persists: nat -> bool)
    ensures Drain(c, s, queue, persists) == Run(c, s, Submissions(queue, persists))
    ensures Drain(c, s, queue, persists).pending == s.pending
    ensures Drain(c, s, queue, persists).bridge.currentHeight == s.bridge.currentHeight
  {
    hide Submit;
    if queue != [] {
      var n := |queue| - 1;
      DrainIsRun(c, s, queue[..n], persists);
      assert Submissions(queue, persists)[..n] == Submissions(queue[..n], persists);
      SubmitLeaves(c, Drain(c, s, queue[..n], persists), queue[n].claim, queue[n].attestation, persists(n));
    }
  }

  lemma SubmitLeaves(c: Crypto, s: LedgerState, claim: DepositClaim, att: Attestation, persists: bool)
    ensures var t := Submit(c, s, claim, att, persists).0;
      t.pending == s.pending && t.bridge.currentHeight == s.bridge.currentHeight
  {
    hide Trim, AuditPasses, DepositChecks, Limits.RecordTransfer, Bank.CreditError, Bank.Credited, Receipt;
  }

  /** A block: one height on, the queue emptied, and its claims submitted first come, first served. */
  lemma BlockExact(c: Crypto, s: LedgerState, persists: nat -> bool)
    ensures var next := s.(bridge := s.bridge.(currentHeight := (s.bridge.currentHeight + 1) % TWO_64), pending := []);
      var t := Advanced(c, s, persists);
      && t == Run(c, next, Submissions(s.pending, persists))
      && t.pending == [] && t.bridge.currentHeight == (s.bridge.currentHeight + 1) % TWO_64
  {
    hide Drain, Run;
    DrainIsRun(c, NextBlock(s), s.pending, persists);
  }

  // ---- every mint of a run ------------------------------------------------------------------------------------

  ghost predicate WasMintable(c: Crypto, a: M.Acceptance) {
    Mintable(c, a.before, a.claim, a.att)
  }

  lemma SubmitMintable(c: Crypto, s: LedgerState, claim: DepositClaim, att: Attestation, persists: bool)
    requires LedgerInv(s)
    ensures forall a | a in M.BySubmit(c, s, claim, att, persists) :: WasMintable(c, a)
  {
    hide Mintable, Submit, LedgerInv, Trim;
    AcceptedDepositIff(c, s, claim, att, persists);
    MintableTrimmed(c, s, claim, att);
  }

  lemma {:induction false} DrainMintable(c: Crypto, s: LedgerState, queue: seq<QueuedClaim>, persists: nat -> bool)
    requires LedgerInv(s)
    ensures forall a | a in M.ByDrain(c, s, queue, persists) :: WasMintable(c, a)
  {
    hide WasMintable, LedgerInv, M.BySubmit, Submit;
    if queue != [] {
      var n := |queue| - 1;
      DrainMintable(c, s, queue[..n], persists);
      DrainKeepsInv(c, s, queue[..n], persists);
      SubmitMintable(c, Drain(c, s, queue[..n], persists), queue[n].claim, queue[n].attestation, persists(n));
    }
  }

  /** Whatever a run mints, directly or out of the queue, was mintable at that moment, in every respect. */
  lemma {:induction false} EveryMintMintable(c: Crypto, s: LedgerState, ops: seq<Op>)
    requires LedgerInv(s)
    ensures forall a | a in M.ByRun(c, s, ops) :: WasMintable(c, a)
  {
    hide WasMintable, LedgerInv, M.BySubmit, M.ByDrain, Step, NextBlock;
    if ops != [] {
      var n := |ops| - 1;
      EveryMintMintable(c, s, ops[..n]);
      RunKeepsInv(c, s, ops[..n]);
      var before := Run(c, s, ops[..n]);
      match ops[n] {
        case DoSubmit(claim, att, persists) => SubmitMintable(c, before, claim, att, persists);
        case DoAdvance(oracle) =>
          NextBlockKeeps(before);
          DrainMintable(c, NextBlock(before), before.pending, oracle);
        case _ =>
      }
    }
  }

  lemma NextBlockKeeps(s: LedgerState)
    requires LedgerInv(s)
    ensures LedgerInv(NextBlock(s))
  {
    hide LedgerInv;
    HeightKeepsInv(s, NextBlock(s));
  }

  /** The number a block reports is the number of claims it accepted. */
  lemma {:induction false} AppliedExact(c: Crypto, s: LedgerState, queue: seq<QueuedClaim>, persists: nat -> bool)
    ensures Applied(c, s, queue, persists) == |M.ByDrain(c, s, queue, persists)|
  {
    hide Submit;
    if queue != [] { AppliedExact(c, s, queue[..|queue| - 1], persists); }
  }

  // ---- reasons ----------------------------------------------------------------------------------------------

  /** The reason given for refusing a deposit is a true one. */
  ghost predicate DepositRefusedFor(c: Crypto, s: LedgerState, claim: DepositClaim, att: Attestation, e: BridgeError) {
    match e
    case CircuitOpen => s.bridge.tripped
    case InvalidClaim => !(Identified(c, claim.identity) && Trim(claim.destinationChainID) != ""
        && Trim(claim.assetID) != "" && claim.amount.Some? && claim.amount.value > 0 && claim.deadline != 0)
    case DuplicateClaim => DerivedMessageID(c, claim.identity) in s.bridge.claims
    case UnknownAsset => Trim(claim.assetID) !in s.policy.assets
    case AssetDisabled => Trim(claim.assetID) in s.policy.assets && !s.policy.assets[Trim(claim.assetID)].enabled
    case AssetPaused => Trim(claim.assetID) in s.policy.paused
    case RateLimited(_) => !Limits.Room(s.limits, claim.assetID, claim.amount, s.bridge.currentHeight)
    case _ => UnverifiedFor(c, s.bridge, claim, att, e)
  }

  lemma DepositReason(c: Crypto, s: LedgerState, claim: DepositClaim, att: Attestation)
    requires LedgerInv(s) && Trim(claim.recipient) != ""
    requires DepositChecks(c, s.bridge, s.policy, s.limits, claim, att).Some?
    ensures DepositRefusedFor(c, s, claim, att, DepositChecks(c, s.bridge, s.policy, s.limits, claim, att).value)
  {
    hide Trim, ValidClaim, VerifyDeposit, Limits.CheckTransfer, Limits.Room, LedgerInv, Identified, UnverifiedFor,
         SetsInv, DepositChecks, DerivedMessageID;
    InvParts(s);
    ValidClaimIs(c, claim);
    Limits.CheckExact(s.limits, claim.assetID, claim.amount, s.bridge.currentHeight);
    DepositErrors(c, s, claim, att);
    if VerifyDeposit(c, s.bridge, claim, att).Some? {
      UnverifiedReason(c, s.bridge, claim, att);
      OnlyVerifyErrors(c, s.bridge, claim, att);
    }
  }

  lemma DepositErrors(c: Crypto, s: LedgerState, claim: DepositClaim, att: Attestation)
    ensures var key := Trim(claim.assetID);
      match DepositChecks(c, s.bridge, s.policy, s.limits, claim, att)
      case None => true
      case Some(CircuitOpen) => s.bridge.tripped
      case Some(InvalidClaim) =>
        !ValidClaim(c, claim) || VerifyDeposit(c, s.bridge, claim, att) == Some(InvalidClaim)
      case Some(DuplicateClaim) =>
        DerivedMessageID(c, claim.identity) in s.bridge.claims
        || VerifyDeposit(c, s.bridge, claim, att) == Some(DuplicateClaim)
      case Some(e) =>
        || VerifyDeposit(c, s.bridge, claim, att) == Some(e)
        || (e.UnknownAsset? && key !in s.policy.assets)
        || (e.AssetDisabled? && key in s.policy.assets && !s.policy.assets[key].enabled)
        || (e.AssetPaused? && key in s.policy.paused)
        || (e.RateLimited? && Limits.CheckTransfer(s.limits, claim.assetID, claim.amount, s.bridge.currentHeight).Some?)
  {
    hide Trim, ValidClaim, VerifyDeposit, Limits.CheckTransfer, DerivedMessageID;
    if VerifyDeposit(c, s.bridge, claim, att).Some? { OnlyVerifyErrors(c, s.bridge, claim, att); }
  }

  lemma OnlyVerifyErrors(c: Crypto, b: BridgeState, claim: DepositClaim, att: Attestation)
    requires VerifyDeposit(c, b, claim, att).Some?
    ensures var e := VerifyDeposit(c, b, claim, att).value;
      && !e.CircuitOpen? && !e.InvalidClaim? && !e.DuplicateClaim? && !e.UnknownAsset? && !e.AssetDisabled?
      && !e.AssetPaused? && !e.RateLimited?
  {
    hide ValidAttestation, Digest, Verified, Allowed, ActiveSet, AttestationPayload;
  }

  /** And so is the one for refusing a withdrawal before it touches the supply. */
  lemma WithdrawReason(s: LedgerState, r: WithdrawalRequest)
    requires LedgerInv(s) && WithdrawChecks(s.bridge, s.policy, s.limits, r).Some?
    ensures var key := Trim(r.assetID);
      match WithdrawChecks(s.bridge, s.policy, s.limits, r).value
      case CircuitOpen => s.bridge.tripped
      case InvalidWithdrawal =>
        || r.amount.None? || r.amount.value <= 0 || key == "" || Trim(r.recipient) == ""
        || Lower(Trim(r.recipient)) == "0x0000000000000000000000000000000000000000"
        || r.deadline == 0 || r.signature == ""
      case UnknownAsset => key !in s.policy.assets
      case AssetDisabled => key in s.policy.assets && !s.policy.assets[key].enabled
      case AssetPaused => key in s.policy.paused
      case RateLimited(_) => !Limits.Room(s.limits, r.assetID, r.amount, s.bridge.currentHeight)
      case _ => false
  {
    hide Trim, Lower, Limits.CheckTransfer, Limits.Room, LedgerInv;
    InvParts(s);
    Limits.CheckExact(s.limits, r.assetID, r.amount, s.bridge.currentHeight);
  }
}
