/** The bridge keeper: deposit claims, withdrawals, represented supply and the accounting audit. */
module Bridge {
  import opened Base
  import opened Text
  import opened Sums
  import opened Canonical
  import opened Attestations
  import opened Signers
  import opened Limits
  import opened Listing
  import Registry

  // ---- state -----------------------------------------------------------------------

  datatype ClaimStatus = Accepted | Rejected

  datatype ClaimRecord = ClaimRecord(
    messageID: string, sourceTxHash: string, denom: string, assetID: string, recipient: string,
    amount: int, status: ClaimStatus)

  datatype WithdrawalRecord = WithdrawalRecord(
    blockHeight: U64, identity: ClaimIdentity, assetID: string, assetAddress: string,
    amount: int, recipient: string, deadline: U64, signature: string)

  datatype BridgeState = BridgeState(
    currentHeight: U64,
    nextNonce: U64,
    rejected: U64,
    tripped: bool,
    lastError: string,
    signerSets: SignerSets,
    claims: map<string, ClaimRecord>,
    supply: map<string, int>,
    withdrawals: seq<WithdrawalRecord>)

  datatype AuditFault =
    | MissingAsset(assetID: string)
    | NegativeExpected(assetID: string, denom: string)
    | SupplyMismatch(denom: string, want: int, got: int)
    | MissingSupply(denom: string, want: int)

  datatype BridgeError =
    | CircuitOpen | InvalidClaim | DuplicateClaim
    | InvalidAttestation | MessageIDMismatch | PayloadHashMismatch | FinalityWindowExpired | AttestationExpired
    | SignerSetInactive | SignerSetVersionMismatch | InsufficientQuorum
    | UnknownAsset | AssetDisabled | AssetPaused | RateLimited(limit: LimitsError)
    | InvalidWithdrawal | InsufficientSupply
    | InvariantBroken(fault: AuditFault)

  datatype ClaimResult = ClaimResult(messageID: string, denom: string, amount: int)

  /** What the keeper reads from the registry and the pauser. */
  datatype Policy = Policy(assets: Registry.Assets, paused: set<string>)

  predicate Paused(p: Policy, flow: string) {
    Trim(flow) != "" && Trim(flow) in p.paused
  }

  // ---- claims --------------------------------------------------------------------------

  function DerivedMessageID(c: Crypto, id: ClaimIdentity): string {
    c.sha256Hex(IdentityBytes(id))
  }

  function Digest(c: Crypto, claim: DepositClaim): string {
    c.sha256Hex(ClaimBytes(claim))
  }

  predicate ValidIdentity(c: Crypto, id: ClaimIdentity) {
    var kind := Trim(id.sourceAssetKind);
    && (id.kind == KIND_DEPOSIT || id.kind == KIND_WITHDRAWAL)
    && (kind == "" || kind == ASSET_NATIVE_ETH || kind == ASSET_ERC20)
    && Trim(id.sourceChainID) != ""
    && Trim(id.sourceTxHash) != ""
    && (kind == ASSET_NATIVE_ETH || Trim(id.sourceContract) != "")
    && Trim(id.messageID) != ""
    && id.messageID == DerivedMessageID(c, id)
  }

  predicate ValidClaim(c: Crypto, claim: DepositClaim) {
    && claim.identity.kind == KIND_DEPOSIT
    && ValidIdentity(c, claim.identity)
    && Trim(claim.destinationChainID) != ""
    && Trim(claim.assetID) != ""
    && Positive(claim.amount)
    && Trim(claim.recipient) != ""
    && claim.deadline != 0
  }

  // ---- attestation checks -----------------------------------------------------------------

  ghost function VerifyDeposit(c: Crypto, b: BridgeState, claim: DepositClaim, att: Attestation): Option<BridgeError> {
    if !ValidAttestation(att) then Some(InvalidAttestation)
    else if claim.identity.messageID != att.messageID then Some(MessageIDMismatch)
    else if Digest(c, claim) != att.payloadHash then Some(PayloadHashMismatch)
    else if b.currentHeight > claim.deadline then Some(FinalityWindowExpired)
    else if b.currentHeight > att.expiry then Some(AttestationExpired)
    else
      var active := ActiveSet(b.signerSets, b.currentHeight);
      if active.None? then Some(SignerSetInactive)
      else if att.signerSetVersion != active.value.version then Some(SignerSetVersionMismatch)
      else if att.threshold < active.value.threshold then Some(InsufficientQuorum)
      else if |Verified(c, att.proofs, c.keccak(AttestationPayload(att)))
        * Allowed(active.value)| < active.value.threshold
        then Some(InsufficientQuorum)
      else None
  }

  /**
    Checked by anyone holding the keeper state: a valid attestation over this very claim, neither of them
    too late, from enough distinct members of the set it names, which is the one active now.
   */
  ghost predicate Vouched(c: Crypto, b: BridgeState, claim: DepositClaim, att: Attestation, set_: SignerSet,
                          members: set<string>) {
    && ValidAttestation(att)
    && att.messageID == claim.identity.messageID
    && att.payloadHash == Digest(c, claim)
    && b.currentHeight <= claim.deadline && b.currentHeight <= att.expiry
    && IsActive(b.signerSets, b.currentHeight, set_)
    && att.signerSetVersion == set_.version && set_.threshold <= att.threshold
    && |members| >= set_.threshold
    && Backers(c, att, set_, members)
  }

  /** Members of the set, each proven by some signature. */
  ghost predicate Backers(c: Crypto, att: Attestation, set_: SignerSet, members: set<string>) {
    && members <= Allowed(set_)
    && forall m | m in members :: exists p | p in att.proofs :: ProvenBy(c, att, p, m)
  }

  /** The proof's signature over the attestation's payload recovers to the member it claims. */
  predicate ProvenBy(c: Crypto, att: Attestation, p: Proof, member: string) {
    && p.signature != ""
    && c.recover(p.signature, c.keccak(AttestationPayload(att))) == Some(member)
    && Normalize(p.signer) == member
  }

  /**
    Every accepted claim was signed, over its own digest and in time, by at least `threshold` distinct members
    of the highest-version signer set active now; duplicates and foreign proofs do not help.
   */
  lemma QuorumSoundness(c: Crypto, b: BridgeState, claim: DepositClaim, att: Attestation)
    returns (active: SignerSet, members: set<string>)
    requires VerifyDeposit(c, b, claim, att).None?
    ensures Vouched(c, b, claim, att, active, members)
  {
    hide Normalize, AttestationPayload, Digest, ValidAttestation;
    active := ActiveSet(b.signerSets, b.currentHeight).value;
    var digest := c.keccak(AttestationPayload(att));
    members := Verified(c, att.proofs, digest) * Allowed(active);
    forall m | m in members ensures exists p | p in att.proofs :: ProvenBy(c, att, p, m) {
      var p :| p in att.proofs && VerifyProof(c, p, digest) == Some(m);
      assert ProvenBy(c, att, p, m);
    }
  }

  /** And the other way round: whatever is so vouched for is verified. */
  lemma QuorumCompleteness(c: Crypto, b: BridgeState, claim: DepositClaim, att: Attestation, active: SignerSet,
                           members: set<string>)
    requires SetsInv(b.signerSets) && Vouched(c, b, claim, att, active, members)
    ensures VerifyDeposit(c, b, claim, att).None?
  {
    VouchedBackers(c, b, claim, att, active, members);
    ActiveSetUnique(b.signerSets, b.currentHeight, active);
    BackersCount(c, att, active, members);
    hide AttestationPayload, Digest, ValidAttestation, Allowed, SetsInv, IsActive, ActiveSet, Verified, Backers;
  }

  lemma VouchedBackers(c: Crypto, b: BridgeState, claim: DepositClaim, att: Attestation, active: SignerSet,
                       members: set<string>)
    requires Vouched(c, b, claim, att, active, members)
    ensures IsActive(b.signerSets, b.currentHeight, active) && Backers(c, att, active, members)
    ensures |members| >= active.threshold
  {
    hide Digest, ValidAttestation, IsActive, Backers;
  }

  /** No set of backers is larger than what the loop counts. */
  lemma BackersCount(c: Crypto, att: Attestation, set_: SignerSet, members: set<string>)
    requires Backers(c, att, set_, members)
    ensures |members| <= |Verified(c, att.proofs, c.keccak(AttestationPayload(att))) * Allowed(set_)|
  {
    hide Normalize, AttestationPayload, Allowed;
    var digest := c.keccak(AttestationPayload(att));
    var verified := Verified(c, att.proofs, digest) * Allowed(set_);
    forall m | m in members ensures m in verified {
      var p :| p in att.proofs && ProvenBy(c, att, p, m);
      assert VerifyProof(c, p, digest) == Some(m);
    }
    SubsetSize(members, verified);
  }

  lemma {:induction false} SubsetSize(a: set<string>, b: set<string>)
    requires a <= b
    ensures |a| <= |b|
  {
    if a != {} {
      var x :| x in a;
      SubsetSize(a - {x}, b - {x});
    }
  }

  lemma VerifiedIff(c: Crypto, b: BridgeState, claim: DepositClaim, att: Attestation)
    requires SetsInv(b.signerSets)
    ensures VerifyDeposit(c, b, claim, att).None? <==>
      exists active, members :: Vouched(c, b, claim, att, active, members)
  {
    hide Vouched, VerifyDeposit, SetsInv;
    if VerifyDeposit(c, b, claim, att).None? { var active, members := QuorumSoundness(c, b, claim, att); }
    if active, members :| Vouched(c, b, claim, att, active, members) {
      QuorumCompleteness(c, b, claim, att, active, members);
    }
  }

  /** The reason given for a refusal is a true one. */
  ghost predicate UnverifiedFor(c: Crypto, b: BridgeState, claim: DepositClaim, att: Attestation, e: BridgeError) {
    match e
    case InvalidAttestation => !ValidAttestation(att)
    case MessageIDMismatch => att.messageID != claim.identity.messageID
    case PayloadHashMismatch => att.payloadHash != Digest(c, claim)
    case FinalityWindowExpired => b.currentHeight > claim.deadline
    case AttestationExpired => b.currentHeight > att.expiry
    case SignerSetInactive => forall s :: !IsActive(b.signerSets, b.currentHeight, s)
    case SignerSetVersionMismatch => forall s | IsActive(b.signerSets, b.currentHeight, s) ::
        att.signerSetVersion != s.version
    case InsufficientQuorum => forall s, members |
        IsActive(b.signerSets, b.currentHeight, s) && Backers(c, att, s, members) ::
        att.threshold < s.threshold || |members| < s.threshold
    case _ => false
  }

  lemma UnverifiedReason(c: Crypto, b: BridgeState, claim: DepositClaim, att: Attestation)
    requires SetsInv(b.signerSets) && VerifyDeposit(c, b, claim, att).Some?
    ensures UnverifiedFor(c, b, claim, att, VerifyDeposit(c, b, claim, att).value)
  {
    hide Normalize, AttestationPayload, Digest, ValidAttestation, Verified, Allowed, SetsInv;
    forall s | IsActive(b.signerSets, b.currentHeight, s)
      ensures ActiveSet(b.signerSets, b.currentHeight) == Some(s)
    {
      ActiveSetUnique(b.signerSets, b.currentHeight, s);
    }
    hide Backers;
    forall s, members | IsActive(b.signerSets, b.currentHeight, s) && Backers(c, att, s, members)
      ensures |members| <= |Verified(c, att.proofs, c.keccak(AttestationPayload(att))) * Allowed(s)|
    {
      BackersCount(c, att, s, members);
    }
  }

  // ---- books -----------------------------------------------------------------------------------

  function SupplyOf(supply: map<string, int>, denom: string): int {
    if denom in supply then supply[denom] else 0
  }

  ghost function AcceptedIn(denom: string): ClaimRecord -> int {
    (r: ClaimRecord) => if r.status == Accepted && r.denom == denom then r.amount else 0
  }

  /** Everything accepted claims ever minted of a denomination. */
  ghost function Claimed(claims: map<string, ClaimRecord>, denom: string): int {
    SumBy(claims, AcceptedIn(denom))
  }

  predicate InDenom(w: WithdrawalRecord, assets: Registry.Assets, denom: string) {
    Trim(w.assetID) in assets && Registry.BridgeDenom(assets[Trim(w.assetID)]) == denom
  }

  /** Everything withdrawals ever burnt of a denomination. */
  function Withdrawn(ws: seq<WithdrawalRecord>, assets: Registry.Assets, denom: string): int {
    if ws == [] then 0
    else
      var w := ws[|ws| - 1];
      Withdrawn(ws[..|ws| - 1], assets, denom) + (if InDenom(w, assets, denom) then w.amount else 0)
  }

  ghost predicate AssetsKnown(ws: seq<WithdrawalRecord>, assets: Registry.Assets) {
    forall w | w in ws :: Trim(w.assetID) in assets
  }

  /** The declarative statement: supply is claims minus withdrawals, and never negative. */
  ghost predicate BooksBalance(b: BridgeState, assets: Registry.Assets) {
    && AssetsKnown(b.withdrawals, assets)
    && forall denom ::
        SupplyOf(b.supply, denom) == Claimed(b.claims, denom) - Withdrawn(b.withdrawals, assets, denom) >= 0
  }

  /** What the audit also looks at on its way: no prefix of the withdrawals overdraws the claims. */
  ghost predicate NeverOverdrawn(b: BridgeState, assets: Registry.Assets) {
    forall i | 0 <= i < |b.withdrawals| :: PrefixCovered(b, assets, i)
  }

  ghost predicate PrefixCovered(b: BridgeState, assets: Registry.Assets, i: nat)
    requires i < |b.withdrawals|
  {
    var key := Trim(b.withdrawals[i].assetID);
    key in assets ==>
      var denom := Registry.BridgeDenom(assets[key]);
      Claimed(b.claims, denom) >= Withdrawn(b.withdrawals[..i + 1], assets, denom)
  }

  ghost predicate AuditPasses(b: BridgeState, assets: Registry.Assets) {
    && AssetsKnown(b.withdrawals, assets)
    && NeverOverdrawn(b, assets)
    && forall denom :: SupplyOf(b.supply, denom) == Claimed(b.claims, denom) - Withdrawn(b.withdrawals, assets, denom)
  }

  ghost predicate AmountsPositive(b: BridgeState) {
    && (forall k | k in b.claims :: b.claims[k].amount > 0)
    && (forall w | w in b.withdrawals :: w.amount > 0)
  }

  lemma {:induction false} WithdrawnGrows(ws: seq<WithdrawalRecord>, assets: Registry.Assets, denom: string, i: nat)
    requires i <= |ws| && forall w | w in ws :: w.amount > 0
    ensures 0 <= Withdrawn(ws[..i], assets, denom) <= Withdrawn(ws, assets, denom)
    decreases |ws|
  {
    if i == |ws| {
      assert ws[..i] == ws;
      if ws != [] {
        WithdrawnGrows(ws[..i - 1], assets, denom, i - 1);
        assert ws[..i - 1][..i - 1] == ws[..i - 1];
        assert ws[i - 1] in ws;
      }
    } else {
      var front := ws[..|ws| - 1];
      WithdrawnGrows(front, assets, denom, i);
      assert front[..i] == ws[..i];
      assert ws[|ws| - 1] in ws;
    }
  }

  /** On positive amounts the audit accepts exactly the states whose books balance. */
  lemma AuditExact(b: BridgeState, assets: Registry.Assets)
    requires AmountsPositive(b)
    ensures AuditPasses(b, assets) <==> BooksBalance(b, assets)
  {
    hide Trim, Registry.BridgeDenom, Claimed, Withdrawn, PrefixCovered;
    if BooksBalance(b, assets) {
      forall i | 0 <= i < |b.withdrawals| ensures PrefixCovered(b, assets, i) {
        BalanceCovers(b, assets, i);
      }
    }
    if AuditPasses(b, assets) {
      forall denom ensures SupplyOf(b.supply, denom) >= 0 {
        LastCovers(b, assets, denom, |b.withdrawals|);
        assert b.withdrawals[..|b.withdrawals|] == b.withdrawals;
      }
    }
  }

  lemma BalanceCovers(b: BridgeState, assets: Registry.Assets, i: nat)
    requires AmountsPositive(b) && BooksBalance(b, assets) && i < |b.withdrawals|
    ensures PrefixCovered(b, assets, i)
  {
    hide Trim, Registry.BridgeDenom, Claimed, Withdrawn;
    var key := Trim(b.withdrawals[i].assetID);
    if key in assets {
      var denom := Registry.BridgeDenom(assets[key]);
      WithdrawnGrows(b.withdrawals, assets, denom, i + 1);
      assert SupplyOf(b.supply, denom) >= 0;
    }
  }

  lemma {:induction false} LastCovers(b: BridgeState, assets: Registry.Assets, denom: string, i: nat)
    requires i <= |b.withdrawals| && AmountsPositive(b) && AuditPasses(b, assets)
    ensures Claimed(b.claims, denom) >= Withdrawn(b.withdrawals[..i], assets, denom)
    decreases i
  {
    if i == 0 {
      SumByNonNegative(b.claims, AcceptedIn(denom));
    } else {
      var w := b.withdrawals[i - 1];
      assert PrefixCovered(b, assets, i - 1);
      LastCovers(b, assets, denom, i - 1);
      assert b.withdrawals[..i][..i - 1] == b.withdrawals[..i - 1];
    }
  }

  lemma NothingClaimed()
    ensures forall d :: Claimed(map[], d) == 0
  {
  }

  /** One claim moves into the expected supplies. */
  lemma TallyClaim(done: map<string, ClaimRecord>, before: map<string, int>, key: string, claim: ClaimRecord,
                   after: map<string, int>)
    requires key !in done && forall d :: SupplyOf(before, d) == Claimed(done, d)
    requires after == if claim.status == Accepted
                      then before[claim.denom := SupplyOf(before, claim.denom) + claim.amount] else before
    ensures forall d :: SupplyOf(after, d) == Claimed(done[key := claim], d)
  {
    forall d ensures SupplyOf(after, d) == Claimed(done[key := claim], d) {
      SumByPut(done, AcceptedIn(d), key, claim);
      assert SupplyOf(before, d) == Claimed(done, d);
    }
  }

  lemma NothingWithdrawn(assets: Registry.Assets)
    ensures forall d :: Withdrawn([], assets, d) == 0
  {
  }

  lemma TakeOne(before: map<string, int>, claims: map<string, ClaimRecord>, ws: seq<WithdrawalRecord>, i: nat,
                assets: Registry.Assets)
    requires i < |ws| && Trim(ws[i].assetID) in assets
    requires forall d :: SupplyOf(before, d) == Claimed(claims, d) - Withdrawn(ws[..i], assets, d)
    ensures var denom := Registry.BridgeDenom(assets[Trim(ws[i].assetID)]);
      var after := before[denom := SupplyOf(before, denom) - ws[i].amount];
      forall d :: SupplyOf(after, d) == Claimed(claims, d) - Withdrawn(ws[..i + 1], assets, d)
  {
    hide Registry.BridgeDenom, Trim, Claimed;
    assert ws[..i + 1][..i] == ws[..i];
    var denom := Registry.BridgeDenom(assets[Trim(ws[i].assetID)]);
    var after := before[denom := SupplyOf(before, denom) - ws[i].amount];
    forall d ensures SupplyOf(after, d) == Claimed(claims, d) - Withdrawn(ws[..i + 1], assets, d) {
      assert SupplyOf(before, d) == Claimed(claims, d) - Withdrawn(ws[..i], assets, d);
    }
  }

  lemma CoveredIff(b: BridgeState, assets: Registry.Assets, i: nat)
    requires i < |b.withdrawals| && Trim(b.withdrawals[i].assetID) in assets
    ensures var denom := Registry.BridgeDenom(assets[Trim(b.withdrawals[i].assetID)]);
      PrefixCovered(b, assets, i) <==> Claimed(b.claims, denom) - Withdrawn(b.withdrawals[..i + 1], assets, denom) >= 0
  {
  }

  /** What a reported fault says about the books. */
  ghost predicate FaultReal(b: BridgeState, assets: Registry.Assets, fault: AuditFault) {
    match fault
    case MissingAsset(assetID) => (exists w | w in b.withdrawals :: w.assetID == assetID) && Trim(assetID) !in assets
    case NegativeExpected(assetID, denom) =>
      exists i | 0 <= i < |b.withdrawals| :: b.withdrawals[i].assetID == assetID && !PrefixCovered(b, assets, i)
    case SupplyMismatch(denom, want, got) =>
      && denom in b.supply && b.supply[denom] == got != want
      && want == Claimed(b.claims, denom) - Withdrawn(b.withdrawals, assets, denom)
    case MissingSupply(denom, want) =>
      denom !in b.supply && want == Claimed(b.claims, denom) - Withdrawn(b.withdrawals, assets, denom) != 0
  }

  function FaultMessage(fault: AuditFault): string {
    "bridge accounting invariant failed: " +
    match fault
    case MissingAsset(assetID) => "missing asset metadata for withdrawal asset " + assetID
    case NegativeExpected(assetID, denom) => "negative expected supply for asset " + assetID + " denom " + denom
    case SupplyMismatch(denom, want, got) => "denom " + denom + " supply mismatch want=" + Render(want) + " got="
      + Render(got)
    case MissingSupply(denom, want) => "denom " + denom + " missing supply entry want=" + Render(want)
  }

  function Trip(b: BridgeState, fault: AuditFault): BridgeState {
    b.(tripped := true, lastError := FaultMessage(fault))
  }

  // ---- deposits -----------------------------------------------------------------------------

  /** Every check before anything is minted, in the order the keeper makes them. */
  ghost function DepositChecks(c: Crypto, b: BridgeState, p: Policy, l: LimitsState, claim: DepositClaim,
                               att: Attestation)
    : Option<BridgeError>
  {
    if b.tripped then Some(CircuitOpen)
    else if !ValidClaim(c, claim) then Some(InvalidClaim)
    else if DerivedMessageID(c, claim.identity) in b.claims then Some(DuplicateClaim)
    else if VerifyDeposit(c, b, claim, att).Some? then VerifyDeposit(c, b, claim, att)
    else if Trim(claim.assetID) !in p.assets then Some(UnknownAsset)
    else if !p.assets[Trim(claim.assetID)].enabled then Some(AssetDisabled)
    else if Paused(p, claim.assetID) then Some(AssetPaused)
    else if CheckTransfer(l, claim.assetID, claim.amount, b.currentHeight).Some?
      then Some(RateLimited(CheckTransfer(l, claim.assetID, claim.amount, b.currentHeight).value))
    else None
  }

  /** `acceptDepositClaim`: mint the representation and record the claim. */
  function AcceptDeposit(c: Crypto, b: BridgeState, p: Policy, claim: DepositClaim): BridgeState
    requires Trim(claim.assetID) in p.assets && claim.amount.Some?
  {
    var denom := Registry.BridgeDenom(p.assets[Trim(claim.assetID)]);
    b.(supply := b.supply[denom := SupplyOf(b.supply, denom) + claim.amount.value],
       claims := b.claims[DerivedMessageID(c, claim.identity) := ClaimRecord(
         claim.identity.messageID, claim.identity.sourceTxHash, denom, claim.assetID, claim.recipient,
         claim.amount.value, Accepted)])
  }

  function Receipt(p: Policy, claim: DepositClaim): ClaimResult
    requires Trim(claim.assetID) in p.assets && claim.amount.Some?
  {
    ClaimResult(claim.identity.messageID, Registry.BridgeDenom(p.assets[Trim(claim.assetID)]), claim.amount.value)
  }

  function Reject(b: BridgeState): BridgeState {
    b.(rejected := Add64(b.rejected, 1))
  }

  // ---- withdrawals ------------------------------------------------------------------------------

  datatype WithdrawalRequest = WithdrawalRequest(
    assetID: string, amount: BigInt, recipient: string, deadline: U64, signature: string)

  const ZERO_ADDRESS := "0x0000000000000000000000000000000000000000"
  const WITHDRAWAL_CHAIN := "aegislink-1"
  const WITHDRAWAL_MODULE := "aegislink.bridge"

  predicate ValidWithdrawal(r: WithdrawalRequest) {
    && Positive(r.amount)
    && Trim(r.assetID) != ""
    && Trim(r.recipient) != ""
    && Lower(Trim(r.recipient)) != ZERO_ADDRESS
    && r.deadline != 0
    && r.signature != ""
  }

  /** Checks before rate-limit usage is consumed. */
  function WithdrawChecks(b: BridgeState, p: Policy, l: LimitsState, r: WithdrawalRequest): Option<BridgeError> {
    if b.tripped then Some(CircuitOpen)
    else if !ValidWithdrawal(r) then Some(InvalidWithdrawal)
    else if Trim(r.assetID) !in p.assets then Some(UnknownAsset)
    else if !p.assets[Trim(r.assetID)].enabled then Some(AssetDisabled)
    else if Paused(p, r.assetID) then Some(AssetPaused)
    else if CheckTransfer(l, r.assetID, r.amount, b.currentHeight).Some?
      then Some(RateLimited(CheckTransfer(l, r.assetID, r.amount, b.currentHeight).value))
    else None
  }

  predicate SupplyCovers(b: BridgeState, p: Policy, r: WithdrawalRequest)
    requires Trim(r.assetID) in p.assets && r.amount.Some?
  {
    var denom := Registry.BridgeDenom(p.assets[Trim(r.assetID)]);
    denom in b.supply && b.supply[denom] >= r.amount.value
  }

  function AssetAddress(a: Registry.Asset): string {
    if Trim(a.sourceAssetAddress) != "" then Trim(a.sourceAssetAddress)
    else if Trim(a.sourceContract) != "" then Trim(a.sourceContract)
    else if a.sourceAssetKind == Registry.NATIVE_ETH then ZERO_ADDRESS
    else ""
  }

  function NewRecord(c: Crypto, b: BridgeState, p: Policy, r: WithdrawalRequest): WithdrawalRecord
    requires Trim(r.assetID) in p.assets && r.amount.Some?
  {
    var txHash := "0x" + c.sha256Hex(
      Dec(b.currentHeight) + ":" + Dec(b.nextNonce) + ":" + r.assetID + ":" + Trim(r.recipient) + ":"
        + Render(r.amount.value));
    var id := ClaimIdentity(KIND_WITHDRAWAL, "", WITHDRAWAL_CHAIN, WITHDRAWAL_MODULE, txHash, 0, b.nextNonce, "");
    WithdrawalRecord(
      b.currentHeight, id.(messageID := DerivedMessageID(c, id)), Trim(r.assetID),
      Trim(AssetAddress(p.assets[Trim(r.assetID)])), r.amount.value, Trim(r.recipient), r.deadline, r.signature)
  }

  /** Burn the representation and append the record. */
  function AcceptWithdrawal(c: Crypto, b: BridgeState, p: Policy, r: WithdrawalRequest): BridgeState
    requires Trim(r.assetID) in p.assets && r.amount.Some? && SupplyCovers(b, p, r)
  {
    var denom := Registry.BridgeDenom(p.assets[Trim(r.assetID)]);
    b.(nextNonce := Add64(b.nextNonce, 1),
       supply := b.supply[denom := b.supply[denom] - r.amount.value],
       withdrawals := b.withdrawals + [NewRecord(c, b, p, r)])
  }

  // ---- the keepers -----------------------------------------------------------------------------------

  class PauserKeeper {
    var paused: set<string>

    constructor ()
      ensures paused == {}
    {
      paused := {};
    }

    method Pause(flow: string) returns (ok: bool)
      modifies this
      ensures ok == (Trim(flow) != "")
      ensures paused == old(paused) + (if ok then {Trim(flow)} else {})
    {
      ok := Trim(flow) != "";
      if ok { paused := paused + {Trim(flow)}; }
    }

    method Unpause(flow: string) returns (ok: bool)
      modifies this
      ensures ok == (Trim(flow) != "")
      ensures paused == old(paused) - (if ok then {Trim(flow)} else {})
    {
      ok := Trim(flow) != "";
      if ok { paused := paused - {Trim(flow)}; }
    }
  }

  class BridgeKeeper {
    const crypto: Crypto
    const registryKeeper: Registry.RegistryKeeper
    const limitsKeeper: LimitsKeeper
    const pauserKeeper: PauserKeeper

    var currentHeight: U64
    var nextWithdrawalNonce: U64
    var rejectedClaims: U64
    var circuitBreakerTripped: bool
    var lastInvariantError: string
    var signerSets: SignerSets
    var processedClaims: map<string, ClaimRecord>
    var supplyByDenom: map<string, int>
    var withdrawals: seq<WithdrawalRecord>

    constructor (crypto: Crypto, registry: Registry.RegistryKeeper, limits: LimitsKeeper, pauser: PauserKeeper,
                 allowedSigners: seq<string>, requiredThreshold: U32)
      ensures this.crypto == crypto && registryKeeper == registry && limitsKeeper == limits && pauserKeeper == pauser
      ensures State() == Genesis(allowedSigners, requiredThreshold)
    {
      this.crypto := crypto;
      registryKeeper, limitsKeeper, pauserKeeper := registry, limits, pauser;
      currentHeight, nextWithdrawalNonce, rejectedClaims := 0, 1, 0;
      circuitBreakerTripped, lastInvariantError := false, "";
      signerSets := map[1 :=
        NormalizeSet(SignerSet(1, allowedSigners, if requiredThreshold == 0 then 1 else requiredThreshold, 0, 0))];
      processedClaims, supplyByDenom, withdrawals := map[], map[], [];
    }

    ghost function State(): BridgeState
      reads this
    {
      BridgeState(currentHeight, nextWithdrawalNonce, rejectedClaims, circuitBreakerTripped, lastInvariantError,
                  signerSets, processedClaims, supplyByDenom, withdrawals)
    }

    ghost function CurrentPolicy(): Policy
      reads registryKeeper, pauserKeeper
    {
      Policy(registryKeeper.assets, pauserKeeper.paused)
    }

    method SetCurrentHeight(height: U64)
      modifies this
      ensures State() == old(State()).(currentHeight := height)
    {
      currentHeight := height;
    }

    /**
      The audit: fold claims and withdrawals into expected supplies, then compare and delete. Maps
      are visited in any order. A fault trips the circuit breaker.
     */
    method CheckAccountingInvariant() returns (fault: Option<AuditFault>)
      modifies this`circuitBreakerTripped, this`lastInvariantError
      ensures fault.None? <==> old(AuditPasses(State(), registryKeeper.assets))
      ensures fault.Some? ==> old(FaultReal(State(), registryKeeper.assets, fault.value))
      ensures State() == if fault.None? then old(State()) else Trip(old(State()), fault.value)
    {
      var assets := registryKeeper.assets;
      ghost var b := State();
      var expected := ExpectedFromClaims();
      fault, expected := SubtractWithdrawals(expected);
      if fault.None? {
        fault := CompareSupply(expected);
      }
      if fault.Some? {
        circuitBreakerTripped := true;
        lastInvariantError := FaultMessage(fault.value);
      }
    }

    method ExpectedFromClaims() returns (expected: map<string, int>)
      ensures forall d :: SupplyOf(expected, d) == Claimed(processedClaims, d)
    {
      hide Claimed;
      expected := map[];
      var todo := processedClaims.Keys;
      NothingClaimed();
      assert processedClaims - todo == map[];
      while todo != {}
        invariant todo <= processedClaims.Keys
        invariant forall d :: SupplyOf(expected, d) == Claimed(processedClaims - todo, d)
        decreases |todo|
      {
        var key :| key in todo;
        var claim := processedClaims[key];
        ghost var done, before := processedClaims - todo, expected;
        todo := todo - {key};
        assert processedClaims - todo == done[key := claim];
        if claim.status == Accepted {
          if claim.denom !in expected {
            expected := expected[claim.denom := 0];
          }
          expected := expected[claim.denom := expected[claim.denom] + claim.amount];
        }
        TallyClaim(done, before, key, claim, expected);
      }
      assert processedClaims - {} == processedClaims;
    }

    method SubtractWithdrawals(claimed: map<string, int>)
      returns (fault: Option<AuditFault>, expected: map<string, int>)
      requires forall d :: SupplyOf(claimed, d) == Claimed(processedClaims, d)
      ensures fault.None? <==>
        AssetsKnown(withdrawals, registryKeeper.assets) && NeverOverdrawn(State(), registryKeeper.assets)
      ensures fault.Some? ==> FaultReal(State(), registryKeeper.assets, fault.value)
      ensures fault.None? ==> forall d ::
        SupplyOf(expected, d) == Claimed(processedClaims, d) - Withdrawn(withdrawals, registryKeeper.assets, d)
    {
      hide Registry.BridgeDenom, Trim, Claimed, Withdrawn, PrefixCovered;
      var assets := registryKeeper.assets;
      expected := claimed;
      NothingWithdrawn(assets);
      var i := 0;
      while i < |withdrawals|
        invariant 0 <= i <= |withdrawals|
        invariant forall j | 0 <= j < i :: Trim(withdrawals[j].assetID) in assets && PrefixCovered(State(), assets, j)
        invariant forall d ::
          SupplyOf(expected, d) == Claimed(processedClaims, d) - Withdrawn(withdrawals[..i], assets, d)
      {
        var w := withdrawals[i];
        var key := Trim(w.assetID);
        if key !in assets {
          assert w in withdrawals;
          return Some(MissingAsset(w.assetID)), expected;
        }
        var denom := Registry.BridgeDenom(assets[key]);
        ghost var before := expected;
        if denom !in expected {
          expected := expected[denom := 0];
        }
        expected := expected[denom := expected[denom] - w.amount];
        assert expected == before[denom := SupplyOf(before, denom) - w.amount];
        TakeOne(before, processedClaims, withdrawals, i, assets);
        assert SupplyOf(expected, denom) == expected[denom];
        CoveredIff(State(), assets, i);
        if expected[denom] < 0 {
          return Some(NegativeExpected(w.assetID, denom)), expected;
        }
        i := i + 1;
      }
      assert withdrawals[..i] == withdrawals;
      fault := None;
    }

    method CompareSupply(totals: map<string, int>) returns (fault: Option<AuditFault>)
      requires forall d ::
        SupplyOf(totals, d) == Claimed(processedClaims, d) - Withdrawn(withdrawals, registryKeeper.assets, d)
      ensures fault.None? <==> forall d :: SupplyOf(supplyByDenom, d) == SupplyOf(totals, d)
      ensures fault.Some? ==> FaultReal(State(), registryKeeper.assets, fault.value)
    {
      hide Claimed, Withdrawn;
      var expected := totals;
      var todo := supplyByDenom.Keys;
      while todo != {}
        invariant todo <= supplyByDenom.Keys
        invariant forall d :: d in expected <==> d in totals && (d !in supplyByDenom || d in todo)
        invariant forall d | d in expected :: expected[d] == totals[d]
        invariant forall d | d in supplyByDenom && d !in todo :: supplyByDenom[d] == SupplyOf(totals, d)
        decreases |todo|
      {
        var d :| d in todo;
        var want := SupplyOf(expected, d);
        assert want == SupplyOf(totals, d);
        if supplyByDenom[d] != want {
          assert SupplyOf(supplyByDenom, d) != SupplyOf(totals, d);
          return Some(SupplyMismatch(d, want, supplyByDenom[d]));
        }
        expected := expected - {d};
        todo := todo - {d};
      }
      var rest := expected.Keys;
      while rest != {}
        invariant rest <= expected.Keys
        invariant forall d | d in expected && d !in rest :: expected[d] == 0
        decreases |rest|
      {
        var d :| d in rest;
        if expected[d] != 0 {
          assert SupplyOf(supplyByDenom, d) != SupplyOf(totals, d);
          return Some(MissingSupply(d, expected[d]));
        }
        rest := rest - {d};
      }
      fault := None;
    }

    method VerifyDepositClaim(claim: DepositClaim, att: Attestation) returns (e: Option<BridgeError>)
      requires SetsInv(signerSets)
      ensures e == VerifyDeposit(crypto, State(), claim, att)
      ensures e.None? <==> exists active, members :: Vouched(crypto, State(), claim, att, active, members)
      ensures e.Some? ==> UnverifiedFor(crypto, State(), claim, att, e.value)
    {
      hide Vouched, UnverifiedFor, SetsInv, Digest;
      VerifiedIff(crypto, State(), claim, att);
      if VerifyDeposit(crypto, State(), claim, att).Some? { UnverifiedReason(crypto, State(), claim, att); }
      hide Verified, Allowed, AttestationPayload, ValidAttestation;
      var ok := Attestations.ValidateBasic(att);
      if !ok { return Some(InvalidAttestation); }
      if claim.identity.messageID != att.messageID { return Some(MessageIDMismatch); }
      if Digest(crypto, claim) != att.payloadHash { return Some(PayloadHashMismatch); }
      if currentHeight > claim.deadline { return Some(FinalityWindowExpired); }
      if currentHeight > att.expiry { return Some(AttestationExpired); }
      var active := FindActiveSet(signerSets, currentHeight);
      if active.None? { return Some(SignerSetInactive); }
      if att.signerSetVersion != active.value.version { return Some(SignerSetVersionMismatch); }
      if att.threshold < active.value.threshold { return Some(InsufficientQuorum); }
      var payload := BuildPayload(AttestationFields(att));
      AttestationPayloadIsJoin(att);
      var digest := crypto.keccak(payload);
      var verified := CountVerified(crypto, active.value, att.proofs, digest);
      if verified < active.value.threshold { return Some(InsufficientQuorum); }
      e := None;
    }

    /** The guards of `ExecuteDepositClaim` up to the rate limit. */
    method CheckDepositClaim(claim: DepositClaim, att: Attestation) returns (e: Option<BridgeError>)
      requires SetsInv(signerSets)
      ensures e == DepositChecks(crypto, State(), CurrentPolicy(), limitsKeeper.State(), claim, att)
    {
      hide VerifyDeposit, ValidClaim, Trim, CheckTransfer, IdentityBytes;
      if circuitBreakerTripped { return Some(CircuitOpen); }
      if !ValidClaim(crypto, claim) { return Some(InvalidClaim); }
      if DerivedMessageID(crypto, claim.identity) in processedClaims { return Some(DuplicateClaim); }
      e := VerifyDepositClaim(claim, att);
      if e.Some? { return; }
      var assetKey := Trim(claim.assetID);
      if assetKey !in registryKeeper.assets { return Some(UnknownAsset); }
      if !registryKeeper.assets[assetKey].enabled { return Some(AssetDisabled); }
      if Paused(Policy(registryKeeper.assets, pauserKeeper.paused), claim.assetID) { return Some(AssetPaused); }
      var limited := limitsKeeper.CheckTransferAtHeight(claim.assetID, claim.amount, currentHeight);
      if limited.Some? { return Some(RateLimited(limited.value)); }
    }

    /** `acceptDepositClaim` and `mintRepresentation`. */
    method AcceptDepositClaim(claimKey: string, claim: DepositClaim, asset: Registry.Asset) returns (r: ClaimResult)
      requires Trim(claim.assetID) in registryKeeper.assets && registryKeeper.assets[Trim(claim.assetID)] == asset
      requires claimKey == DerivedMessageID(crypto, claim.identity) && claim.amount.Some?
      modifies this`supplyByDenom, this`processedClaims
      ensures State() == AcceptDeposit(crypto, old(State()), CurrentPolicy(), claim)
      ensures r == Receipt(CurrentPolicy(), claim)
    {
      hide Trim, Registry.BridgeDenom, IdentityBytes;
      var denom := Registry.BridgeDenom(asset);
      if denom !in supplyByDenom {
        supplyByDenom := supplyByDenom[denom := 0];
      }
      supplyByDenom := supplyByDenom[denom := supplyByDenom[denom] + claim.amount.value];
      processedClaims := processedClaims[claimKey := ClaimRecord(
        claim.identity.messageID, claim.identity.sourceTxHash, denom, claim.assetID, claim.recipient,
        claim.amount.value, Accepted)];
      r := ClaimResult(claim.identity.messageID, denom, claim.amount.value);
    }

    /**
      A refused claim changes only the rejection counter. An accepted one consumes rate-limit usage,
      mints and is recorded; should the audit then fail, the breaker trips on that state.
     */
    method ExecuteDepositClaim(claim: DepositClaim, att: Attestation) returns (r: Result<ClaimResult, BridgeError>)
      requires SetsInv(signerSets)
      modifies this, limitsKeeper
      ensures var b, p, l := old(State()), old(CurrentPolicy()), old(limitsKeeper.State());
        var e := DepositChecks(crypto, b, p, l, claim, att);
        && (e.Some? ==> r == Err(e.value) && State() == Reject(b) && limitsKeeper.State() == l)
        && (e.None? ==>
              var s := AcceptDeposit(crypto, b, p, claim);
              && limitsKeeper.State() == RecordTransfer(l, claim.assetID, claim.amount, b.currentHeight)
              && (r.Ok? <==> AuditPasses(s, p.assets))
              && (r.Ok? ==> State() == s && r.value == Receipt(p, claim))
              && (r.Err? ==> r.error.InvariantBroken? && FaultReal(s, p.assets, r.error.fault))
              && (r.Err? ==> State() == Reject(Trip(s, r.error.fault))))
    {
      hide AuditPasses, FaultReal, VerifyDeposit, ValidClaim, Registry.BridgeDenom, FaultMessage, Trim, CheckTransfer,
           RecordTransfer, AcceptDeposit, Receipt, IdentityBytes;
      var e := CheckDepositClaim(claim, att);
      if e.Some? {
        rejectedClaims := Add64(rejectedClaims, 1);
        return Err(e.value);
      }
      ValidClaimFacts(crypto, claim);
      var limited := limitsKeeper.RecordTransferAtHeight(claim.assetID, claim.amount, currentHeight);
      var accepted := AcceptDepositClaim(DerivedMessageID(crypto, claim.identity), claim,
                                         registryKeeper.assets[Trim(claim.assetID)]);
      var fault := CheckAccountingInvariant();
      if fault.Some? {
        rejectedClaims := Add64(rejectedClaims, 1);
        return Err(InvariantBroken(fault.value));
      }
      r := Ok(accepted);
    }

    /** A withdrawal that runs out of supply has already consumed rate-limit usage. */
    method ExecuteWithdrawal(req: WithdrawalRequest) returns (r: Result<WithdrawalRecord, BridgeError>)
      modifies this, limitsKeeper
      ensures var b, p, l := old(State()), old(CurrentPolicy()), old(limitsKeeper.State());
        var e := WithdrawChecks(b, p, l, req);
        && (e.Some? ==> r == Err(e.value) && State() == b && limitsKeeper.State() == l)
        && (e.None? ==> limitsKeeper.State() == RecordTransfer(l, req.assetID, req.amount, b.currentHeight))
        && (e.None? && !SupplyCovers(b, p, req) ==> r == Err(InsufficientSupply) && State() == b)
        && (e.None? && SupplyCovers(b, p, req) ==>
              var s := AcceptWithdrawal(crypto, b, p, req);
              && (r.Ok? <==> AuditPasses(s, p.assets))
              && (r.Ok? ==> State() == s && r.value == NewRecord(crypto, b, p, req))
              && (r.Err? ==> r.error.InvariantBroken? && FaultReal(s, p.assets, r.error.fault))
              && (r.Err? ==> State() == Trip(s, r.error.fault)))
    {
      hide AuditPasses, FaultReal, Registry.BridgeDenom, FaultMessage, Trim, Lower, NewRecord, CheckTransfer,
           RecordTransfer;
      if circuitBreakerTripped { return Err(CircuitOpen); }
      if !Positive(req.amount) { return Err(InvalidWithdrawal); }
      if Trim(req.assetID) == "" { return Err(InvalidWithdrawal); }
      if Trim(req.recipient) == "" || Lower(Trim(req.recipient)) == ZERO_ADDRESS { return Err(InvalidWithdrawal); }
      if req.deadline == 0 { return Err(InvalidWithdrawal); }
      if req.signature == "" { return Err(InvalidWithdrawal); }
      var assetKey := Trim(req.assetID);
      if assetKey !in registryKeeper.assets { return Err(UnknownAsset); }
      var asset := registryKeeper.assets[assetKey];
      if !asset.enabled { return Err(AssetDisabled); }
      var policy := Policy(registryKeeper.assets, pauserKeeper.paused);
      if Paused(policy, req.assetID) { return Err(AssetPaused); }
      var limited := limitsKeeper.CheckTransferAtHeight(req.assetID, req.amount, currentHeight);
      if limited.None? {
        limited := limitsKeeper.RecordTransferAtHeight(req.assetID, req.amount, currentHeight);
      }
      if limited.Some? { return Err(RateLimited(limited.value)); }
      var denom := Registry.BridgeDenom(asset);
      if denom !in supplyByDenom || supplyByDenom[denom] < req.amount.value {
        return Err(InsufficientSupply);
      }
      var record := NewRecord(crypto, CompiledState(), policy, req);
      nextWithdrawalNonce := Add64(nextWithdrawalNonce, 1);
      supplyByDenom := supplyByDenom[denom := supplyByDenom[denom] - req.amount.value];
      withdrawals := withdrawals + [record];
      assert State() == AcceptWithdrawal(crypto, old(State()), old(CurrentPolicy()), req);
      var fault := CheckAccountingInvariant();
      if fault.Some? {
        return Err(InvariantBroken(fault.value));
      }
      r := Ok(record);
    }

    function CompiledState(): (s: BridgeState)
      reads this
      ensures s == State()
    {
      BridgeState(currentHeight, nextWithdrawalNonce, rejectedClaims, circuitBreakerTripped, lastInvariantError,
                  signerSets, processedClaims, supplyByDenom, withdrawals)
    }

    method ExportState() returns (snap: BridgeSnapshot)
      requires SetsInv(signerSets)
      ensures SnapshotOfBridge(snap, State())
    {
      hide Render, NormalizeSet;
      var sets := ExportMap(signerSets, (v: U64, set_: SignerSet) => set_);
      forall k | k in signerSets ensures exists v :: v in sets && SetVersion(v) == k {
        assert SetVersion(signerSets[k]) == k;
      }
      var claims := ExportMap(processedClaims, SnapClaim);
      forall v | v in claims ensures ClaimKey(v) in processedClaims
        && v == SnapClaim(ClaimKey(v), processedClaims[ClaimKey(v)]) {
        var k :| k in processedClaims && v == SnapClaim(k, processedClaims[k]);
      }
      snap := BridgeSnapshot(
        currentHeight, nextWithdrawalNonce, rejectedClaims, circuitBreakerTripped, lastInvariantError, sets, claims,
        SnapSupply(supplyByDenom), SnapWithdrawals(withdrawals));
    }

    /** A zero nonce becomes one, and an empty list of signer sets leaves the current ones in place. */
    method ImportState(snap: BridgeSnapshot) returns (ok: bool)
      modifies this
      ensures ok <==> Parses(snap)
      ensures ok ==> State() == Imported(snap, old(signerSets))
    {
      hide ParseInt, NormalizeSet, SupplyParses, SupplyRead, WithdrawalsParse, WithdrawalsRead, FromList, ClaimParses;
      currentHeight := snap.currentHeight;
      nextWithdrawalNonce := if snap.nextNonce == 0 then 1 else snap.nextNonce;
      rejectedClaims := snap.rejected;
      circuitBreakerTripped := snap.tripped;
      lastInvariantError := snap.lastError;
      var taken: nat;
      if |snap.signerSets| > 0 {
        signerSets, taken := ImportList(snap.signerSets, (v: SignerSet) => true, SetVersion, NormalizeSet);
        assert snap.signerSets[..taken] == snap.signerSets;
      }
      processedClaims, taken := ImportList(snap.claims, ClaimParses, ClaimKey, ReadClaim);
      if taken < |snap.claims| {
        return false;
      }
      assert snap.claims[..taken] == snap.claims;
      ok, supplyByDenom := ReadSupply(snap.supply);
      if ok {
        ok, withdrawals := ReadWithdrawals(snap.withdrawals);
      }
    }

    /** Recorded withdrawals between two heights, in recording order. */
    method Withdrawals(fromHeight: U64, toHeight: U64) returns (found: seq<WithdrawalRecord>)
      ensures found == WithdrawalsBetween(withdrawals, fromHeight, toHeight)
    {
      found := [];
      if fromHeight > toHeight {
        NothingBetween(withdrawals, fromHeight, toHeight);
        return;
      }
      for i := 0 to |withdrawals|
        invariant found == WithdrawalsBetween(withdrawals[..i], fromHeight, toHeight)
      {
        assert withdrawals[..i + 1][..i] == withdrawals[..i];
        var w := withdrawals[i];
        if w.blockHeight < fromHeight || w.blockHeight > toHeight {
          continue;
        }
        found := found + [w];
      }
      assert withdrawals[..|withdrawals|] == withdrawals;
    }
  }

  function Genesis(allowedSigners: seq<string>, requiredThreshold: U32): BridgeState {
    var threshold := if requiredThreshold == 0 then 1 else requiredThreshold;
    BridgeState(0, 1, 0, false, "", map[1 := NormalizeSet(SignerSet(1, allowedSigners, threshold, 0, 0))],
      map[], map[], [])
  }

  function WithdrawalsBetween(ws: seq<WithdrawalRecord>, from: U64, to: U64): seq<WithdrawalRecord> {
    if ws == [] then []
    else
      var w := ws[|ws| - 1];
      WithdrawalsBetween(ws[..|ws| - 1], from, to) + (if from <= w.blockHeight <= to then [w] else [])
  }

  lemma {:induction false} NothingBetween(ws: seq<WithdrawalRecord>, from: U64, to: U64)
    requires from > to
    ensures WithdrawalsBetween(ws, from, to) == []
  {
    if ws != [] { NothingBetween(ws[..|ws| - 1], from, to); }
  }

  /** The listing keeps the recording order: what is recorded later is listed later. */
  lemma {:induction false} WithdrawalsInOrder(a: seq<WithdrawalRecord>, b: seq<WithdrawalRecord>, from: U64, to: U64)
    ensures WithdrawalsBetween(a + b, from, to) == WithdrawalsBetween(a, from, to) + WithdrawalsBetween(b, from, to)
    ensures |b| == 1 ==> WithdrawalsBetween(b, from, to) == if from <= b[0].blockHeight <= to then b else []
  {
    if b == [] {
      assert a + b == a;
    } else {
      var n := |b| - 1;
      assert (a + b)[..|a + b| - 1] == a + b[..n];
      WithdrawalsInOrder(a, b[..n], from, to);
    }
  }

  /** The listing holds exactly the records in range. */
  lemma {:induction false} WithdrawalsBetweenExact(ws: seq<WithdrawalRecord>, from: U64, to: U64)
    ensures forall w :: w in WithdrawalsBetween(ws, from, to) <==> w in ws && from <= w.blockHeight <= to
  {
    if ws != [] {
      WithdrawalsBetweenExact(ws[..|ws| - 1], from, to);
      assert ws == ws[..|ws| - 1] + [ws[|ws| - 1]];
    }
  }

  lemma AttestationPayloadIsJoin(att: Attestation)
    ensures AttestationPayload(att) == JoinPrefixed(AttestationFields(att))
  {
  }

  lemma ValidClaimFacts(c: Crypto, claim: DepositClaim)
    requires ValidClaim(c, claim)
    ensures claim.amount.Some? && claim.amount.value > 0
    ensures claim.identity.messageID == DerivedMessageID(c, claim.identity)
  {
  }

  // ---- snapshots -------------------------------------------------------------------------------------

  datatype ClaimSnapshot = ClaimSnapshot(claimKey: string, record: ClaimRecord, amount: string)

  datatype WithdrawalSnapshot = WithdrawalSnapshot(record: WithdrawalRecord, amount: string)

  datatype BridgeSnapshot = BridgeSnapshot(
    currentHeight: U64,
    nextNonce: U64,
    rejected: U64,
    tripped: bool,
    lastError: string,
    signerSets: seq<SignerSet>,
    claims: seq<ClaimSnapshot>,
    supply: map<string, string>,
    withdrawals: seq<WithdrawalSnapshot>)

  // A snapshot carries its amount as decimal text; the record inside it is kept with amount 0.

  function SnapClaim(key: string, r: ClaimRecord): ClaimSnapshot {
    ClaimSnapshot(key, r.(amount := 0), Render(r.amount))
  }

  function ClaimKey(s: ClaimSnapshot): string { s.claimKey }

  predicate ClaimParses(s: ClaimSnapshot) { ParseInt(s.amount).Some? }

  function ReadClaim(s: ClaimSnapshot): ClaimRecord {
    if ClaimParses(s) then s.record.(amount := ParseInt(s.amount).value) else s.record
  }

  function SnapWithdrawal(w: WithdrawalRecord): WithdrawalSnapshot {
    WithdrawalSnapshot(w.(amount := 0), Render(w.amount))
  }

  function SnapSupply(supply: map<string, int>): map<string, string> {
    map d | d in supply :: Render(supply[d])
  }

  function SetVersion(s: SignerSet): U64 { s.version }

  ghost predicate SnapshotOfBridge(snap: BridgeSnapshot, b: BridgeState) {
    && snap.currentHeight == b.currentHeight && snap.nextNonce == b.nextNonce && snap.rejected == b.rejected
    && snap.tripped == b.tripped && snap.lastError == b.lastError
    && Lists(snap.signerSets, b.signerSets, SetVersion, NormalizeSet)
    && ListsClaims(snap.claims, b.claims)
    && snap.supply == SnapSupply(b.supply)
    && snap.withdrawals == SnapWithdrawals(b.withdrawals)
  }

  ghost predicate ListsClaims(snaps: seq<ClaimSnapshot>, claims: map<string, ClaimRecord>) {
    && (forall v | v in snaps :: ClaimKey(v) in claims && v == SnapClaim(ClaimKey(v), claims[ClaimKey(v)]))
    && (forall k | k in claims :: SnapClaim(k, claims[k]) in snaps)
  }

  function SnapWithdrawals(ws: seq<WithdrawalRecord>): (r: seq<WithdrawalSnapshot>)
    ensures |r| == |ws| && forall i | 0 <= i < |ws| :: r[i] == SnapWithdrawal(ws[i])
  {
    seq(|ws|, i requires 0 <= i < |ws| => SnapWithdrawal(ws[i]))
  }

  predicate ClaimsParse(snaps: seq<ClaimSnapshot>) {
    forall i | 0 <= i < |snaps| :: ClaimParses(snaps[i])
  }

  predicate SupplyParses(texts: map<string, string>) {
    forall d | d in texts :: ParseInt(texts[d]).Some?
  }

  predicate WithdrawalsParse(snaps: seq<WithdrawalSnapshot>) {
    forall i | 0 <= i < |snaps| :: ParseInt(snaps[i].amount).Some?
  }

  /** Every amount in the snapshot is a decimal number. */
  predicate Parses(snap: BridgeSnapshot) {
    ClaimsParse(snap.claims) && SupplyParses(snap.supply) && WithdrawalsParse(snap.withdrawals)
  }

  function SupplyRead(texts: map<string, string>): map<string, int>
    requires SupplyParses(texts)
  {
    map d | d in texts :: ParseInt(texts[d]).value
  }

  function WithdrawalsRead(snaps: seq<WithdrawalSnapshot>): (r: seq<WithdrawalRecord>)
    ensures |r| == |snaps| && forall i | 0 <= i < |r| :: r[i] == ReadWithdrawal(snaps[i])
  {
    seq(|snaps|, i requires 0 <= i < |snaps| => ReadWithdrawal(snaps[i]))
  }

  function ReadWithdrawal(s: WithdrawalSnapshot): WithdrawalRecord {
    if ParseInt(s.amount).Some? then s.record.(amount := ParseInt(s.amount).value) else s.record
  }

  /** The state an import of a parseable snapshot leaves behind. */
  function Imported(snap: BridgeSnapshot, currentSets: SignerSets): BridgeState
    requires Parses(snap)
  {
    BridgeState(
      snap.currentHeight, if snap.nextNonce == 0 then 1 else snap.nextNonce,
      snap.rejected, snap.tripped, snap.lastError,
      if snap.signerSets == [] then currentSets else FromList(snap.signerSets, SetVersion, NormalizeSet),
      FromList(snap.claims, ClaimKey, ReadClaim),
      SupplyRead(snap.supply), WithdrawalsRead(snap.withdrawals))
  }

  /** A state after it went through an export and an import. */
  function Restored(b: BridgeState, currentSets: SignerSets): BridgeState {
    b.(nextNonce := if b.nextNonce == 0 then 1 else b.nextNonce,
       signerSets := if b.signerSets == map[] then currentSets else b.signerSets)
  }

  /** Import after export restores everything but a zero nonce and an empty collection of signer sets. */
  lemma ImportExportBridge(snap: BridgeSnapshot, b: BridgeState, currentSets: SignerSets)
    requires SnapshotOfBridge(snap, b) && SetsInv(b.signerSets)
    ensures Parses(snap) && Imported(snap, currentSets) == Restored(b, currentSets)
  {
    hide NormalizeSet, SnapSupply, SupplyRead, SupplyParses, SnapWithdrawals, WithdrawalsRead, WithdrawalsParse,
         ListsClaims, ClaimsParse, FromList, Lists;
    SetsRestored(snap.signerSets, b.signerSets);
    ClaimsRestored(snap.claims, b.claims);
    SupplyRestored(b.supply);
    WithdrawalsRestored(b.withdrawals);
  }

  lemma SetsRestored(snaps: seq<SignerSet>, sets: SignerSets)
    requires Lists(snaps, sets, SetVersion, NormalizeSet)
    ensures FromList(snaps, SetVersion, NormalizeSet) == sets && (snaps == [] <==> sets == map[])
  {
    hide NormalizeSet;
    ImportExport(snaps, sets, SetVersion, NormalizeSet);
    if snaps != [] { assert snaps[0] in snaps; }
  }

  /** Exactly when rolling back to a snapshot is lossless. */
  lemma RollbackExactIff(b: BridgeState, currentSets: SignerSets)
    requires b.signerSets == map[] ==> currentSets == map[]
    ensures Restored(b, currentSets) == b <==> b.nextNonce != 0
  {
  }

  method ReadSupply(texts: map<string, string>) returns (ok: bool, supply: map<string, int>)
    ensures ok <==> SupplyParses(texts)
    ensures ok ==> supply == SupplyRead(texts)
  {
    hide ParseInt;
    supply := map[];
    var todo := texts.Keys;
    while todo != {}
      invariant todo <= texts.Keys && supply.Keys == texts.Keys - todo
      invariant forall d | d in supply :: ParseInt(texts[d]) == Some(supply[d])
      decreases |todo|
    {
      var d :| d in todo;
      todo := todo - {d};
      var parsed := ParseInt(texts[d]);
      if parsed.None? { return false, supply; }
      supply := supply[d := parsed.value];
    }
    ok := true;
  }

  method ReadWithdrawals(snaps: seq<WithdrawalSnapshot>) returns (ok: bool, ws: seq<WithdrawalRecord>)
    ensures ok <==> WithdrawalsParse(snaps)
    ensures ok ==> ws == WithdrawalsRead(snaps)
  {
    hide ParseInt;
    ws := [];
    while |ws| < |snaps|
      invariant |ws| <= |snaps|
      invariant forall i | 0 <= i < |ws| :: ParseInt(snaps[i].amount).Some?
      invariant forall i | 0 <= i < |ws| :: ws[i] == ReadWithdrawal(snaps[i])
    {
      var parsed := ParseInt(snaps[|ws|].amount);
      if parsed.None? { return false, ws; }
      ws := ws + [snaps[|ws|].record.(amount := parsed.value)];
    }
    ok := true;
  }

  lemma ClaimsRestored(snaps: seq<ClaimSnapshot>, claims: map<string, ClaimRecord>)
    requires ListsClaims(snaps, claims)
    ensures ClaimsParse(snaps) && FromList(snaps, ClaimKey, ReadClaim) == claims
  {
    hide Render, ParseInt;
    forall v | v in snaps ensures ClaimParses(v) && ReadClaim(v) == claims[ClaimKey(v)] {
      ParseRender(claims[ClaimKey(v)].amount);
    }
    forall k | k in claims ensures exists v :: v in snaps && ClaimKey(v) == k {
      assert ClaimKey(SnapClaim(k, claims[k])) == k;
    }
    ImportExport(snaps, claims, ClaimKey, ReadClaim);
  }

  lemma SupplyRestored(supply: map<string, int>)
    ensures SupplyParses(SnapSupply(supply)) && SupplyRead(SnapSupply(supply)) == supply
  {
    hide Render, ParseInt;
    forall d | d in supply ensures ParseInt(Render(supply[d])) == Some(supply[d]) {
      ParseRender(supply[d]);
    }
  }

  lemma WithdrawalsRestored(ws: seq<WithdrawalRecord>)
    ensures WithdrawalsParse(SnapWithdrawals(ws)) && WithdrawalsRead(SnapWithdrawals(ws)) == ws
  {
    hide Render, ParseInt;
    forall i | 0 <= i < |ws|
      ensures ParseInt(SnapWithdrawals(ws)[i].amount).Some? && ReadWithdrawal(SnapWithdrawals(ws)[i]) == ws[i]
    {
      ParseRender(ws[i].amount);
    }
  }
}
