/** From a withdrawal on the chain to the call that releases it on Ethereum. */
module Release {
  import opened Base
  import opened Text
  import opened Canonical
  import opened Signers
  import Registry
  import Limits
  import Bank
  import opened Attestations
  import opened Bridge
  import opened Ledger
  import opened LedgerEffects
  import opened Rlp
  import opened Abi

  /** `Withdrawal.ReleaseRequest`: what the relayer asks the gateway to do for a recorded withdrawal. */
  function ReleaseOf(w: WithdrawalRecord): ReleaseRequest {
    ReleaseRequest(w.assetAddress, w.recipient, Some(w.amount), w.identity.messageID, w.deadline, w.signature)
  }

  /** `ReleaseRequest.Validate`. */
  predicate ValidRelease(r: ReleaseRequest) {
    && Trim(r.messageID) != "" && Trim(r.asset) != "" && Positive(r.amount)
    && Trim(r.recipient) != "" && Lower(Trim(r.recipient)) != ZERO_ADDRESS && r.deadline != 0 && r.signature != ""
  }

  // ---- every asset lives somewhere ------------------------------------------------------------------------

  ghost predicate Addressed(assets: Registry.Assets) {
    forall k | k in assets ::
      assets[k].sourceAssetKind == Registry.NATIVE_ETH || Trim(assets[k].sourceAssetAddress) != ""
  }

  lemma RegisterAddresses(assets: Registry.Assets, asset: Registry.Asset)
    requires Addressed(assets)
    ensures Addressed(Registry.Register(assets, asset))
  {
    hide Trim, Registry.Stored, Registry.ValidAsset, Lower;
    if Registry.RegisterError(assets, asset).None? {
      Registry.RegisterExact(assets, asset);
      TrimTwice(asset.sourceAssetAddress);
      TrimTwice(asset.sourceContract);
    }
  }

  lemma StepKeepsAddresses(c: Crypto, s: LedgerState, op: Op)
    requires Addressed(s.policy.assets)
    ensures Addressed(Step(c, s, op).policy.assets)
  {
    hide Submit, Withdraw, Drain, Queue, Registry.Register, Upsert, Limits.PutLimit, Trim;
    match op
    case DoSubmit(claim, att, persists) => SubmitKeepsPolicy(c, s, claim, att, persists);
    case DoQueue(claim, att) => QueueKeepsPolicy(c, s, claim, att);
    case DoAdvance(oracle) => DrainKeepsPolicy(c, NextBlock(s), s.pending, oracle);
    case DoWithdraw(owner, req, persists) => WithdrawKeepsPolicy(c, s, owner, req, persists);
    case DoRegister(asset) => RegisterAddresses(s.policy.assets, asset);
    case _ =>
  }

  lemma SubmitKeepsPolicy(c: Crypto, s: LedgerState, claim: DepositClaim, att: Attestation, persists: bool)
    ensures Submit(c, s, claim, att, persists).0.policy == s.policy
  {
    hide Trim, AuditPasses, DepositChecks, Limits.RecordTransfer, Bank.CreditError, Bank.Credited, Receipt,
         AcceptDeposit;
  }

  lemma QueueKeepsPolicy(c: Crypto, s: LedgerState, claim: DepositClaim, att: Attestation)
    ensures Queue(c, s, claim, att).policy == s.policy
  {
    hide Trim, ValidClaim, ValidAttestation;
  }

  lemma WithdrawKeepsPolicy(c: Crypto, s: LedgerState, owner: string, r: WithdrawalRequest, persists: bool)
    ensures Withdraw(c, s, owner, r, persists).0.policy == s.policy
  {
    hide Trim, AuditPasses, WithdrawChecks, Limits.RecordTransfer, Bank.DebitError, Bank.Debited, NewRecord,
         AcceptWithdrawal, SupplyCovers;
  }

  lemma {:induction false} DrainKeepsPolicy(c: Crypto, s: LedgerState, queue: seq<QueuedClaim>, persists: nat -> bool)
    ensures Drain(c, s, queue, persists).policy == s.policy
  {
    hide Submit;
    if queue != [] {
      var n := |queue| - 1;
      DrainKeepsPolicy(c, s, queue[..n], persists);
      SubmitKeepsPolicy(c, Drain(c, s, queue[..n], persists), queue[n].claim, queue[n].attestation, persists(n));
    }
  }

  lemma {:induction false} RunKeepsAddresses(c: Crypto, s: LedgerState, ops: seq<Op>)
    requires Addressed(s.policy.assets)
    ensures Addressed(Run(c, s, ops).policy.assets)
  {
    hide Step, Addressed;
    if ops != [] {
      RunKeepsAddresses(c, s, ops[..|ops| - 1]);
      StepKeepsAddresses(c, Run(c, s, ops[..|ops| - 1]), ops[|ops| - 1]);
    }
  }

  // ---- the call -----------------------------------------------------------------------------------------------

  /** Hash digests are printed as thirty-two bytes in hexadecimal. */
  ghost predicate PrintsHex(c: Crypto) {
    forall x :: HexBytes(c.sha256Hex(x), 32).Some?
  }

  /** The chain takes any recipient that is not blank or zero; the gateway needs twenty bytes and 256 bits. */
  predicate Encodable(w: WithdrawalRecord) {
    HexBytes(w.assetAddress, 20).Some? && HexBytes(w.recipient, 20).Some? && w.amount < Pow256(32)
  }

  /**
    In every run from genesis: what the relayer asks for an accepted withdrawal passes its own validation; and what
    the gateway reads from the calldata is the address of the asset asked for, the recipient, the amount, the
    deadline and the signature of the request, and the withdrawal's own message ID. The call can be encoded if and
    only if asset and recipient are twenty hexadecimal bytes and the amount fits; otherwise what was burnt cannot
    be released.
   */
  lemma ReleaseCarries(c: Crypto, allowedSigners: seq<string>, requiredThreshold: U32, ops: seq<Op>, owner: string,
                       r: WithdrawalRequest, persists: bool)
    requires PrintsHex(c) && |r.signature| < TWO_64
    requires Withdraw(c, Run(c, GenesisLedger(allowedSigners, requiredThreshold), ops), owner, r, persists).1.Ok?
    ensures var s := Run(c, GenesisLedger(allowedSigners, requiredThreshold), ops);
      var w := Withdraw(c, s, owner, r, persists).1.value;
      var call := EncodeRelease(ReleaseOf(w));
      && RecordOf(c, s, r, w) && ValidRelease(ReleaseOf(w))
      && (call.Calldata? <==> Encodable(w))
      && (call.Calldata? ==>
            DecodeRelease(call.bytes) == Some(Arguments(
              HexBytes(w.assetAddress, 20).value, HexBytes(Trim(r.recipient), 20).value, r.amount.value,
              HexBytes(w.identity.messageID, 32).value, r.deadline, r.signature)))
  {
    hide Run, GenesisLedger, Withdraw, LedgerInv, RecordOf, Addressed, EncodeRelease, HexBytes, Trim, Lower, Pow256;
    var s := Run(c, GenesisLedger(allowedSigners, requiredThreshold), ops);
    GenesisInv(allowedSigners, requiredThreshold);
    RunKeepsInv(c, GenesisLedger(allowedSigners, requiredThreshold), ops);
    NothingAddressed(allowedSigners, requiredThreshold);
    RunKeepsAddresses(c, GenesisLedger(allowedSigners, requiredThreshold), ops);
    WithdrawalEffect(c, s, owner, r, persists);
    AcceptedHolds(c, s, owner, r, persists);
    WithdrawChecksIff(s, r);
    var w := Withdraw(c, s, owner, r, persists).1.value;
    RecordReleases(c, s, r, w);
    EncodableIff(c, w);
    if EncodeRelease(ReleaseOf(w)).Calldata? { CalldataRoundTrip(ReleaseOf(w)); }
  }

  lemma NothingAddressed(allowedSigners: seq<string>, requiredThreshold: U32)
    ensures Addressed(GenesisLedger(allowedSigners, requiredThreshold).policy.assets)
  {
    hide NormalizeSet;
  }

  lemma RecordReleases(c: Crypto, s: LedgerState, r: WithdrawalRequest, w: WithdrawalRecord)
    requires RecordOf(c, s, r, w) && Addressed(s.policy.assets) && PrintsHex(c)
    requires Trim(r.recipient) != "" && Lower(Trim(r.recipient)) != ZERO_ADDRESS && r.deadline != 0 && r.signature != ""
    ensures ValidRelease(ReleaseOf(w))
    ensures w.recipient == Trim(r.recipient) && r.amount == Some(w.amount) && w.amount > 0
    ensures w.deadline == r.deadline && w.signature == r.signature
    ensures w.identity.messageID == c.sha256Hex(IdentityBytes(w.identity))
  {
    TrimTwice(r.recipient);
    var a := s.policy.assets[w.assetID];
    TrimTwice(a.sourceAssetAddress);
    TrimTwice(a.sourceContract);
    SolidEndsTrim(ZERO_ADDRESS);
    DigestNotBlank(c, IdentityBytes(w.identity));
    hide Trim, IdentityBytes, HexBytes, Dec, Render, Lower;
  }

  lemma DigestNotBlank(c: Crypto, x: string)
    requires PrintsHex(c)
    ensures Trim(c.sha256Hex(x)) != ""
  {
    assert HexBytes(c.sha256Hex(x), 32).Some?;
    hide Trim, PrintsHex, Unhex;
  }

  lemma EncodableIff(c: Crypto, w: WithdrawalRecord)
    requires HexBytes(w.identity.messageID, 32).Some? && w.amount > 0
    ensures EncodeRelease(ReleaseOf(w)).Calldata? <==> Encodable(w)
  {
    hide HexBytes, Pow256;
    if HexBytes(w.assetAddress, 20).Some? && HexBytes(w.recipient, 20).Some? { OverflowIff(ReleaseOf(w)); }
  }

  // ---- the signed transaction ---------------------------------------------------------------------------------

  /** What a release transaction asks for, before it is signed. */
  datatype Unsigned = Unsigned(nonce: BigInt, gasPrice: BigInt, gasLimit: BigInt, to: string, data: string)

  function Legacy(u: Unsigned, v: int, r: int, s: int): LegacyTx {
    LegacyTx(u.nonce, u.gasPrice, u.gasLimit, u.to, Some(0), u.data, Some(v), Some(r), Some(s))
  }

  /** The bytes whose digest is signed: the chain ID and two zeros stand where the signature will. */
  function SigningPayload(u: Unsigned, chainID: int): string {
    EncodeList(TxFields(Legacy(u, chainID, 0, 0)))
  }

  /** The recovery code in front of a compact signature; the byte subtraction wraps. */
  function RecoveryCode(signature: string): nat
    requires signature != ""
  {
    (signature[0] as int - 27) % 256
  }

  /** `signLegacyTransaction`, given how the key signs a digest; the gateway's address is hexadecimal text. */
  function SignLegacy(c: Crypto, sign: string -> string, chainID: int, u: Unsigned): Option<string> {
    var address := HexBytes(u.to, 20);
    if address.None? then None
    else
      var tx := u.(to := address.value);
      var signature := sign(c.keccak(SigningPayload(tx, chainID)));
      if |signature| != 65 then None
      else
        Some(EncodeList(TxFields(Legacy(
          tx, 2 * chainID + 35 + RecoveryCode(signature), BigEndianValue(signature[1..33]),
          BigEndianValue(signature[33..])))))
  }

  /** What an Ethereum node reads from the sent bytes, after EIP-155: chain ID and parity both come from `v`. */
  datatype Sent = Sent(nonce: int, gasPrice: int, gasLimit: int, to: string, value: int, data: string, chainID: int,
                       parity: int, r: int, s: int)

  function NumberIn(item: Item): int {
    if item.Str? then BigEndianValue(item.bytes) else 0
  }

  function NodeReads(raw: string): Option<Sent> {
    var read := Decode(raw);
    if !read.Parsed? || read.rest != "" || !read.value.List? || |read.value.items| != 9 then None
    else
      var x := read.value.items;
      var v := NumberIn(x[6]);
      if !x[3].Str? || !x[5].Str? || v < 35 then None
      else Some(Sent(NumberIn(x[0]), NumberIn(x[1]), NumberIn(x[2]), x[3].bytes, NumberIn(x[4]), x[5].bytes,
                     (v - 35) / 2, (v - 35) % 2, NumberIn(x[7]), NumberIn(x[8])))
  }

  /** The payload a node rebuilds to recover the sender from the signature. */
  function Rebuilt(t: Sent): string
    requires t.nonce >= 0 && t.gasPrice >= 0 && t.gasLimit >= 0 && t.value >= 0 && t.chainID >= 0
  {
    Encode(List([
      Str(MinBytes(t.nonce)), Str(MinBytes(t.gasPrice)), Str(MinBytes(t.gasLimit)), Str(t.to), Str(MinBytes(t.value)),
      Str(t.data), Str(MinBytes(t.chainID)), Str(""), Str("")]))
  }

  ghost predicate Sendable(tx: LegacyTx) {
    Fits(List(TxItems(tx)))
  }

  /** A node reads from the sent bytes just what was to be signed, with this chain ID and this signature. */
  ghost predicate ReadAs(t: Sent, u: Unsigned, address: string) {
    && t.nonce == Natural(u.nonce) && t.gasPrice == Natural(u.gasPrice) && t.gasLimit == Natural(u.gasLimit)
    && t.to == address && t.value == 0 && t.data == u.data && t.chainID >= 0
  }

  lemma LegacyReads(u: Unsigned, v: int, r: nat, s: nat)
    requires Sendable(Legacy(u, v, r, s))
    ensures var t := NodeReads(EncodeList(TxFields(Legacy(u, v, r, s))));
      && (t.Some? <==> v >= 35)
      && (t.Some? ==>
            ReadAs(t.value, u, u.to) && t.value.r == r && t.value.s == s
            && t.value.chainID == (v - 35) / 2 && t.value.parity == (v - 35) % 2)
  {
    hide Decode, EncodeList, TxFields, Fits, BigEndianValue;
    TxReadsBack(Legacy(u, v, r, s));
  }

  lemma RebuiltIs(t: Sent, u: Unsigned)
    requires ReadAs(t, u, u.to)
    ensures Rebuilt(t) == SigningPayload(u, t.chainID)
  {
    hide Encode, EncodeList, TxFields, MinBytes;
    TxEncodes(Legacy(u, t.chainID, 0, 0));
    assert MinBytes(0) == "" by { NoBytes(); }
  }

  lemma NoBytes()
    ensures MinBytes(0) == ""
  {
  }

  lemma {:induction false} BigEndianNatural(s: string)
    ensures BigEndianValue(s) >= 0
  {
    if s != "" { BigEndianNatural(s[..|s| - 1]); }
  }

  /** The lengths of what is signed, sent and rebuilt fit Go's int. */
  ghost predicate Lengths(tx: Unsigned, chainID: nat, signature: string)
    requires |signature| == 65
  {
    && Sendable(Legacy(tx, chainID, 0, 0))
    && Sendable(Legacy(tx, chainID + RecoveryCode(signature) / 2, 0, 0))
    && Sendable(Legacy(tx, 2 * chainID + 35 + RecoveryCode(signature), BigEndianValue(signature[1..33]),
                       BigEndianValue(signature[33..])))
  }

  /**
    What an Ethereum node reads from a sent transaction is nonce, both gas numbers, gateway, no value, calldata and
    signature as they were to be; and what it rebuilds is what was signed if and only if the recovery code is zero or
    one. With another code, the transaction is sent all the same, for another chain.
   */
  lemma SentIsSigned(c: Crypto, sign: string -> string, chainID: nat, u: Unsigned)
    requires SignLegacy(c, sign, chainID, u).Some?
    requires var tx := u.(to := HexBytes(u.to, 20).value);
      Lengths(tx, chainID, sign(c.keccak(SigningPayload(tx, chainID))))
    ensures var tx := u.(to := HexBytes(u.to, 20).value);
      var payload := SigningPayload(tx, chainID);
      var signature := sign(c.keccak(payload));
      var read := NodeReads(SignLegacy(c, sign, chainID, u).value);
      && read.Some? && ReadAs(read.value, u, tx.to)
      && read.value.r == BigEndianValue(signature[1..33]) && read.value.s == BigEndianValue(signature[33..])
      && read.value.chainID == chainID + RecoveryCode(signature) / 2
      && read.value.parity == RecoveryCode(signature) % 2
      && (Rebuilt(read.value) == payload <==> RecoveryCode(signature) <= 1)
  {
    hide HexBytes, NodeReads, EncodeList, TxFields, BigEndianValue, Rebuilt, Sendable;
    var tx := u.(to := HexBytes(u.to, 20).value);
    var signature := sign(c.keccak(SigningPayload(tx, chainID)));
    BigEndianNatural(signature[1..33]);
    BigEndianNatural(signature[33..]);
    LegacyReads(tx, 2 * chainID + 35 + RecoveryCode(signature), BigEndianValue(signature[1..33]),
                BigEndianValue(signature[33..]));
    var read := NodeReads(SignLegacy(c, sign, chainID, u).value);
    RebuiltIs(read.value, tx);
    SamePayload(tx, chainID, read.value.chainID);
  }

  /** Signing payloads for two chains are the same only for the same chain. */
  lemma SamePayload(u: Unsigned, m: nat, n: nat)
    requires Sendable(Legacy(u, m, 0, 0)) && Sendable(Legacy(u, n, 0, 0))
    ensures SigningPayload(u, m) == SigningPayload(u, n) <==> m == n
  {
    hide EncodeList, TxFields, TxItems, Fits;
    TxUnambiguous(Legacy(u, m, 0, 0), Legacy(u, n, 0, 0));
  }

  /** A transaction is sent exactly for a gateway address of twenty bytes and a signature of sixty-five. */
  lemma SentIff(c: Crypto, sign: string -> string, chainID: int, u: Unsigned)
    ensures SignLegacy(c, sign, chainID, u).Some? <==>
      && HexBytes(u.to, 20).Some?
      && |sign(c.keccak(SigningPayload(u.(to := HexBytes(u.to, 20).value), chainID)))| == 65
  {
    hide HexBytes, EncodeList;
  }

  /** `releaseWithdrawalWithSigner`, up to sending: the calldata to the gateway, with a fixed gas limit. */
  function ReleaseTransaction(c: Crypto, sign: string -> string, chainID: int, nonce: BigInt, gasPrice: BigInt,
                              gateway: string, request: ReleaseRequest): Option<string> {
    var call := EncodeRelease(request);
    if !call.Calldata? then None
    else SignLegacy(c, sign, chainID, Unsigned(nonce, gasPrice, Some(500_000), gateway, call.bytes))
  }

  /** A transaction that calls the gateway, with no value, for just this release. */
  predicate Calls(t: Sent, gateway: string, r: ReleaseRequest) {
    && Some(t.to) == HexBytes(gateway, 20) && t.value == 0 && t.gasLimit == 500_000
    && var read := DecodeRelease(t.data);
       && read.Some?
       && Some(read.value.asset) == HexBytes(r.asset, 20) && Some(read.value.recipient) == HexBytes(r.recipient, 20)
       && read.value.amount == (if r.amount.Some? && r.amount.value > 0 then r.amount.value else 0)
       && Some(read.value.messageID) == HexBytes(r.messageID, 32)
       && read.value.deadline == r.deadline && read.value.signature == r.signature
  }

  /** What is sent for a release is exactly that. */
  lemma SentReleases(c: Crypto, sign: string -> string, chainID: nat, nonce: BigInt, gasPrice: BigInt,
                     gateway: string, r: ReleaseRequest)
    requires |r.signature| < TWO_64
    requires ReleaseTransaction(c, sign, chainID, nonce, gasPrice, gateway, r).Some?
    requires forall address: string, data: string ::
      var tx := Unsigned(nonce, gasPrice, Some(500_000), address, data);
      var signature := sign(c.keccak(SigningPayload(tx, chainID)));
      EncodeRelease(r) == Calldata.Calldata(data) && HexBytes(gateway, 20) == Some(address) && |signature| == 65 ==>
        Lengths(tx, chainID, signature)
    ensures var read := NodeReads(ReleaseTransaction(c, sign, chainID, nonce, gasPrice, gateway, r).value);
      read.Some? && Calls(read.value, gateway, r)
      && read.value.nonce == Natural(nonce) && read.value.gasPrice == Natural(gasPrice)
  {
    hide HexBytes, NodeReads, DecodeRelease, SigningPayload, Rebuilt, SignLegacy, Lengths;
    EncodesOrNot(r);
    var u := Unsigned(nonce, gasPrice, Some(500_000), gateway, EncodeRelease(r).bytes);
    SentIff(c, sign, chainID, u);
    var address := HexBytes(gateway, 20).value;
    assert u.(to := address) == Unsigned(nonce, gasPrice, Some(500_000), address, EncodeRelease(r).bytes);
    SentIsSigned(c, sign, chainID, u);
    CalldataRoundTrip(r);
    hide EncodeRelease;
  }

  lemma EncodesOrNot(r: ReleaseRequest)
    ensures EncodeRelease(r).Calldata? ==>
      HexBytes(r.asset, 20).Some? && HexBytes(r.recipient, 20).Some? && HexBytes(r.messageID, 32).Some?
  {
    hide HexBytes, Word;
  }
}
