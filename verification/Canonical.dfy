/** Canonical claim encodings: the bytes that are hashed into replay keys and payload hashes. */
module Canonical {
  import opened Base
  import opened Text

  datatype ClaimIdentity = ClaimIdentity(
    kind: string,
    sourceAssetKind: string,
    sourceChainID: string,
    sourceContract: string,
    sourceTxHash: string,
    sourceLogIndex: U64,
    nonce: U64,
    messageID: string)

  datatype DepositClaim = DepositClaim(
    identity: ClaimIdentity,
    destinationChainID: string,
    assetID: string,
    amount: BigInt,
    recipient: string,
    deadline: U64)

  const KIND_DEPOSIT := "deposit"
  const KIND_WITHDRAWAL := "withdrawal"
  const ASSET_NATIVE_ETH := "native_eth"
  const ASSET_ERC20 := "erc20"

  // ---- the byte formats ------------------------------------------------------

  function Byte(n: nat): char
    requires n < 256
  {
    n as char
  }

  /** Base 128 varint: low seven bits first, the top bit says that more follow. */
  function Varint(n: nat): (s: string)
    ensures s != ""
    decreases n
  {
    if n < 128 then [Byte(n)] else [Byte(128 + n % 128)] + Varint(n / 128)
  }

  /** The `size` low bytes of `n`, most significant first. */
  function BigEndian(n: nat, size: nat): (s: string)
    ensures |s| == size
  {
    if size == 0 then "" else BigEndian(n / 256, size - 1) + [Byte(n % 256)]
  }

  /** A length-prefixed trimmed string, followed by `rest`. */
  function StringThen(value: string, rest: string): string {
    Varint(|Trim(value)|) + (Trim(value) + rest)
  }

  function Uint64Then(value: U64, rest: string): string {
    BigEndian(value, 8) + rest
  }

  function AmountText(amount: BigInt): string {
    if amount.None? then "" else Render(amount.value)
  }

  function CanonicalAssetKind(kind: string): string {
    var k := Trim(kind);
    if k == "" || k == ASSET_ERC20 then "" else k
  }

  function IdentityThen(c: ClaimIdentity, rest: string): string {
    StringThen(c.kind,
    StringThen(CanonicalAssetKind(c.sourceAssetKind),
    StringThen(c.sourceChainID,
    StringThen(c.sourceContract,
    StringThen(c.sourceTxHash,
    Uint64Then(c.sourceLogIndex,
    Uint64Then(c.nonce, rest)))))))
  }

  function IdentityBytes(c: ClaimIdentity): string {
    IdentityThen(c, "")
  }

  function DetailsThen(c: DepositClaim, rest: string): string {
    StringThen(c.destinationChainID,
    StringThen(c.assetID,
    StringThen(AmountText(c.amount),
    StringThen(c.recipient,
    Uint64Then(c.deadline, rest)))))
  }

  function ClaimBytes(c: DepositClaim): string {
    IdentityThen(c.identity, DetailsThen(c, ""))
  }

  /** `bytes.Buffer` with the two canonical writers. */
  class Buffer {
    var data: string

    constructor ()
      ensures data == ""
    {
      data := "";
    }

    // Each writer says where its bytes go by naming what will be written after them.

    /** `writeCanonicalString`, with the loop of `binary.PutUvarint` spelled out. */
    method WriteString(value: string, ghost rest: string)
      modifies this
      ensures data + rest == old(data) + StringThen(value, rest)
    {
      var normalized := Trim(value);
      var size := "";
      var left := |normalized|;
      while left >= 128
        invariant left >= 0
        invariant Varint(|normalized|) == size + Varint(left)
      {
        size := size + [Byte(128 + left % 128)];
        left := left / 128;
      }
      size := size + [Byte(left)];
      data := data + size;
      data := data + normalized;
      assert data + rest == old(data) + (size + (normalized + rest));
    }

    /** `writeCanonicalBigInt`. */
    method WriteAmount(value: BigInt, ghost rest: string)
      modifies this
      ensures data + rest == old(data) + StringThen(AmountText(value), rest)
    {
      if value.None? {
        WriteString("", rest);
        return;
      }
      WriteString(Render(value.value), rest);
    }

    method WriteUint64(value: U64, ghost rest: string)
      modifies this
      ensures data + rest == old(data) + Uint64Then(value, rest)
    {
      data := data + BigEndian(value, 8);
      assert data + rest == old(data) + (BigEndian(value, 8) + rest);
    }

    /** `canonicalIdentityBytes`. */
    method WriteIdentity(c: ClaimIdentity, ghost rest: string)
      modifies this
      ensures data + rest == old(data) + IdentityThen(c, rest)
    {
      ghost var r6 := Uint64Then(c.nonce, rest);
      ghost var r5 := Uint64Then(c.sourceLogIndex, r6);
      ghost var r4 := StringThen(c.sourceTxHash, r5);
      ghost var r3 := StringThen(c.sourceContract, r4);
      ghost var r2 := StringThen(c.sourceChainID, r3);
      var kind := CanonicalAssetKind(c.sourceAssetKind);
      WriteString(c.kind, StringThen(kind, r2));
      WriteString(kind, r2);
      WriteString(c.sourceChainID, r3);
      WriteString(c.sourceContract, r4);
      WriteString(c.sourceTxHash, r5);
      WriteUint64(c.sourceLogIndex, r6);
      WriteUint64(c.nonce, rest);
    }

    /** `canonicalClaimBytes`, into a fresh buffer. */
    method WriteClaim(c: DepositClaim)
      requires data == ""
      modifies this
      ensures data == ClaimBytes(c)
    {
      ghost var r4 := Uint64Then(c.deadline, "");
      ghost var r3 := StringThen(c.recipient, r4);
      ghost var r2 := StringThen(AmountText(c.amount), r3);
      ghost var r1 := StringThen(c.assetID, r2);
      WriteIdentity(c.identity, StringThen(c.destinationChainID, r1));
      WriteString(c.destinationChainID, r1);
      WriteString(c.assetID, r2);
      WriteAmount(c.amount, r3);
      WriteString(c.recipient, r4);
      WriteUint64(c.deadline, "");
      assert data == data + "" == "" + ClaimBytes(c);
    }
  }

  // ---- the decoder -------------------------------------------------------------

  /** A parsed value and the bytes that follow it. */
  datatype Parsed<+T> = NoParse | Parsed(value: T, rest: string)

  function DecodeVarint(s: string): (r: Parsed<nat>)
    ensures r.Parsed? ==> |r.rest| < |s|
  {
    if s == "" || s[0] as int >= 256 then NoParse
    else if s[0] as int < 128 then Parsed(s[0] as int, s[1..])
    else match DecodeVarint(s[1..])
      case NoParse => NoParse
      case Parsed(high, rest) => Parsed(s[0] as int - 128 + 128 * high, rest)
  }

  function DecodeString(s: string): Parsed<string> {
    match DecodeVarint(s)
    case NoParse => NoParse
    case Parsed(n, rest) => if n <= |rest| then Parsed(rest[..n], rest[n..]) else NoParse
  }

  function BigEndianValue(s: string): int {
    if s == "" then 0 else 256 * BigEndianValue(s[..|s| - 1]) + s[|s| - 1] as int
  }

  function DecodeUint64(s: string): Parsed<int> {
    if |s| < 8 then NoParse else Parsed(BigEndianValue(s[..8]), s[8..])
  }

  /** What the encoding keeps of a claim: trimmed fields, `erc20` identified with the empty kind. */
  datatype ClaimView = ClaimView(
    kind: string, assetKind: string, chainID: string, contract: string, txHash: string,
    logIndex: int, nonce: int,
    destination: string, assetID: string, amount: string, recipient: string, deadline: int)

  function View(c: DepositClaim): ClaimView {
    ClaimView(
      Trim(c.identity.kind), CanonicalAssetKind(c.identity.sourceAssetKind), Trim(c.identity.sourceChainID),
      Trim(c.identity.sourceContract), Trim(c.identity.sourceTxHash),
      c.identity.sourceLogIndex, c.identity.nonce,
      Trim(c.destinationChainID), Trim(c.assetID), AmountText(c.amount), Trim(c.recipient), c.deadline)
  }

  datatype IdentityView = IdentityView(
    kind: string, assetKind: string, chainID: string, contract: string, txHash: string, logIndex: int, nonce: int)

  function ViewIdentity(c: ClaimIdentity): IdentityView {
    IdentityView(Trim(c.kind), CanonicalAssetKind(c.sourceAssetKind), Trim(c.sourceChainID),
                 Trim(c.sourceContract), Trim(c.sourceTxHash), c.sourceLogIndex, c.nonce)
  }

  function DecodeIdentity(s: string): Parsed<IdentityView> {
    var kind := DecodeString(s);
    if kind.NoParse? then NoParse else
    var assetKind := DecodeString(kind.rest);
    if assetKind.NoParse? then NoParse else
    var chainID := DecodeString(assetKind.rest);
    if chainID.NoParse? then NoParse else
    var contract := DecodeString(chainID.rest);
    if contract.NoParse? then NoParse else
    var txHash := DecodeString(contract.rest);
    if txHash.NoParse? then NoParse else
    var logIndex := DecodeUint64(txHash.rest);
    if logIndex.NoParse? then NoParse else
    var nonce := DecodeUint64(logIndex.rest);
    if nonce.NoParse? then NoParse else
    Parsed(IdentityView(kind.value, assetKind.value, chainID.value, contract.value, txHash.value,
                        logIndex.value, nonce.value), nonce.rest)
  }

  /** Decodes a whole buffer; bytes left over make it fail. */
  function DecodeClaim(s: string): Option<ClaimView> {
    var id := DecodeIdentity(s);
    if id.NoParse? then None else
    var destination := DecodeString(id.rest);
    if destination.NoParse? then None else
    var assetID := DecodeString(destination.rest);
    if assetID.NoParse? then None else
    var amount := DecodeString(assetID.rest);
    if amount.NoParse? then None else
    var recipient := DecodeString(amount.rest);
    if recipient.NoParse? then None else
    var deadline := DecodeUint64(recipient.rest);
    if deadline.NoParse? || deadline.rest != "" then None else
    var i := id.value;
    Some(ClaimView(i.kind, i.assetKind, i.chainID, i.contract, i.txHash, i.logIndex, i.nonce,
                   destination.value, assetID.value, amount.value, recipient.value, deadline.value))
  }

  // ---- round trips ---------------------------------------------------------------

  lemma {:induction false} VarintRoundTrip(n: nat, rest: string)
    ensures DecodeVarint(Varint(n) + rest) == Parsed(n, rest)
    decreases n
  {
    var s := Varint(n) + rest;
    if n < 128 {
      assert s[1..] == rest;
    } else {
      VarintRoundTrip(n / 128, rest);
      assert s[1..] == Varint(n / 128) + rest;
    }
  }

  lemma StringRoundTrip(value: string, rest: string)
    ensures DecodeString(StringThen(value, rest)) == Parsed(Trim(value), rest)
  {
    VarintRoundTrip(|Trim(value)|, Trim(value) + rest);
  }

  lemma {:induction false} BigEndianRoundTrip(n: nat, size: nat)
    requires n < Pow256(size)
    ensures BigEndianValue(BigEndian(n, size)) == n
  {
    if size > 0 {
      BigEndianRoundTrip(n / 256, size - 1);
      var s := BigEndian(n, size);
      assert s[..|s| - 1] == BigEndian(n / 256, size - 1);
    }
  }

  function Pow256(n: nat): nat {
    if n == 0 then 1 else 256 * Pow256(n - 1)
  }

  lemma Uint64RoundTrip(n: U64, rest: string)
    ensures DecodeUint64(Uint64Then(n, rest)) == Parsed(n, rest)
  {
    assert Pow256(8) == TWO_64 by {
      assert Pow256(4) == 0x1_0000_0000;
      assert Pow256(6) == 256 * 256 * Pow256(4);
    }
    BigEndianRoundTrip(n, 8);
    var s := BigEndian(n, 8) + rest;
    assert s[..8] == BigEndian(n, 8) && s[8..] == rest;
  }

  lemma IdentityRoundTrip(c: ClaimIdentity, rest: string)
    ensures DecodeIdentity(IdentityThen(c, rest)) == Parsed(ViewIdentity(c), rest)
  {
    var r6 := Uint64Then(c.nonce, rest);
    var r5 := Uint64Then(c.sourceLogIndex, r6);
    var r4 := StringThen(c.sourceTxHash, r5);
    var r3 := StringThen(c.sourceContract, r4);
    var r2 := StringThen(c.sourceChainID, r3);
    var kind := CanonicalAssetKind(c.sourceAssetKind);
    StringRoundTrip(c.kind, StringThen(kind, r2));
    StringRoundTrip(kind, r2);
    TrimTwice(c.sourceAssetKind);
    assert Trim(kind) == kind;
    StringRoundTrip(c.sourceChainID, r3);
    StringRoundTrip(c.sourceContract, r4);
    StringRoundTrip(c.sourceTxHash, r5);
    Uint64RoundTrip(c.sourceLogIndex, r6);
    Uint64RoundTrip(c.nonce, rest);
  }

  lemma AmountTextFacts(amount: BigInt)
    ensures Trim(AmountText(amount)) == AmountText(amount)
    ensures forall other: BigInt :: AmountText(amount) == AmountText(other) <==> amount == other
  {
    if amount.Some? { ParseRender(amount.value); }
    forall other: BigInt | AmountText(amount) == AmountText(other) ensures amount == other {
      if amount.Some? && other.Some? { RenderInjective(amount.value, other.value); }
    }
  }

  /** The canonical bytes of every claim decode back to its normalized fields. */
  lemma ClaimRoundTrip(c: DepositClaim)
    ensures DecodeClaim(ClaimBytes(c)) == Some(View(c))
  {
    var r4 := Uint64Then(c.deadline, "");
    var r3 := StringThen(c.recipient, r4);
    var r2 := StringThen(AmountText(c.amount), r3);
    var r1 := StringThen(c.assetID, r2);
    IdentityRoundTrip(c.identity, StringThen(c.destinationChainID, r1));
    StringRoundTrip(c.destinationChainID, r1);
    StringRoundTrip(c.assetID, r2);
    StringRoundTrip(AmountText(c.amount), r3);
    AmountTextFacts(c.amount);
    StringRoundTrip(c.recipient, r4);
    Uint64RoundTrip(c.deadline, "");
  }

  /** The claims agree on every field the bridge acts on. */
  predicate SameClaim(a: DepositClaim, b: DepositClaim) {
    && SameIdentity(a.identity, b.identity)
    && Trim(a.destinationChainID) == Trim(b.destinationChainID)
    && Trim(a.assetID) == Trim(b.assetID)
    && a.amount == b.amount
    && Trim(a.recipient) == Trim(b.recipient)
    && a.deadline == b.deadline
  }

  predicate SameIdentity(a: ClaimIdentity, b: ClaimIdentity) {
    && Trim(a.kind) == Trim(b.kind)
    && (Trim(a.sourceAssetKind) == Trim(b.sourceAssetKind)
        || {Trim(a.sourceAssetKind), Trim(b.sourceAssetKind)} == {"", ASSET_ERC20})
    && Trim(a.sourceChainID) == Trim(b.sourceChainID)
    && Trim(a.sourceContract) == Trim(b.sourceContract)
    && Trim(a.sourceTxHash) == Trim(b.sourceTxHash)
    && a.sourceLogIndex == b.sourceLogIndex
    && a.nonce == b.nonce
  }

  lemma ViewIdentityIff(a: ClaimIdentity, b: ClaimIdentity)
    ensures ViewIdentity(a) == ViewIdentity(b) <==> SameIdentity(a, b)
  {
    var x, y := Trim(a.sourceAssetKind), Trim(b.sourceAssetKind);
    assert CanonicalAssetKind(a.sourceAssetKind) == CanonicalAssetKind(b.sourceAssetKind)
      <==> x == y || {x, y} == {"", ASSET_ERC20} by {
      if x != y && {x, y} == {"", ASSET_ERC20} {
        assert x in {"", ASSET_ERC20} && y in {"", ASSET_ERC20};
      }
    }
  }

  /** Equal bytes exactly when the claims agree: nothing is lost or confused before hashing. */
  lemma ClaimBytesUnambiguous(a: DepositClaim, b: DepositClaim)
    ensures ClaimBytes(a) == ClaimBytes(b) <==> SameClaim(a, b)
  {
    ClaimRoundTrip(a);
    ClaimRoundTrip(b);
    ViewIdentityIff(a.identity, b.identity);
    AmountTextFacts(a.amount);
  }

  /** The same for the bytes behind the replay key. */
  lemma IdentityBytesUnambiguous(a: ClaimIdentity, b: ClaimIdentity)
    ensures IdentityBytes(a) == IdentityBytes(b) <==> SameIdentity(a, b)
  {
    IdentityRoundTrip(a, "");
    IdentityRoundTrip(b, "");
    ViewIdentityIff(a, b);
    if SameIdentity(a, b) {
      var k := CanonicalAssetKind(a.sourceAssetKind);
      assert k == CanonicalAssetKind(b.sourceAssetKind);
    }
  }

  // ---- the layout ---------------------------------------------------------------------------------------

  /** A trimmed string behind its length. */
  function Field(value: string): string {
    Varint(|Trim(value)|) + Trim(value)
  }

  /** The fields of a claim, one behind the other, in the order in which they are hashed. */
  lemma ClaimLayout(c: DepositClaim)
    ensures IdentityBytes(c.identity) ==
      Field(c.identity.kind) + Field(CanonicalAssetKind(c.identity.sourceAssetKind)) + Field(c.identity.sourceChainID)
      + Field(c.identity.sourceContract) + Field(c.identity.sourceTxHash) + BigEndian(c.identity.sourceLogIndex, 8)
      + BigEndian(c.identity.nonce, 8)
    ensures ClaimBytes(c) ==
      IdentityBytes(c.identity) + Field(c.destinationChainID) + Field(c.assetID) + Field(AmountText(c.amount))
      + Field(c.recipient) + BigEndian(c.deadline, 8)
  {
    hide Trim, Varint, BigEndian, CanonicalAssetKind, AmountText;
    IdentityLayout(c.identity, "");
    IdentityLayout(c.identity, DetailsThen(c, ""));
    DetailsLayout(c);
    hide Field, IdentityThen, DetailsThen;
    var tail := Field(c.destinationChainID) + Field(c.assetID) + Field(AmountText(c.amount)) + Field(c.recipient)
      + BigEndian(c.deadline, 8);
    assert DetailsThen(c, "") == tail;
  }

  lemma IdentityLayout(id: ClaimIdentity, rest: string)
    ensures IdentityThen(id, rest) ==
      Field(id.kind) + Field(CanonicalAssetKind(id.sourceAssetKind)) + Field(id.sourceChainID)
      + Field(id.sourceContract) + Field(id.sourceTxHash) + BigEndian(id.sourceLogIndex, 8) + BigEndian(id.nonce, 8)
      + rest
  {
    hide Trim, Varint, BigEndian, CanonicalAssetKind;
    var a, b, d, e, f := Field(id.kind), Field(CanonicalAssetKind(id.sourceAssetKind)), Field(id.sourceChainID),
                         Field(id.sourceContract), Field(id.sourceTxHash);
    var g, h := BigEndian(id.sourceLogIndex, 8), BigEndian(id.nonce, 8);
    FieldThen(id.sourceTxHash, g + (h + rest));
    FieldThen(id.sourceContract, f + (g + (h + rest)));
    FieldThen(id.sourceChainID, e + (f + (g + (h + rest))));
    FieldThen(CanonicalAssetKind(id.sourceAssetKind), d + (e + (f + (g + (h + rest)))));
    FieldThen(id.kind, b + (d + (e + (f + (g + (h + rest))))));
    hide Field, StringThen;
    assert a + (b + (d + (e + (f + (g + (h + rest)))))) == a + b + d + e + f + g + h + rest;
  }

  lemma DetailsLayout(c: DepositClaim)
    ensures DetailsThen(c, "") ==
      Field(c.destinationChainID) + Field(c.assetID) + Field(AmountText(c.amount)) + Field(c.recipient)
      + BigEndian(c.deadline, 8)
  {
    hide Trim, Varint, BigEndian, AmountText;
    var a, b, d, e, f := Field(c.destinationChainID), Field(c.assetID), Field(AmountText(c.amount)),
                         Field(c.recipient), BigEndian(c.deadline, 8);
    FieldThen(c.recipient, f + "");
    FieldThen(AmountText(c.amount), e + (f + ""));
    FieldThen(c.assetID, d + (e + (f + "")));
    FieldThen(c.destinationChainID, b + (d + (e + (f + ""))));
    hide Field, StringThen;
    assert a + (b + (d + (e + (f + "")))) == a + b + d + e + f;
  }

  lemma FieldThen(value: string, rest: string)
    ensures StringThen(value, rest) == Field(value) + rest
  {
    hide Trim, Varint;
  }
}
