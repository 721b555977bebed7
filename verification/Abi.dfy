/** The calldata of a release: six words, then the signature, as the Ethereum contract ABI lays them out. */
module Abi {
  import opened Base
  import opened Text
  import opened Canonical
  import opened Rlp

  datatype ReleaseRequest = ReleaseRequest(
    asset: string, recipient: string, amount: BigInt, messageID: string, deadline: U64, signature: string)

  /** `Overflow` stands for the panic of `copy` past the front of the word. */
  datatype Calldata = BadAsset | BadRecipient | BadMessageID | Overflow | Calldata(bytes: string)

  // ---- words ---------------------------------------------------------------------------

  predicate HexDigit(c: char) {
    '0' <= c <= '9' || 'a' <= c <= 'f' || 'A' <= c <= 'F'
  }

  function HexValue(c: char): (n: nat)
    requires HexDigit(c)
    ensures n < 16
  {
    if c <= '9' then c as int - '0' as int else if c <= 'F' then c as int - 'A' as int + 10
      else c as int - 'a' as int + 10
  }

  predicate AllHex(s: string) {
    forall i | 0 <= i < |s| :: HexDigit(s[i])
  }

  /** `hex.DecodeString` on an even number of hexadecimal digits. */
  function Unhex(s: string): (b: string)
    requires |s| % 2 == 0 && AllHex(s)
    ensures |b| == |s| / 2
  {
    if s == "" then "" else [Byte(16 * HexValue(s[0]) + HexValue(s[1]))] + Unhex(s[2..])
  }

  /** `decodeHexBytes`: one optional `0x`, then exactly `size` bytes. */
  function HexBytes(value: string, size: nat): (b: Option<string>)
    ensures b.Some? ==> |b.value| == size
  {
    var t := Trim(value);
    var s := if "0x" <= t then t[2..] else t;
    if |s| != 2 * size || !AllHex(s) then None else Some(Unhex(s))
  }

  function Zeros(n: nat): (s: string)
    ensures |s| == n
  {
    seq(n, _ => Byte(0))
  }

  /** `encodeBigIntWord`: nil, zero and negative amounts are the zero word. */
  function Word(value: BigInt): Option<string> {
    if !Positive(value) then Some(Zeros(32))
    else
      var b := MinBytes(value.value);
      if |b| > 32 then None else Some(Zeros(32 - |b|) + b)
  }

  /** `encodeDynamicBytes`: the length, the bytes, and zeros up to a word boundary. */
  function Dynamic(value: string): string {
    var size := BigEndian(|value|, 32);
    var rem := (32 + |value|) % 32;
    size + value + Zeros(if rem == 0 then 0 else 32 - rem)
  }

  /** `encodeReleaseCalldata` after the selector. */
  function EncodeRelease(r: ReleaseRequest): Calldata {
    if HexBytes(r.asset, 20).None? then BadAsset
    else if HexBytes(r.recipient, 20).None? then BadRecipient
    else if HexBytes(r.messageID, 32).None? then BadMessageID
    else if Word(r.amount).None? then Overflow
    else
      Calldata(Zeros(12) + HexBytes(r.asset, 20).value
             + (Zeros(12) + HexBytes(r.recipient, 20).value)
             + Word(r.amount).value
             + HexBytes(r.messageID, 32).value
             + BigEndian(r.deadline, 32)
             + BigEndian(192, 32)
             + Dynamic(r.signature))
  }

  // ---- what a contract reads back ----------------------------------------------------------

  datatype Arguments = Arguments(asset: string, recipient: string, amount: nat, messageID: string, deadline: nat,
    signature: string)

  function NumberAt(s: string, at: nat): int
    requires at + 32 <= |s|
  {
    BigEndianValue(s[at..at + 32])
  }

  /** The ABI decoder for (address, address, uint256, bytes32, uint64, bytes). */
  function DecodeRelease(s: string): Option<Arguments> {
    if |s| < 192 then None
    else
      var amount, deadline, offset := NumberAt(s, 64), NumberAt(s, 128), NumberAt(s, 160);
      if amount < 0 || deadline < 0 || offset < 0 || offset + 32 > |s| then None
      else
        var size := NumberAt(s, offset);
        if size < 0 || offset + 32 + size > |s| then None
        else Some(Arguments(s[12..32], s[44..64], amount, s[96..128], deadline, s[offset + 32..offset + 32 + size]))
  }

  /** What the request means: addresses and identifier as bytes, a missing or negative amount as zero. */
  function ArgumentsOf(r: ReleaseRequest): Arguments
    requires EncodeRelease(r).Calldata?
  {
    Arguments(HexBytes(r.asset, 20).value, HexBytes(r.recipient, 20).value, Natural(r.amount),
      HexBytes(r.messageID, 32).value,
              r.deadline, r.signature)
  }

  lemma {:induction false} LeadingZeros(n: nat, s: string)
    ensures BigEndianValue(Zeros(n) + s) == BigEndianValue(s)
    decreases |s|, n
  {
    var t := Zeros(n) + s;
    if s != "" {
      assert t[..|t| - 1] == Zeros(n) + s[..|s| - 1];
      LeadingZeros(n, s[..|s| - 1]);
    } else if n > 0 {
      assert t[..|t| - 1] == Zeros(n - 1) + "";
      LeadingZeros(n - 1, "");
    } else {
      assert t == s;
    }
  }

  /** A word is 32 bytes and reads back as the number. */
  lemma WordReadsBack(value: BigInt)
    ensures Word(value).Some? ==> |Word(value).value| == 32 && BigEndianValue(Word(value).value) == Natural(value)
  {
    if !Positive(value) {
      LeadingZeros(32, "");
      assert Zeros(32) + "" == Zeros(32);
    } else if Word(value).Some? {
      MinBytesValue(value.value);
      LeadingZeros(32 - |MinBytes(value.value)|, MinBytes(value.value));
    }
  }

  lemma {:induction false} MinBytesSize(n: nat, k: nat)
    ensures |MinBytes(n)| <= k <==> n < Pow256(k)
    decreases n
  {
    if n > 0 {
      if k == 0 {
        assert MinBytes(n) != "";
      } else {
        MinBytesSize(n / 256, k - 1);
        assert n / 256 < Pow256(k - 1) <==> n < 256 * Pow256(k - 1);
      }
    } else {
      PowPositive(k);
    }
  }

  lemma {:induction false} PowPositive(k: nat)
    ensures Pow256(k) > 0
  {
    if k > 0 { PowPositive(k - 1); }
  }

  lemma SmallNumbers()
    ensures 192 < TWO_64 < Pow256(32)
  {
    assert Pow256(8) == TWO_64 by {
      assert Pow256(4) == 0x1_0000_0000;
      assert Pow256(6) == 256 * 256 * Pow256(4);
    }
    PowGrows(8, 32);
  }

  lemma {:induction false} PowGrows(j: nat, k: nat)
    requires j < k
    ensures Pow256(j) < Pow256(k)
    decreases k
  {
    PowPositive(k - 1);
    if j < k - 1 { PowGrows(j, k - 1); }
  }

  /**
    Whatever was encoded, the ABI decoder reads back: both addresses, the amount, the identifier, the
    deadline and the signature byte for byte, found through the offset word; and the calldata is whole words.
   */
  lemma CalldataRoundTrip(r: ReleaseRequest)
    requires EncodeRelease(r).Calldata? && |r.signature| < TWO_64
    ensures DecodeRelease(EncodeRelease(r).bytes) == Some(ArgumentsOf(r))
    ensures |EncodeRelease(r).bytes| % 32 == 0
  {
    hide HexBytes, Pow256, BigEndianValue, Word, BigEndian;
    var asset, recipient := HexBytes(r.asset, 20).value, HexBytes(r.recipient, 20).value;
    var amount, id, deadline := Word(r.amount).value, HexBytes(r.messageID, 32).value, BigEndian(r.deadline, 32);
    var n := |r.signature|;
    var rem := (32 + n) % 32;
    var pad := Zeros(if rem == 0 then 0 else 32 - rem);
    var s := EncodeRelease(r).bytes;
    WordReadsBack(r.amount);
    SmallNumbers();
    BigEndianRoundTrip(r.deadline, 32);
    BigEndianRoundTrip(192, 32);
    BigEndianRoundTrip(n, 32);
    assert s == Zeros(12) + asset + (Zeros(12) + recipient) + amount + id + deadline + BigEndian(192, 32)
      + (BigEndian(n, 32) + r.signature + pad);
    assert s[12..32] == asset;
    assert s[44..64] == recipient;
    assert s[64..96] == amount;
    assert s[96..128] == id;
    assert s[128..160] == deadline;
    assert s[160..192] == BigEndian(192, 32);
    assert s[192..224] == BigEndian(n, 32);
    assert s[224..224 + n] == r.signature;
  }

  /** Two requests have the same calldata exactly when a contract reads the same arguments from both. */
  lemma CalldataUnambiguous(a: ReleaseRequest, b: ReleaseRequest)
    requires EncodeRelease(a).Calldata? && EncodeRelease(b).Calldata? && |a.signature| < TWO_64
    requires |b.signature| < TWO_64
    ensures EncodeRelease(a) == EncodeRelease(b) <==> ArgumentsOf(a) == ArgumentsOf(b)
  {
    CalldataRoundTrip(a);
    CalldataRoundTrip(b);
    if ArgumentsOf(a) == ArgumentsOf(b) { SameWord(a.amount, b.amount); }
    hide HexBytes, Word, BigEndian, DecodeRelease, Dynamic;
  }

  lemma SameWord(a: BigInt, b: BigInt)
    requires Natural(a) == Natural(b)
    ensures Word(a) == Word(b)
  {
  }

  /** The encoder overflows exactly for an amount that no uint256 holds. */
  lemma OverflowIff(r: ReleaseRequest)
    requires HexBytes(r.asset, 20).Some? && HexBytes(r.recipient, 20).Some? && HexBytes(r.messageID, 32).Some?
    ensures EncodeRelease(r).Overflow? <==> Positive(r.amount) && r.amount.value >= Pow256(32)
  {
    hide HexBytes, Pow256;
    if Positive(r.amount) { MinBytesSize(r.amount.value, 32); }
  }

  /** Two digits make a byte, the first the high half; each digit is what it says in either case. */
  lemma {:induction false} UnhexAt(s: string, i: nat)
    requires |s| % 2 == 0 && AllHex(s) && 2 * i < |s|
    ensures Unhex(s)[i] as int == 16 * HexValue(s[2 * i]) + HexValue(s[2 * i + 1])
    ensures "0123456789abcdef"[HexValue(s[2 * i])] == LowerChar(s[2 * i])
    ensures "0123456789abcdef"[HexValue(s[2 * i + 1])] == LowerChar(s[2 * i + 1])
  {
    if i > 0 { UnhexAt(s[2..], i - 1); }
  }

  /** A field is read exactly from that many bytes in hexadecimal, with or without `0x`, spaces around it aside. */
  lemma HexBytesIff(value: string, size: nat)
    ensures HexBytes(value, size).Some? <==>
      var t := Trim(value);
      var s := if |t| >= 2 && t[0] == '0' && t[1] == 'x' then t[2..] else t;
      |s| == 2 * size && forall i | 0 <= i < |s| :: HexDigit(s[i])
  {
    hide Trim, Unhex;
    var t := Trim(value);
    assert |t| >= 2 && t[0] == '0' && t[1] == 'x' ==> t[..2] == "0x";
    assert "0x" <= t ==> t[0] == "0x"[0] && t[1] == "0x"[1];
  }
}
