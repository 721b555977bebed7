/** RLP as the release target writes it, and a decoder after Appendix B of the Ethereum Yellow Paper. */
module Rlp {
  import opened Base
  import opened Canonical

  // ---- encoders --------------------------------------------------------------------

  /** `(*big.Int).Bytes()`: big endian without leading zeros. */
  function MinBytes(n: nat): (s: string)
    ensures n > 0 ==> s != ""
  {
    if n == 0 then "" else MinBytes(n / 256) + [Byte(n % 256)]
  }

  /** `rlpEncodeLength`: the byte addition wraps. */
  function EncodeLength(length: nat, offset: nat): string {
    [Byte((offset + |MinBytes(length)|) % 256)] + MinBytes(length)
  }

  /** A payload with its header; `short` is 0x80 for strings and 0xc0 for lists. */
  function Wrap(short: nat, payload: string): string
    requires short + 55 < 256
  {
    if |payload| <= 55 then [Byte(short + |payload|)] + payload
    else EncodeLength(|payload|, short + 55) + payload
  }

  predicate IsSingle(value: string) {
    |value| == 1 && value[0] as int < 0x80
  }

  function EncodeBytes(value: string): string {
    if IsSingle(value) then value else Wrap(0x80, value)
  }

  function EncodeBigInt(value: BigInt): string {
    if !Positive(value) then [Byte(0x80)] else EncodeBytes(MinBytes(value.value))
  }

  function Concat(values: seq<string>): string {
    if values == [] then "" else values[0] + Concat(values[1..])
  }

  function EncodeList(values: seq<string>): string {
    Wrap(0xc0, Concat(values))
  }

  /** The loop that peels bytes off the length. */
  method RlpEncodeLength(length: nat, offset: nat) returns (out: string)
    ensures length > 0 ==> out == EncodeLength(length, offset)
    ensures length == 0 ==> out == [Byte(offset % 256)] == EncodeLength(0, offset)
  {
    if length == 0 {
      return [Byte(offset % 256)];
    }
    var encoded := "";
    var value := length;
    while value > 0
      invariant MinBytes(length) == MinBytes(value) + encoded
    {
      encoded := [Byte(value % 256)] + encoded;
      value := value / 256;
    }
    out := [Byte((offset + |encoded|) % 256)] + encoded;
  }

  method RlpEncodeBytes(value: string) returns (out: string)
    ensures out == EncodeBytes(value)
  {
    if |value| == 1 && value[0] as int < 0x80 {
      return [value[0]];
    }
    if |value| <= 55 {
      return [Byte(0x80 + |value|)] + value;
    }
    var header := RlpEncodeLength(|value|, 0xb7);
    out := header + value;
  }

  /** The loop that gathers the encoded members. */
  method RlpEncodeList(values: seq<string>) returns (out: string)
    ensures out == EncodeList(values)
  {
    var payload := "";
    for i := 0 to |values|
      invariant payload + Concat(values[i..]) == Concat(values)
    {
      assert values[i..][1..] == values[i + 1..];
      payload := payload + values[i];
    }
    assert values[|values|..] == [];
    if |payload| <= 55 {
      return [Byte(0xc0 + |payload|)] + payload;
    }
    var header := RlpEncodeLength(|payload|, 0xf7);
    out := header + payload;
  }

  // ---- items and the decoder ------------------------------------------------------------

  datatype Item = Str(bytes: string) | List(items: seq<Item>)

  function Encode(item: Item): string {
    match item
    case Str(bytes) => EncodeBytes(bytes)
    case List(items) => Wrap(0xc0, EncodeAll(items))
  }

  function EncodeAll(items: seq<Item>): string {
    if items == [] then "" else Encode(items[0]) + EncodeAll(items[1..])
  }

  /** Only bytes, and every payload length fits Go's int. */
  ghost predicate Fits(item: Item) {
    match item
    case Str(bytes) => |bytes| < TWO_64 && forall i | 0 <= i < |bytes| :: bytes[i] as int < 256
    case List(items) => |EncodeAll(items)| < TWO_64 && AllFit(items)
  }

  ghost predicate AllFit(items: seq<Item>) {
    items != [] ==> Fits(items[0]) && AllFit(items[1..])
  }

  datatype Header = NoHeader | Single(byte: char, rest: string) | Header(list: bool, payload: string, rest: string)

  /** The first byte decides between a single byte, a string and a list, short or long. */
  function ReadHeader(s: string): (h: Header)
    ensures h.Single? ==> |h.rest| < |s|
    ensures h.Header? ==> |h.payload| < |s| && |h.rest| < |s|
  {
    if s == "" || s[0] as int >= 256 then NoHeader
    else
      var b := s[0] as int;
      if b < 0x80 then Single(s[0], s[1..])
      else if b <= 0xb7 then Take(false, b - 0x80, s[1..])
      else if b <= 0xbf then TakeLong(false, b - 0xb7, s[1..])
      else if b <= 0xf7 then Take(true, b - 0xc0, s[1..])
      else TakeLong(true, b - 0xf7, s[1..])
  }

  function Take(list: bool, n: int, s: string): (h: Header)
    ensures h.Header? ==> |h.payload| <= |s| && |h.rest| <= |s|
    ensures !h.Single?
  {
    if 0 <= n <= |s| then Header(list, s[..n], s[n..]) else NoHeader
  }

  function TakeLong(list: bool, size: nat, s: string): (h: Header)
    ensures h.Header? ==> |h.payload| <= |s| && |h.rest| <= |s|
    ensures !h.Single?
  {
    if size <= |s| then Take(list, BigEndianValue(s[..size]), s[size..]) else NoHeader
  }

  function Decode(s: string): (r: Parsed<Item>)
    ensures r.Parsed? ==> |r.rest| < |s|
    decreases |s|, 0
  {
    match ReadHeader(s)
    case NoHeader => NoParse
    case Single(b, rest) => Parsed(Str([b]), rest)
    case Header(false, payload, rest) => Parsed(Str(payload), rest)
    case Header(true, payload, rest) =>
      match DecodeAll(payload)
      case None => NoParse
      case Some(items) => Parsed(List(items), rest)
  }

  function DecodeAll(s: string): Option<seq<Item>>
    decreases |s|, 1
  {
    if s == "" then Some([])
    else match Decode(s)
      case NoParse => None
      case Parsed(item, rest) =>
        match DecodeAll(rest)
        case None => None
        case Some(items) => Some([item] + items)
  }

  // ---- round trips ----------------------------------------------------------------------

  lemma {:induction false} MinBytesValue(n: nat)
    ensures BigEndianValue(MinBytes(n)) == n
  {
    if n > 0 {
      MinBytesValue(n / 256);
      var s := MinBytes(n);
      assert s[..|s| - 1] == MinBytes(n / 256);
    }
  }

  lemma {:induction false} MinBytesShort(n: nat, k: nat)
    requires n < Pow256(k)
    ensures |MinBytes(n)| <= k
  {
    if n > 0 && k > 0 {
      MinBytesShort(n / 256, k - 1);
    }
  }

  lemma LengthBytes(n: nat)
    requires 55 < n < TWO_64
    ensures 1 <= |MinBytes(n)| <= 8
  {
    assert Pow256(8) == TWO_64 by {
      assert Pow256(4) == 0x1_0000_0000;
      assert Pow256(6) == 256 * 256 * Pow256(4);
    }
    MinBytesShort(n, 8);
  }

  lemma TakeExact(list: bool, payload: string, rest: string)
    ensures Take(list, |payload|, payload + rest) == Header(list, payload, rest)
  {
  }

  lemma LongExact(list: bool, payload: string, rest: string)
    ensures TakeLong(list, |MinBytes(|payload|)|, MinBytes(|payload|) + (payload + rest)) == Header(list, payload, rest)
  {
    var len := MinBytes(|payload|);
    MinBytesValue(|payload|);
    var s := len + (payload + rest);
    assert s[..|len|] == len && s[|len|..] == payload + rest;
    TakeExact(list, payload, rest);
  }

  /** Short or long, string or list: the header reader finds the payload and what follows it. */
  lemma WrapRoundTrip(list: bool, payload: string, rest: string)
    requires |payload| < TWO_64
    ensures ReadHeader(Wrap(if list then 0xc0 else 0x80, payload) + rest) == Header(list, payload, rest)
  {
    hide Take, TakeLong, MinBytes;
    var short := if list then 0xc0 else 0x80;
    var s := Wrap(short, payload) + rest;
    if |payload| <= 55 {
      assert s[1..] == payload + rest;
      TakeExact(list, payload, rest);
    } else {
      LengthBytes(|payload|);
      assert s[1..] == MinBytes(|payload|) + (payload + rest);
      LongExact(list, payload, rest);
    }
  }

  /** Decoding inverts encoding for every item, whatever follows it. */
  lemma {:induction false} RoundTrip(item: Item, rest: string)
    requires Fits(item)
    ensures Decode(Encode(item) + rest) == Parsed(item, rest)
    decreases item, 1
  {
    hide Wrap, ReadHeader;
    match item
    case Str(bytes) =>
      if IsSingle(bytes) {
        SingleByte(bytes, rest);
      } else {
        WrapRoundTrip(false, bytes, rest);
      }
    case List(items) =>
      WrapRoundTrip(true, EncodeAll(items), rest);
      AllRoundTrip(items);
  }

  lemma SingleByte(bytes: string, rest: string)
    requires IsSingle(bytes)
    ensures ReadHeader(bytes + rest) == Single(bytes[0], rest) && bytes == [bytes[0]]
  {
    assert (bytes + rest)[1..] == rest;
  }

  lemma {:induction false} AllRoundTrip(items: seq<Item>)
    requires AllFit(items)
    ensures DecodeAll(EncodeAll(items)) == Some(items)
    decreases items, 0
  {
    hide Encode, Decode;
    if items != [] {
      RoundTrip(items[0], EncodeAll(items[1..]));
      AllRoundTrip(items[1..]);
      NotEmpty(items[0], EncodeAll(items[1..]));
      assert items == [items[0]] + items[1..];
    }
  }

  lemma NotEmpty(item: Item, rest: string)
    ensures Encode(item) + rest != ""
  {
  }

  // ---- the signed legacy transaction -----------------------------------------------------------

  datatype LegacyTx = LegacyTx(
    nonce: BigInt, gasPrice: BigInt, gasLimit: BigInt, to: string, value: BigInt, data: string,
    v: BigInt, r: BigInt, s: BigInt)

  /** The nine encoded fields, in the order they are signed and sent. */
  function TxFields(tx: LegacyTx): seq<string> {
    [EncodeBigInt(tx.nonce), EncodeBigInt(tx.gasPrice), EncodeBigInt(tx.gasLimit), EncodeBytes(tx.to),
      EncodeBigInt(tx.value),
     EncodeBytes(tx.data), EncodeBigInt(tx.v), EncodeBigInt(tx.r), EncodeBigInt(tx.s)]
  }

  function Natural(n: BigInt): nat {
    if Positive(n) then n.value else 0
  }

  function IntItem(n: BigInt): Item {
    Str(MinBytes(Natural(n)))
  }

  function TxItems(tx: LegacyTx): seq<Item> {
    [IntItem(tx.nonce), IntItem(tx.gasPrice), IntItem(tx.gasLimit), Str(tx.to), IntItem(tx.value),
     Str(tx.data), IntItem(tx.v), IntItem(tx.r), IntItem(tx.s)]
  }

  lemma IntItemEncodes(n: BigInt)
    ensures Encode(IntItem(n)) == EncodeBigInt(n)
  {
    if !Positive(n) {
      assert MinBytes(0) == "" && Wrap(0x80, "") == [Byte(0x80)];
    }
  }

  lemma {:induction false} ConcatEncodes(items: seq<Item>, fields: seq<string>)
    requires |items| == |fields| && forall i | 0 <= i < |items| :: Encode(items[i]) == fields[i]
    ensures EncodeAll(items) == Concat(fields)
  {
    if items != [] {
      ConcatEncodes(items[1..], fields[1..]);
    }
  }

  lemma TxEncodes(tx: LegacyTx)
    ensures EncodeList(TxFields(tx)) == Encode(List(TxItems(tx)))
  {
    hide EncodeBytes, EncodeBigInt, Concat, EncodeAll, Wrap;
    IntItemEncodes(tx.nonce); IntItemEncodes(tx.gasPrice); IntItemEncodes(tx.gasLimit); IntItemEncodes(tx.value);
    IntItemEncodes(tx.v); IntItemEncodes(tx.r); IntItemEncodes(tx.s);
    ConcatEncodes(TxItems(tx), TxFields(tx));
  }

  /** All nine fields of a sent transaction are determined by its bytes, integers up to clamping at zero. */
  lemma TxUnambiguous(a: LegacyTx, b: LegacyTx)
    requires Fits(List(TxItems(a))) && Fits(List(TxItems(b)))
    ensures EncodeList(TxFields(a)) == EncodeList(TxFields(b)) <==>
      && Natural(a.nonce) == Natural(b.nonce) && Natural(a.gasPrice) == Natural(b.gasPrice)
      && Natural(a.gasLimit) == Natural(b.gasLimit) && a.to == b.to && Natural(a.value) == Natural(b.value)
      && a.data == b.data && Natural(a.v) == Natural(b.v) && Natural(a.r) == Natural(b.r)
      && Natural(a.s) == Natural(b.s)
  {
    hide Encode, Decode, EncodeList, Fits, MinBytes, Natural, EncodeBytes, EncodeBigInt;
    TxEncodes(a);
    TxEncodes(b);
    var x, y := List(TxItems(a)), List(TxItems(b));
    RoundTrip(x, "");
    RoundTrip(y, "");
    assert Encode(x) + "" == Encode(x) && Encode(y) + "" == Encode(y);
    if Encode(x) == Encode(y) {
      assert TxItems(a) == TxItems(b);
      SameInt(a.nonce, b.nonce, TxItems(a)[0], TxItems(b)[0]);
      SameInt(a.gasPrice, b.gasPrice, TxItems(a)[1], TxItems(b)[1]);
      SameInt(a.gasLimit, b.gasLimit, TxItems(a)[2], TxItems(b)[2]);
      assert TxItems(a)[3] == TxItems(b)[3] && TxItems(a)[5] == TxItems(b)[5];
      SameInt(a.value, b.value, TxItems(a)[4], TxItems(b)[4]);
      SameInt(a.v, b.v, TxItems(a)[6], TxItems(b)[6]);
      SameInt(a.r, b.r, TxItems(a)[7], TxItems(b)[7]);
      SameInt(a.s, b.s, TxItems(a)[8], TxItems(b)[8]);
    }
  }

  lemma SameInt(m: BigInt, n: BigInt, x: Item, y: Item)
    requires x == IntItem(m) && y == IntItem(n) && x == y
    ensures Natural(m) == Natural(n)
  {
    MinBytesValue(Natural(m));
    MinBytesValue(Natural(n));
  }

  /** The number a decoded integer field stands for. */
  predicate Reads(item: Item, n: BigInt) {
    item.Str? && BigEndianValue(item.bytes) == if n.Some? && n.value > 0 then n.value else 0
  }

  lemma IntReads(n: BigInt)
    ensures Reads(IntItem(n), n)
  {
    MinBytesValue(Natural(n));
  }

  /**
    What decoding the sent bytes gives: a list of nine, being nonce, gas price, gas limit, recipient, value, data and
    the three parts of the signature, in that order.
   */
  lemma TxReadsBack(tx: LegacyTx)
    requires Fits(List(TxItems(tx)))
    ensures var read := Decode(EncodeList(TxFields(tx)));
      && read.Parsed? && read.rest == "" && read.value.List? && |read.value.items| == 9
      && var items := read.value.items;
      && Reads(items[0], tx.nonce) && Reads(items[1], tx.gasPrice) && Reads(items[2], tx.gasLimit)
      && items[3] == Str(tx.to) && Reads(items[4], tx.value) && items[5] == Str(tx.data)
      && Reads(items[6], tx.v) && Reads(items[7], tx.r) && Reads(items[8], tx.s)
  {
    hide Encode, Decode, EncodeList, Fits, MinBytes, Natural, EncodeBytes, EncodeBigInt, Reads, IntItem, BigEndianValue;
    TxEncodes(tx);
    var x := List(TxItems(tx));
    RoundTrip(x, "");
    assert Encode(x) + "" == Encode(x);
    IntReads(tx.nonce); IntReads(tx.gasPrice); IntReads(tx.gasLimit); IntReads(tx.value);
    IntReads(tx.v); IntReads(tx.r); IntReads(tx.s);
  }
}
