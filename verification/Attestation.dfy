/** Attestations, their validation, and the payloads that attesters and voters sign. */
module Attestations {
  import opened Base
  import opened Text
  import opened Sorting

  datatype Proof = Proof(signer: string, signature: string)

  datatype Attestation = Attestation(
    messageID: string,
    payloadHash: string,
    signers: seq<string>,
    proofs: seq<Proof>,
    threshold: U32,
    expiry: U64,
    signerSetVersion: U64)

  const MAX_PROOFS := 128

  // ---- validation -------------------------------------------------------------

  predicate ValidEnvelope(a: Attestation) {
    && Trim(a.messageID) != ""
    && Trim(a.payloadHash) != ""
    && a.threshold != 0
    && a.expiry != 0
    && a.signerSetVersion != 0
  }

  function Trimmed(names: seq<string>): (r: seq<string>)
    ensures |r| == |names| && forall i | 0 <= i < |r| :: r[i] == Trim(names[i])
  {
    seq(|names|, i requires 0 <= i < |names| => Trim(names[i]))
  }

  function ProofSigners(proofs: seq<Proof>): (r: seq<string>)
    ensures |r| == |proofs| && forall i | 0 <= i < |r| :: r[i] == proofs[i].signer
  {
    seq(|proofs|, i requires 0 <= i < |proofs| => proofs[i].signer)
  }

  /** No name is blank and no two names agree after trimming. */
  ghost predicate DistinctNames(names: seq<string>) {
    && (forall i | 0 <= i < |names| :: Trim(names[i]) != "")
    && Distinct(Trimmed(names))
  }

  /** What `Attestation.ValidateBasic` accepts. */
  ghost predicate ValidAttestation(a: Attestation) {
    && ValidEnvelope(a)
    && 0 < |a.proofs| <= MAX_PROOFS
    && a.threshold <= |a.proofs|
    && (forall i | 0 <= i < |a.proofs| :: a.proofs[i].signature != "")
    && DistinctNames(ProofSigners(a.proofs))
    && DistinctNames(a.signers)
  }

  lemma OneMoreName(names: seq<string>, i: nat, seen: set<string>)
    requires i < |names| && DistinctNames(names[..i]) && seen == SeenNames(names[..i])
    ensures DistinctNames(names[..i + 1]) <==> Trim(names[i]) != "" && Trim(names[i]) !in seen
    ensures SeenNames(names[..i + 1]) == seen + {Trim(names[i])}
  {
    hide Trim;
    var before, after := Trimmed(names[..i]), Trimmed(names[..i + 1]);
    assert after == before + [Trim(names[i])];
    if Trim(names[i]) in seen {
      var j :| 0 <= j < i && before[j] == Trim(names[i]);
      assert after[j] == after[i];
    }
  }

  lemma DistinctPrefix(names: seq<string>, i: nat)
    requires i <= |names| && DistinctNames(names)
    ensures DistinctNames(names[..i])
  {
    hide Trim;
    assert forall j | 0 <= j < i :: Trimmed(names[..i])[j] == Trimmed(names)[j];
  }

  ghost function SeenNames(names: seq<string>): set<string> {
    set j | 0 <= j < |names| :: Trimmed(names)[j]
  }

  /** The loop over names that fills a `seen` map. */
  method CheckNames(names: seq<string>) returns (ok: bool)
    ensures ok <==> DistinctNames(names)
  {
    hide Trim, DistinctNames, SeenNames;
    var seen: set<string> := {};
    var i := 0;
    NoNames();
    while i < |names|
      invariant 0 <= i <= |names|
      invariant seen == SeenNames(names[..i])
      invariant DistinctNames(names[..i])
    {
      OneMoreName(names, i, seen);
      var name := Trim(names[i]);
      if name == "" || name in seen {
        if DistinctNames(names) { DistinctPrefix(names, i + 1); }
        return false;
      }
      seen := seen + {name};
      i := i + 1;
    }
    assert names[..i] == names;
    ok := true;
  }

  lemma NoNames()
    ensures DistinctNames([]) && SeenNames([]) == {}
  {
  }

  lemma ValidIsExplicit(a: Attestation)
    ensures ValidAttestation(a) <==>
      && Trim(a.messageID) != "" && Trim(a.payloadHash) != "" && a.expiry != 0 && a.signerSetVersion != 0
      && 1 <= a.threshold <= |a.proofs| <= 128
      && (forall i | 0 <= i < |a.proofs| :: Trim(a.proofs[i].signer) != "" && a.proofs[i].signature != "")
      && (forall i, j | 0 <= i < j < |a.proofs| :: Trim(a.proofs[i].signer) != Trim(a.proofs[j].signer))
      && (forall i | 0 <= i < |a.signers| :: Trim(a.signers[i]) != "")
      && (forall i, j | 0 <= i < j < |a.signers| :: Trim(a.signers[i]) != Trim(a.signers[j]))
  {
    DistinctTrimmed(ProofSigners(a.proofs));
    DistinctTrimmed(a.signers);
    hide Trim, DistinctNames;
    var names := ProofSigners(a.proofs);
    assert forall i | 0 <= i < |names| :: names[i] == a.proofs[i].signer;
  }

  lemma DistinctTrimmed(names: seq<string>)
    ensures DistinctNames(names) <==>
      && (forall i | 0 <= i < |names| :: Trim(names[i]) != "")
      && (forall i, j | 0 <= i < j < |names| :: Trim(names[i]) != Trim(names[j]))
  {
    hide Trim;
    var t := Trimmed(names);
    assert forall i | 0 <= i < |names| :: t[i] == Trim(names[i]);
  }

  /** `ValidateBasic`; the model reports only whether an error is returned. */
  method ValidateBasic(a: Attestation) returns (ok: bool)
    ensures ok <==> ValidAttestation(a)
    ensures ok <==>
      && Trim(a.messageID) != "" && Trim(a.payloadHash) != "" && a.expiry != 0 && a.signerSetVersion != 0
      && 1 <= a.threshold <= |a.proofs| <= 128
      && (forall i | 0 <= i < |a.proofs| :: Trim(a.proofs[i].signer) != "" && a.proofs[i].signature != "")
      && (forall i, j | 0 <= i < j < |a.proofs| :: Trim(a.proofs[i].signer) != Trim(a.proofs[j].signer))
      && (forall i | 0 <= i < |a.signers| :: Trim(a.signers[i]) != "")
      && (forall i, j | 0 <= i < j < |a.signers| :: Trim(a.signers[i]) != Trim(a.signers[j]))
  {
    ValidIsExplicit(a);
    if !ValidEnvelope(a) || |a.proofs| == 0 || |a.proofs| > MAX_PROOFS || a.threshold > |a.proofs| {
      return false;
    }
    var i := 0;
    while i < |a.proofs|
      invariant 0 <= i <= |a.proofs|
      invariant forall j | 0 <= j < i :: a.proofs[j].signature != ""
    {
      if a.proofs[i].signature == "" {
        return false;
      }
      i := i + 1;
    }
    ok := CheckNames(ProofSigners(a.proofs));
    if ok && |a.signers| > 0 {
      ok := CheckNames(a.signers);
    }
  }

  // ---- length-prefixed payloads --------------------------------------------------

  function Prefixed(field: string): string {
    Dec(|field|) + ":" + field
  }

  function JoinPrefixed(fields: seq<string>): string
    requires fields != []
  {
    if |fields| == 1 then Prefixed(fields[0])
    else Prefixed(fields[0]) + ("|" + JoinPrefixed(fields[1..]))
  }

  /** The loop of `SigningDigest` and `voteSigningPayload`: encode every field, then join. */
  method BuildPayload(fields: seq<string>) returns (payload: string)
    requires fields != []
    ensures payload == JoinPrefixed(fields)
  {
    var encoded := new string[|fields|](_ => "");
    for i := 0 to |fields|
      invariant forall j | 0 <= j < i :: encoded[j] == Prefixed(fields[j])
    {
      encoded[i] := Prefixed(fields[i]);
    }
    var k := |fields| - 1;
    payload := encoded[k];
    assert fields[k..] == [fields[k]];
    while k > 0
      invariant 0 <= k < |fields|
      invariant payload == JoinPrefixed(fields[k..])
    {
      k := k - 1;
      assert fields[k..][1..] == fields[k + 1..];
      payload := encoded[k] + ("|" + payload);
    }
    assert fields[0..] == fields;
  }

  datatype Field = NoField | Field(text: string, rest: string)

  /** Reads a length, a colon and that many bytes. */
  function ReadField(s: string): (r: Field)
    ensures r.Field? ==> |r.rest| < |s|
  {
    var colon := Find(s, ':');
    if colon == |s| || colon == 0 || !Digits(s[..colon]) then NoField
    else
      var n := DigitsValue(s[..colon]);
      var body := s[colon + 1..];
      if n > |body| then NoField else Field(body[..n], body[n..])
  }

  /** Reads the fields back, separated by bars. */
  function DecodeFields(s: string): Option<seq<string>>
    decreases |s|
  {
    match ReadField(s)
    case NoField => None
    case Field(text, rest) =>
      if rest == "" then Some([text])
      else if rest[0] != '|' then None
      else match DecodeFields(rest[1..])
        case None => None
        case Some(more) => Some([text] + more)
  }

  lemma FindAfterDigits(digits: string, rest: string)
    requires Digits(digits)
    ensures Find(digits + ":" + rest, ':') == |digits|
  {
    var s := digits + ":" + rest;
    assert s[|digits|] == ':';
    forall j | 0 <= j < |digits| ensures s[j] != ':' {
      assert s[j] == digits[j] && IsDigit(digits[j]);
    }
  }

  lemma OneField(f: string, tail: string)
    ensures ReadField(Prefixed(f) + tail) == Field(f, tail)
  {
    var digits := Dec(|f|);
    DecValue(|f|);
    var s := Prefixed(f) + tail;
    var body := f + tail;
    assert s == digits + ":" + body;
    FindAfterDigits(digits, body);
    assert s[..|digits|] == digits && s[|digits| + 1..] == body;
    assert body[..|f|] == f && body[|f|..] == tail;
  }

  /** Whatever bytes the fields contain, bars and colons included, they decode back. */
  lemma {:induction false} FieldsRoundTrip(fields: seq<string>)
    requires fields != []
    ensures DecodeFields(JoinPrefixed(fields)) == Some(fields)
  {
    var f := fields[0];
    assert fields == [f] + fields[1..];
    if |fields| == 1 {
      OneField(f, "");
      assert Prefixed(f) + "" == Prefixed(f) && fields == [f];
    } else {
      var more := JoinPrefixed(fields[1..]);
      var rest := "|" + more;
      OneField(f, rest);
      FieldsRoundTrip(fields[1..]);
      assert rest[1..] == more;
    }
  }

  lemma JoinInjective(a: seq<string>, b: seq<string>)
    requires a != [] && b != []
    ensures JoinPrefixed(a) == JoinPrefixed(b) ==> a == b
  {
    FieldsRoundTrip(a);
    FieldsRoundTrip(b);
  }

  const ATTESTATION_DOMAIN := "aegislink.attestation.v1"
  const VOTE_DOMAIN := "aegislink.vote.v1"

  function AttestationFields(a: Attestation): seq<string> {
    [ATTESTATION_DOMAIN, Trim(a.messageID), Lower(Trim(a.payloadHash)), Dec(a.threshold), Dec(a.expiry),
      Dec(a.signerSetVersion)]
  }

  function AttestationPayload(a: Attestation): string {
    JoinPrefixed(AttestationFields(a))
  }

  function VoteFields(messageID: string, payloadHash: string, expiry: U64): seq<string> {
    [VOTE_DOMAIN, Trim(messageID), Lower(Trim(payloadHash)), Dec(expiry)]
  }

  function VotePayload(messageID: string, payloadHash: string, expiry: U64): string {
    JoinPrefixed(VoteFields(messageID, payloadHash, expiry))
  }

  /** Two envelopes share a payload exactly when their normalized signed fields agree. */
  lemma AttestationPayloadUnambiguous(a: Attestation, b: Attestation)
    ensures AttestationPayload(a) == AttestationPayload(b) <==>
      && Trim(a.messageID) == Trim(b.messageID)
      && Lower(Trim(a.payloadHash)) == Lower(Trim(b.payloadHash))
      && a.threshold == b.threshold
      && a.expiry == b.expiry
      && a.signerSetVersion == b.signerSetVersion
  {
    var x, y := AttestationFields(a), AttestationFields(b);
    JoinInjective(x, y);
    DecValue(a.threshold); DecValue(b.threshold);
    DecValue(a.expiry); DecValue(b.expiry);
    DecValue(a.signerSetVersion); DecValue(b.signerSetVersion);
    if x == y {
      assert x[1] == y[1] && x[2] == y[2] && x[3] == y[3] && x[4] == y[4] && x[5] == y[5];
    }
  }

  lemma VotePayloadUnambiguous(m1: string, h1: string, e1: U64, m2: string, h2: string, e2: U64)
    ensures VotePayload(m1, h1, e1) == VotePayload(m2, h2, e2) <==>
      Trim(m1) == Trim(m2) && Lower(Trim(h1)) == Lower(Trim(h2)) && e1 == e2
  {
    var x, y := VoteFields(m1, h1, e1), VoteFields(m2, h2, e2);
    JoinInjective(x, y);
    DecValue(e1); DecValue(e2);
    if x == y {
      assert x[1] == y[1] && x[2] == y[2] && x[3] == y[3];
    }
  }

  /** A signature over a vote can never stand in for one over an attestation. */
  lemma PayloadDomainsDisjoint(a: Attestation, messageID: string, payloadHash: string, expiry: U64)
    ensures AttestationPayload(a) != VotePayload(messageID, payloadHash, expiry)
  {
    JoinInjective(AttestationFields(a), VoteFields(messageID, payloadHash, expiry));
    assert |AttestationFields(a)| == 6 && |VoteFields(messageID, payloadHash, expiry)| == 4;
  }

  /** What a signing payload says, read back field by field. */
  lemma PayloadReads(a: Attestation)
    ensures DecodeFields(AttestationPayload(a)) == Some([
      "aegislink.attestation.v1", Trim(a.messageID), Lower(Trim(a.payloadHash)), Dec(a.threshold), Dec(a.expiry),
      Dec(a.signerSetVersion)])
  {
    FieldsRoundTrip(AttestationFields(a));
  }

  lemma VoteReads(messageID: string, payloadHash: string, expiry: U64)
    ensures DecodeFields(VotePayload(messageID, payloadHash, expiry))
      == Some(["aegislink.vote.v1", Trim(messageID), Lower(Trim(payloadHash)), Dec(expiry)])
  {
    FieldsRoundTrip(VoteFields(messageID, payloadHash, expiry));
  }
}
