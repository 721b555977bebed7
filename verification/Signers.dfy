/** Signer sets, signature recovery and the quorum count behind an attestation. */
module Signers {
  import opened Base
  import opened Text
  import opened Sorting
  import opened Attestations

  /**
    Hashes, secp256k1 and bech32 as uninterpreted functions. `address` gives the signer address of
    a private key in hex, or nothing when the key does not parse; `recover` gives the address of the
    public key recovered from a compact signature over a digest.
   */
  datatype Crypto = Crypto(
    sha256Hex: string -> string,
    keccak: string -> string,
    address: string -> Option<string>,
    sign: (string, string) -> string,
    recover: (string, string) -> Option<string>,
    validAddress: string -> bool)

  /** A signature is recovered to the address of the key that made it; addresses are normalized. */
  ghost predicate SigningLaw(c: Crypto) {
    forall key, digest | c.address(key).Some? ::
      && c.sign(key, digest) != ""
      && c.recover(c.sign(key, digest), digest) == c.address(key)
      && Normalize(c.address(key).value) == c.address(key).value != ""
  }

  datatype SignerSet = SignerSet(version: U64, signers: seq<string>, threshold: U32, activatedAt: U64, expiresAt: U64)

  type SignerSets = map<U64, SignerSet>

  function Normalized(signers: seq<string>): (r: seq<string>)
    ensures |r| == |signers| && forall i | 0 <= i < |r| :: r[i] == Normalize(signers[i])
  {
    seq(|signers|, i requires 0 <= i < |signers| => Normalize(signers[i]))
  }

  /** `normalizeSignerSet`. */
  function NormalizeSet(s: SignerSet): (r: SignerSet)
    ensures r.version == s.version && multiset(r.signers) == multiset(Normalized(s.signers))
  {
    s.(signers := Sort(Normalized(s.signers), LexLe))
  }

  ghost predicate SetsInv(sets: SignerSets) {
    forall v | v in sets :: sets[v].version == v && NormalizeSet(sets[v]) == sets[v]
  }

  lemma NormalizeSetTwice(s: SignerSet)
    ensures NormalizeSet(NormalizeSet(s)) == NormalizeSet(s)
  {
    var n := Sort(Normalized(s.signers), LexLe);
    forall i | 0 <= i < |n| ensures Normalize(n[i]) == n[i] {
      SortMembers(Normalized(s.signers), LexLe);
      assert n[i] in Normalized(s.signers);
      var j :| 0 <= j < |s.signers| && Normalized(s.signers)[j] == n[i];
      NormalizeTwice(s.signers[j]);
    }
    assert Normalized(n) == n;
    LexOrder();
    SortSorts(Normalized(s.signers), LexLe);
    SortFixed(n, LexLe);
  }

  /** What `SignerSet.ValidateBasic` accepts. */
  ghost predicate ValidSet(s: SignerSet) {
    && s.version != 0
    && s.signers != []
    && 0 < s.threshold <= |s.signers|
    && (s.expiresAt == 0 || s.activatedAt <= s.expiresAt)
    && (forall i | 0 <= i < |s.signers| :: Normalize(s.signers[i]) != "")
    && Distinct(Normalized(s.signers))
  }

  ghost function Upsert(sets: SignerSets, s: SignerSet): SignerSets {
    if ValidSet(s) then sets[s.version := NormalizeSet(s)] else sets
  }

  lemma UpsertKeepsInv(sets: SignerSets, s: SignerSet)
    requires SetsInv(sets)
    ensures SetsInv(Upsert(sets, s))
  {
    NormalizeSetTwice(s);
  }

  /**
    A signer set is stored under its version exactly when it has a version, a threshold its distinct non-blank
    members can meet, and a lifetime that does not end before it starts; its members are stored normalized.
   */
  lemma UpsertExact(sets: SignerSets, s: SignerSet)
    ensures var t := Upsert(sets, s);
      if && s.version != 0 && s.signers != [] && 0 < s.threshold <= |s.signers|
         && (s.expiresAt == 0 || s.activatedAt <= s.expiresAt)
         && (forall i | 0 <= i < |s.signers| :: Lower(Trim(s.signers[i])) != "")
         && (forall i, j | 0 <= i < j < |s.signers| :: Lower(Trim(s.signers[i])) != Lower(Trim(s.signers[j])))
      then
        && s.version in t && t == sets[s.version := t[s.version]]
        && t[s.version] == s.(signers := t[s.version].signers)
        && forall m :: m in t[s.version].signers <==> exists i | 0 <= i < |s.signers| :: Lower(Trim(s.signers[i])) == m
      else t == sets
  {
    hide Trim, Lower, Sort, LexLe;
    SortMembers(Normalized(s.signers), LexLe);
    var n := Normalized(s.signers);
    assert multiset(n) == multiset(NormalizeSet(s).signers);
    forall m ensures m in NormalizeSet(s).signers <==> exists i | 0 <= i < |s.signers| ::
      Lower(Trim(s.signers[i])) == m {
      assert m in NormalizeSet(s).signers <==> m in multiset(n);
      if i :| 0 <= i < |s.signers| && Lower(Trim(s.signers[i])) == m { assert n[i] == m; }
      if m in n {
        var i :| 0 <= i < |n| && n[i] == m;
        assert Lower(Trim(s.signers[i])) == m;
      }
    }
  }

  // ---- the active signer set -----------------------------------------------------

  predicate ActiveAt(s: SignerSet, height: U64) {
    s.activatedAt <= height && (s.expiresAt == 0 || height <= s.expiresAt)
  }

  /** `s` is stored, active, and no active set has a higher version. */
  ghost predicate IsActive(sets: SignerSets, height: U64, s: SignerSet) {
    && s in sets.Values && ActiveAt(s, height)
    && forall v | v in sets && ActiveAt(sets[v], height) :: sets[v].version <= s.version
  }

  ghost function ActiveSet(sets: SignerSets, height: U64): Option<SignerSet> {
    if s :| IsActive(sets, height, s) then Some(s) else None
  }

  lemma ActiveSetUnique(sets: SignerSets, height: U64, s: SignerSet)
    requires SetsInv(sets) && IsActive(sets, height, s)
    ensures ActiveSet(sets, height) == Some(s)
  {
    var t := ActiveSet(sets, height).value;
    var v :| v in sets && sets[v] == s;
    var w :| w in sets && sets[w] == t;
    assert s.version == t.version;
  }

  /** The loop over the map, in any order. */
  method FindActiveSet(sets: SignerSets, height: U64) returns (active: Option<SignerSet>)
    ensures active.Some? ==> IsActive(sets, height, active.value)
    ensures active.None? ==> forall v | v in sets :: !ActiveAt(sets[v], height)
    ensures SetsInv(sets) ==> active == ActiveSet(sets, height)
  {
    active := None;
    var versions := sets.Keys;
    while versions != {}
      invariant versions <= sets.Keys
      invariant active.Some? ==> active.value in sets.Values && ActiveAt(active.value, height)
      invariant forall v | v in sets && v !in versions && ActiveAt(sets[v], height) ::
          active.Some? && sets[v].version <= active.value.version
      decreases |versions|
    {
      var v :| v in versions;
      versions := versions - {v};
      var s := sets[v];
      if s.activatedAt > height || (s.expiresAt != 0 && height > s.expiresAt) {
        continue;
      }
      if active.None? || s.version > active.value.version {
        active := Some(s);
      }
    }
    if SetsInv(sets) && active.Some? {
      ActiveSetUnique(sets, height, active.value);
    }
  }

  // ---- counting verified signers ---------------------------------------------------

  /** `verifyProof`: the address a proof really comes from, provided it claims that address. */
  function VerifyProof(c: Crypto, proof: Proof, digest: string): Option<string> {
    if proof.signature == "" then None
    else
      var recovered := c.recover(proof.signature, digest);
      if recovered.None? || recovered.value != Normalize(proof.signer) then None else recovered
  }

  function Allowed(s: SignerSet): set<string> {
    set signer | signer in s.signers :: Normalize(signer)
  }

  /** Every address that some proof verifiably comes from. */
  function Verified(c: Crypto, proofs: seq<Proof>, digest: string): set<string> {
    set p | p in proofs && VerifyProof(c, p, digest).Some? :: VerifyProof(c, p, digest).value
  }

  /**
    The loop of `verifyDepositClaim`: invalid proofs are skipped, and repeated or foreign signers add
    nothing, so the counter ends at the number of distinct allowed signers.
   */
  method CountVerified(c: Crypto, active: SignerSet, proofs: seq<Proof>, digest: string) returns (count: nat)
    ensures count == |Verified(c, proofs, digest) * Allowed(active)|
  {
    hide VerifyProof, Verified, Allowed, InBoth;
    var allowed := Allowed(active);
    var seen: set<string> := {};
    count := 0;
    var i := 0;
    NoneVerified(c, digest);
    InBothIs(seen, allowed);
    while i < |proofs|
      invariant 0 <= i <= |proofs|
      invariant seen == Verified(c, proofs[..i], digest)
      invariant count == InBoth(seen, allowed)
    {
      var recovered := VerifyProof(c, proofs[i], digest);
      assert proofs[..i + 1] == proofs[..i] + [proofs[i]];
      VerifiedStep(c, proofs[..i], proofs[i], digest);
      i := i + 1;
      if recovered.None? {
        continue;
      }
      CountStep(seen, recovered.value, allowed);
      if recovered.value in seen {
        continue;
      }
      seen := seen + {recovered.value};
      if recovered.value in allowed {
        count := count + 1;
      }
    }
    assert proofs[..i] == proofs;
    InBothIs(seen, allowed);
  }

  function InBoth(a: set<string>, b: set<string>): nat {
    |a * b|
  }

  lemma InBothIs(a: set<string>, b: set<string>)
    ensures InBoth(a, b) == |a * b|
    ensures InBoth({}, b) == 0
  {
  }

  lemma CountStep(seen: set<string>, x: string, allowed: set<string>)
    ensures InBoth(seen + {x}, allowed) == InBoth(seen, allowed) + (if x !in seen && x in allowed then 1 else 0)
    ensures x in seen ==> seen + {x} == seen
  {
    if x !in seen && x in allowed {
      assert (seen + {x}) * allowed == seen * allowed + {x};
    } else {
      assert (seen + {x}) * allowed == seen * allowed;
    }
  }

  lemma NoneVerified(c: Crypto, digest: string)
    ensures Verified(c, [], digest) == {}
  {
  }

  lemma VerifiedStep(c: Crypto, proofs: seq<Proof>, p: Proof, digest: string)
    ensures Verified(c, proofs + [p], digest)
         == Verified(c, proofs, digest)
           + (if VerifyProof(c, p, digest).Some? then {VerifyProof(c, p, digest).value} else {})
  {
    hide VerifyProof;
    var more := proofs + [p];
    assert forall q :: q in more <==> q in proofs || q == p;
  }
}
