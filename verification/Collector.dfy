/** The relayer's attestation collector, and why the chain accepts what it builds. */
module Collector {
  import opened Base
  import opened Text
  import opened Sorting
  import opened Canonical
  import opened Attestations
  import opened Signers
  import opened Bridge

  datatype Vote = Vote(signer: string, expiry: U64)

  const SYNTHETIC_EXPIRY: U64 := TWO_64 - 1

  // ---- deduplication -----------------------------------------------------------------

  /** Per trimmed signer the largest expiry voted; blank signers are dropped. */
  function Unique(votes: seq<Vote>): map<string, U64> {
    if votes == [] then map[]
    else Merge(Unique(votes[..|votes| - 1]), votes[|votes| - 1])
  }

  function Merge(m: map<string, U64>, v: Vote): map<string, U64> {
    var signer := Trim(v.signer);
    if signer == "" || (signer in m && v.expiry <= m[signer]) then m else m[signer := v.expiry]
  }

  /** The voters are the non-blank signers, each with the best of their votes. */
  lemma {:induction false} UniqueIsBest(votes: seq<Vote>)
    ensures forall v | v in votes && Trim(v.signer) != "" ::
      Trim(v.signer) in Unique(votes) && v.expiry <= Unique(votes)[Trim(v.signer)]
    ensures forall s | s in Unique(votes) ::
      s != "" && exists v :: v in votes && Trim(v.signer) == s && v.expiry == Unique(votes)[s]
  {
    hide Trim;
    if votes != [] {
      var front, last := votes[..|votes| - 1], votes[|votes| - 1];
      assert votes == front + [last];
      UniqueIsBest(front);
      forall s | s in Unique(votes)
        ensures s != "" && exists v :: v in votes && Trim(v.signer) == s && v.expiry == Unique(votes)[s]
      {
        if s in Unique(front) && Unique(votes)[s] == Unique(front)[s] {
          var v :| v in front && Trim(v.signer) == s && v.expiry == Unique(front)[s];
          assert v in votes;
        } else {
          assert last in votes;
        }
      }
    }
  }

  /** Without usable votes every configured key votes with the largest expiry there is. */
  function Voters(votes: seq<Vote>, keys: map<string, string>): map<string, U64> {
    if Unique(votes) == map[] then map s | s in keys :: SYNTHETIC_EXPIRY else Unique(votes)
  }

  // ---- ranking -----------------------------------------------------------------------

  /** Later expiry first, then by signer. */
  predicate RankLe(a: Vote, b: Vote) {
    a.expiry > b.expiry || (a.expiry == b.expiry && LexLe(a.signer, b.signer))
  }

  lemma RankOrder()
    ensures TotalOrder(RankLe) && AntiSymmetric(RankLe)
  {
    LexOrder();
  }

  /** Every voter once, in rank order. */
  ghost predicate IsRanking(ranked: seq<Vote>, voters: map<string, U64>) {
    && Sorted(ranked, RankLe)
    && Distinct(ranked)
    && forall v :: v in ranked <==> v.signer in voters && voters[v.signer] == v.expiry
  }

  /** The order in which the map is iterated leaves no trace in the ranking. */
  lemma RankingUnique(a: seq<Vote>, b: seq<Vote>, voters: map<string, U64>)
    requires IsRanking(a, voters) && IsRanking(b, voters)
    ensures a == b
  {
    RankOrder();
    SortedUnique(a, b, RankLe);
  }

  function NormalizedSigners(votes: seq<Vote>): (r: seq<string>)
    ensures |r| == |votes| && forall i | 0 <= i < |r| :: r[i] == Normalize(votes[i].signer)
  {
    seq(|votes|, i requires 0 <= i < |votes| => Normalize(votes[i].signer))
  }

  /** What a successful `Collect` returns, given the ranking of the voters. */
  ghost predicate Collected(c: Crypto, threshold: U32, version: U64, keys: map<string, string>, ranked: seq<Vote>,
                            messageID: string, payloadHash: string, a: Attestation)
  {
    && 0 < threshold <= |ranked|
    && (forall i | 0 <= i < threshold :: Normalize(ranked[i].signer) in keys)
    && a.messageID == messageID && a.payloadHash == payloadHash
    && a.threshold == threshold && a.signerSetVersion == version
    && a.expiry == ranked[threshold - 1].expiry
    && a.signers == Sort(NormalizedSigners(ranked[..threshold]), LexLe)
    && |a.proofs| == threshold
    && (forall i | 0 <= i < threshold :: a.signers[i] in keys
          && a.proofs[i] == SignedBy(c, keys[a.signers[i]], a))
    && ValidEnvelope(a)
  }

  ghost function SignedBy(c: Crypto, key: string, a: Attestation): Proof {
    Proof(if c.address(key).Some? then c.address(key).value else "", c.sign(key, c.keccak(AttestationPayload(a))))
  }

  /** Every key is filed under its own address. */
  ghost predicate KeysInv(c: Crypto, keys: map<string, string>) {
    forall s | s in keys :: c.address(keys[s]) == Some(s)
  }

  class Collector {
    const crypto: Crypto
    const threshold: U32
    const signerSetVersion: U64
    const signerKeys: map<string, string>

    /** Keys that do not parse are skipped. */
    constructor (crypto: Crypto, threshold: U32, version: U64, privateKeys: seq<string>)
      ensures this.crypto == crypto && this.threshold == threshold
      ensures signerSetVersion == if version == 0 then 1 else version
      ensures KeysInv(crypto, signerKeys)
      ensures forall s :: s in signerKeys <==> exists k :: k in privateKeys && crypto.address(k) == Some(s)
    {
      var lookup: map<string, string> := map[];
      var i := 0;
      while i < |privateKeys|
        invariant 0 <= i <= |privateKeys| && KeysInv(crypto, lookup)
        invariant forall s :: s in lookup <==> exists k :: k in privateKeys[..i] && crypto.address(k) == Some(s)
      {
        var address := crypto.address(privateKeys[i]);
        assert privateKeys[..i + 1] == privateKeys[..i] + [privateKeys[i]];
        if address.Some? {
          lookup := lookup[address.value := privateKeys[i]];
        }
        i := i + 1;
      }
      assert privateKeys[..i] == privateKeys;
      this.crypto, this.threshold, signerKeys := crypto, threshold, lookup;
      signerSetVersion := if version == 0 then 1 else version;
    }

    /**
      Deduplicate, rank, take the best `threshold` voters, sign for each. It fails exactly when there
      are too few voters, one of the best has no configured key, or the envelope is not signable.
     */
    method Collect(votes: seq<Vote>, messageID: string, payloadHash: string)
      returns (r: Option<Attestation>, ghost ranked: seq<Vote>)
      requires KeysInv(crypto, signerKeys)
      ensures IsRanking(ranked, Voters(votes, signerKeys))
      ensures r.Some? ==>
        Collected(crypto, threshold, signerSetVersion, signerKeys, ranked, messageID, payloadHash, r.value)
      ensures r.None? <==>
        || threshold == 0
        || |Voters(votes, signerKeys)| % TWO_32 < threshold
        || (exists i | 0 <= i < threshold && i < |ranked| :: Normalize(ranked[i].signer) !in signerKeys)
        || Trim(messageID) == "" || Trim(payloadHash) == "" || signerSetVersion == 0
        || (threshold <= |ranked| && ranked[threshold - 1].expiry == 0)
    {
      hide Trim, Normalize, LexLe, RankLe, AttestationPayload, Unique, Sorted, Collected, IsRanking, ValidEnvelope;
      var unique := Deduplicate(votes);
      var order := Rank(unique);
      ranked := order;
      RankingSize(order, unique);
      if threshold == 0 || |unique| % TWO_32 < threshold {
        return None, ranked;
      }
      RankingIsSorted(order, unique);
      r := Endorse(order, messageID, payloadHash);
    }

    /** The best vote of every signer; every configured key when there is no usable vote. */
    method Deduplicate(votes: seq<Vote>) returns (unique: map<string, U64>)
      ensures unique == Voters(votes, signerKeys)
    {
      hide Merge;
      unique := map[];
      var i := 0;
      while i < |votes|
        invariant 0 <= i <= |votes| && unique == Unique(votes[..i])
      {
        assert votes[..i + 1][..i] == votes[..i];
        unique := Merge(unique, votes[i]);
        i := i + 1;
      }
      assert votes[..i] == votes;
      if unique == map[] {
        unique := map s | s in signerKeys :: SYNTHETIC_EXPIRY;
      }
    }

    /** Select the best `threshold` of the ranking and sign for each. */
    method Endorse(order: seq<Vote>, messageID: string, payloadHash: string) returns (r: Option<Attestation>)
      requires KeysInv(crypto, signerKeys) && 0 < threshold <= |order| && Sorted(order, RankLe)
      ensures r.Some? ==>
        Collected(crypto, threshold, signerSetVersion, signerKeys, order, messageID, payloadHash, r.value)
      ensures r.None? <==>
        || (exists i | 0 <= i < threshold :: Normalize(order[i].signer) !in signerKeys)
        || Trim(messageID) == "" || Trim(payloadHash) == "" || signerSetVersion == 0 || order[threshold - 1].expiry == 0
    {
      hide Trim, Normalize, LexLe, RankLe, AttestationPayload, Sorted;
      var known, signers, expiry := SelectTop(order);
      if !known { return None; }
      ghost var top := signers;
      signers := Sort(signers, LexLe);
      SortMembers(top, LexLe);
      hide Sort;
      var a := Attestation(messageID, payloadHash, signers, [], threshold, expiry, signerSetVersion);
      if !ValidEnvelope(a) { return None; }
      var proofs := SignAll(a, signers);
      r := Some(a.(proofs := proofs));
      SamePayload(a, r.value);
    }

    /** Map entries in arbitrary order, then the stable sort. */
    method Rank(voters: map<string, U64>) returns (order: seq<Vote>)
      ensures IsRanking(order, voters)
    {
      hide RankLe;
      order := [];
      var todo := voters.Keys;
      while todo != {}
        invariant todo <= voters.Keys && Distinct(order)
        invariant forall v :: v in order <==> v.signer in voters && v.signer !in todo && voters[v.signer] == v.expiry
        decreases |todo|
      {
        var s :| s in todo;
        order := order + [Vote(s, voters[s])];
        todo := todo - {s};
      }
      RankOrder();
      SortSorts(order, RankLe);
      SortDistinct(order, RankLe);
      SortMembers(order, RankLe);
      order := Sort(order, RankLe);
    }

    /** The loop over the best voters: their normalized signers and the smallest expiry. */
    method SelectTop(order: seq<Vote>) returns (known: bool, signers: seq<string>, expiry: U64)
      requires 0 < threshold <= |order| && Sorted(order, RankLe)
      ensures known <==> forall i | 0 <= i < threshold :: Normalize(order[i].signer) in signerKeys
      ensures known ==> signers == NormalizedSigners(order[..threshold]) && expiry == order[threshold - 1].expiry
    {
      hide Normalize, LexLe;
      signers, expiry := [], 0;
      var i := 0;
      while i < threshold
        invariant 0 <= i <= threshold && |signers| == i
        invariant forall j | 0 <= j < i :: signers[j] == Normalize(order[j].signer) && signers[j] in signerKeys
        invariant i > 0 ==> expiry == order[i - 1].expiry
        invariant i == 0 ==> expiry == 0
      {
        var signer := Normalize(order[i].signer);
        if signer !in signerKeys {
          return false, signers, expiry;
        }
        signers := signers + [signer];
        assert i > 0 ==> RankLe(order[i - 1], order[i]);
        if expiry == 0 || order[i].expiry < expiry {
          expiry := order[i].expiry;
        }
        i := i + 1;
      }
      assert signers == NormalizedSigners(order[..threshold]);
      known := true;
    }

    method SignAll(a: Attestation, signers: seq<string>) returns (proofs: seq<Proof>)
      requires KeysInv(crypto, signerKeys) && forall s | s in signers :: s in signerKeys
      ensures |proofs| == |signers| && forall i | 0 <= i < |proofs| ::
        proofs[i] == SignedBy(crypto, signerKeys[signers[i]], a)
    {
      hide AttestationPayload;
      proofs := [];
      while |proofs| < |signers|
        invariant |proofs| <= |signers|
        invariant forall i | 0 <= i < |proofs| :: proofs[i] == SignedBy(crypto, signerKeys[signers[i]], a)
      {
        var s := signers[|proofs|];
        assert s in signers;
        var payload := BuildPayload(AttestationFields(a));
        AttestationPayloadIsJoin(a);
        proofs := proofs + [Proof(s, crypto.sign(signerKeys[s], crypto.keccak(payload)))];
      }
    }
  }

  lemma RankingIsSorted(ranked: seq<Vote>, voters: map<string, U64>)
    requires IsRanking(ranked, voters)
    ensures Sorted(ranked, RankLe)
  {
    hide RankLe, Sorted;
  }

  /** The signed payload does not depend on the proofs being collected. */
  lemma SamePayload(a: Attestation, b: Attestation)
    requires b == a.(proofs := b.proofs)
    ensures AttestationPayload(a) == AttestationPayload(b)
  {
  }

  lemma RankingSize(ranked: seq<Vote>, voters: map<string, U64>)
    requires IsRanking(ranked, voters)
    ensures |ranked| == |voters|
  {
    RankedNamesDiffer(ranked, voters);
    NamesCount(ranked);
    hide RankLe, Sorted;
    assert Names(ranked) == voters.Keys by {
      forall s | s in voters ensures s in Names(ranked) {
        assert Vote(s, voters[s]) in ranked;
      }
    }
  }

  function Names(ranked: seq<Vote>): set<string> {
    set i | 0 <= i < |ranked| :: ranked[i].signer
  }

  /** Distinct entries of one map have distinct names. */
  lemma {:induction false} NamesCount(ranked: seq<Vote>)
    requires forall i, j | 0 <= i < j < |ranked| :: ranked[i].signer != ranked[j].signer
    ensures |Names(ranked)| == |ranked|
  {
    if ranked != [] {
      var front, last := ranked[..|ranked| - 1], ranked[|ranked| - 1];
      NamesCount(front);
      assert last.signer !in Names(front);
      assert Names(ranked) == Names(front) + {last.signer} by {
        forall s | s in Names(ranked) ensures s in Names(front) + {last.signer} {
          var i :| 0 <= i < |ranked| && ranked[i].signer == s;
          assert i < |front| ==> front[i] == ranked[i];
        }
        forall s | s in Names(front) ensures s in Names(ranked) {
          var i :| 0 <= i < |front| && front[i].signer == s;
          assert ranked[i].signer == s;
        }
      }
    }
  }

  lemma RankedNamesDiffer(ranked: seq<Vote>, voters: map<string, U64>)
    requires IsRanking(ranked, voters)
    ensures forall i, j | 0 <= i < j < |ranked| :: ranked[i].signer != ranked[j].signer
    ensures forall i | 0 <= i < |ranked| :: ranked[i].signer in voters && voters[ranked[i].signer] == ranked[i].expiry
  {
    hide RankLe, Sorted;
    assert forall i | 0 <= i < |ranked| :: ranked[i] in ranked;
  }

  lemma RankedDescends(ranked: seq<Vote>, i: nat, j: nat)
    requires Sorted(ranked, RankLe) && i <= j < |ranked|
    ensures ranked[i].expiry >= ranked[j].expiry
  {
    hide LexLe;
    assert i < j ==> RankLe(ranked[i], ranked[j]);
  }

  /** The names of the first `n` voters, all with at least the expiry of the last of them. */
  lemma TopNames(voters: map<string, U64>, ranked: seq<Vote>, n: nat) returns (names: set<string>)
    requires IsRanking(ranked, voters) && n <= |ranked|
    ensures names == (set i | 0 <= i < n :: ranked[i].signer) <= voters.Keys && |names| == n
    ensures n > 0 ==> forall s | s in names :: voters[s] >= ranked[n - 1].expiry
  {
    hide RankLe, Sorted;
    RankedNamesDiffer(ranked, voters);
    RankingIsSorted(ranked, voters);
    var top := ranked[..n];
    NamesCount(top);
    names := Names(top);
    hide IsRanking;
    assert names == set i | 0 <= i < n :: ranked[i].signer;
    forall i | 0 <= i < n ensures ranked[i].expiry >= ranked[n - 1].expiry {
      RankedDescends(ranked, i, n - 1);
    }
  }

  /** The selected expiry is the largest minimum over all `threshold`-sized sets of distinct voters. */
  lemma BestExpiry(c: Crypto, threshold: U32, version: U64, keys: map<string, string>, voters: map<string, U64>,
    ranked: seq<Vote>,
                   messageID: string, payloadHash: string, a: Attestation)
    requires IsRanking(ranked, voters)
    requires Collected(c, threshold, version, keys, ranked, messageID, payloadHash, a)
    ensures exists top: set<string> :: top <= voters.Keys && |top| == threshold && forall s | s in top ::
      voters[s] >= a.expiry
    ensures forall quorum: set<string> | quorum <= voters.Keys && |quorum| == threshold ::
      exists s :: s in quorum && voters[s] <= a.expiry
  {
    hide Normalize, RankLe, Sort, AttestationPayload, ValidEnvelope, IsRanking;
    var top := TopNames(voters, ranked, threshold);
    forall quorum: set<string> | quorum <= voters.Keys && |quorum| == threshold
      ensures exists s :: s in quorum && voters[s] <= a.expiry
    {
      NoBetterQuorum(threshold, voters, ranked, quorum);
    }
  }

  lemma NoBetterQuorum(threshold: U32, voters: map<string, U64>, ranked: seq<Vote>, quorum: set<string>)
    requires IsRanking(ranked, voters) && 0 < threshold <= |ranked|
    requires quorum <= voters.Keys && |quorum| == threshold
    ensures exists s :: s in quorum && voters[s] <= ranked[threshold - 1].expiry
  {
    hide RankLe;
    var names := TopNames(voters, ranked, threshold - 1);
    Outsider(quorum, names);
    var s :| s in quorum - names;
    var i :| 0 <= i < |ranked| && ranked[i] == Vote(s, voters[s]);
    RankedDescends(ranked, threshold - 1, i);
  }

  lemma Outsider(a: set<string>, b: set<string>)
    requires |b| < |a|
    ensures a - b != {}
  {
    assert a == (a - b) + (a * b);
    assert b == (b - a) + (a * b);
  }

  // ---- the collector meets the verifier -------------------------------------------------------

  /** Every proof the collector attaches really verifies to the signer it names. */
  lemma ProofsVerify(c: Crypto, threshold: U32, version: U64, keys: map<string, string>, ranked: seq<Vote>,
                     messageID: string, payloadHash: string, a: Attestation)
    requires SigningLaw(c) && KeysInv(c, keys)
    requires Collected(c, threshold, version, keys, ranked, messageID, payloadHash, a)
    ensures ProofSigners(a.proofs) == a.signers
    ensures forall i | 0 <= i < threshold ::
      a.proofs[i].signature != "" && VerifyProof(c, a.proofs[i], c.keccak(AttestationPayload(a))) == Some(a.signers[i])
    ensures forall i | 0 <= i < threshold :: Normalize(a.signers[i]) == a.signers[i] != ""
  {
    hide Normalize, LexLe, Sort, AttestationPayload, ValidEnvelope;
  }

  /**
    What it takes for a collected attestation to be well formed on chain: at most 128 proofs, and no
    two selected voters that only differ in letter case.
   */
  lemma WellFormedIff(c: Crypto, threshold: U32, version: U64, keys: map<string, string>, ranked: seq<Vote>,
                      messageID: string, payloadHash: string, a: Attestation)
    requires SigningLaw(c) && KeysInv(c, keys)
    requires Collected(c, threshold, version, keys, ranked, messageID, payloadHash, a)
    ensures ValidAttestation(a) <==> threshold <= MAX_PROOFS && Distinct(NormalizedSigners(ranked[..threshold]))
  {
    ProofsVerify(c, threshold, version, keys, ranked, messageID, payloadHash, a);
    forall i | 0 <= i < threshold ensures Trim(a.signers[i]) == a.signers[i] {
      NormalizeTwice(a.signers[i]);
    }
    hide Normalize, LexLe, Sort, AttestationPayload, ValidEnvelope, Trim;
    assert Trimmed(a.signers) == a.signers;
    SortDistinct(NormalizedSigners(ranked[..threshold]), LexLe);
  }

  /** Votes as the vote file delivers them: recovered, hence normalized, addresses. */
  ghost predicate VotesNormalized(votes: seq<Vote>) {
    forall v | v in votes :: Normalize(v.signer) == v.signer
  }

  lemma NormalizedVotersDistinct(c: Crypto, votes: seq<Vote>, keys: map<string, string>, ranked: seq<Vote>, n: nat)
    requires SigningLaw(c) && KeysInv(c, keys) && VotesNormalized(votes)
    requires IsRanking(ranked, Voters(votes, keys)) && n <= |ranked|
    ensures Distinct(NormalizedSigners(ranked[..n]))
  {
    UniqueIsBest(votes);
    forall i | 0 <= i < |ranked| ensures Normalize(ranked[i].signer) == ranked[i].signer {
      assert ranked[i] in ranked;
      var s := ranked[i].signer;
      if Unique(votes) != map[] {
        var v :| v in votes && Trim(v.signer) == s;
        NormalizeTwice(v.signer);
      } else {
        assert c.address(keys[s]) == Some(s) && c.sign(keys[s], "") != "";
      }
    }
    hide Normalize, LexLe, Unique;
    forall i, j | 0 <= i < j < n ensures NormalizedSigners(ranked[..n])[i] != NormalizedSigners(ranked[..n])[j] {
      assert ranked[i] in ranked && ranked[j] in ranked && ranked[i] != ranked[j];
    }
  }

  /**
    End to end: an attestation that `Collect` built for a valid claim's digest passes the chain's
    verification, as long as the configuration on both sides fits and nothing has expired.
   */
  lemma CollectorMeetsVerifier(c: Crypto, threshold: U32, version: U64, keys: map<string, string>, votes: seq<Vote>,
                               ranked: seq<Vote>, claim: DepositClaim, a: Attestation, b: BridgeState,
                                 active: SignerSet)
    requires SigningLaw(c) && KeysInv(c, keys) && VotesNormalized(votes)
    requires IsRanking(ranked, Voters(votes, keys))
    requires Collected(c, threshold, version, keys, ranked, claim.identity.messageID, Digest(c, claim), a)
    requires ActiveSet(b.signerSets, b.currentHeight) == Some(active)
    requires version == active.version && active.threshold <= threshold <= MAX_PROOFS
    requires forall s | s in keys :: s in Allowed(active)
    requires b.currentHeight <= claim.deadline && b.currentHeight <= a.expiry
    ensures VerifyDeposit(c, b, claim, a).None?
  {
    hide Normalize, LexLe, Sort, AttestationPayload, ValidEnvelope, Trim, Digest, ActiveSet, Allowed, Unique,
         ValidAttestation, VerifyProof, Verified;
    NormalizedVotersDistinct(c, votes, keys, ranked, threshold);
    WellFormedIff(c, threshold, version, keys, ranked, claim.identity.messageID, Digest(c, claim), a);
    ProofsVerify(c, threshold, version, keys, ranked, claim.identity.messageID, Digest(c, claim), a);
    var digest := c.keccak(AttestationPayload(a));
    SortDistinct(NormalizedSigners(ranked[..threshold]), LexLe);
    AllVerified(c, a.proofs, a.signers, digest, Allowed(active));
  }

  lemma AllVerified(c: Crypto, proofs: seq<Proof>, signers: seq<string>, digest: string, allowed: set<string>)
    requires |proofs| == |signers| && Distinct(signers) && forall s | s in signers :: s in allowed
    requires forall i | 0 <= i < |proofs| :: VerifyProof(c, proofs[i], digest) == Some(signers[i])
    ensures |Verified(c, proofs, digest) * allowed| == |proofs|
  {
    hide VerifyProof;
    var names := set s | s in signers;
    assert Verified(c, proofs, digest) == names by {
      forall s | s in names ensures s in Verified(c, proofs, digest) {
        var i :| 0 <= i < |signers| && signers[i] == s;
        assert proofs[i] in proofs;
      }
    }
    assert names * allowed == names;
    SetSize(signers);
  }

  lemma {:induction false} SetSize(xs: seq<string>)
    requires Distinct(xs)
    ensures |set x | x in xs| == |xs|
  {
    if xs != [] {
      var front, last := xs[..|xs| - 1], xs[|xs| - 1];
      assert xs == front + [last];
      SetSize(front);
      assert (set x | x in xs) == (set x | x in front) + {last};
      assert last !in front;
    }
  }

  /** The names on a collected attestation are those of the best voters, sorted; each proof is by its name's key. */
  lemma CollectedNames(c: Crypto, threshold: U32, version: U64, keys: map<string, string>, ranked: seq<Vote>,
                       messageID: string, payloadHash: string, a: Attestation)
    requires Collected(c, threshold, version, keys, ranked, messageID, payloadHash, a)
    requires SigningLaw(c) && KeysInv(c, keys)
    ensures Sorted(a.signers, LexLe)
    ensures multiset(a.signers) == multiset(NormalizedSigners(ranked[..threshold]))
    ensures |a.proofs| == |a.signers| == threshold
    ensures forall i | 0 <= i < threshold :: a.proofs[i].signer == a.signers[i]
    ensures forall i | 0 <= i < threshold ::
      c.recover(a.proofs[i].signature, c.keccak(AttestationPayload(a))) == Some(a.signers[i])
  {
    hide AttestationPayload, Normalize, ValidEnvelope;
    LexOrder();
    SortSorts(NormalizedSigners(ranked[..threshold]), LexLe);
    hide Sort, LexLe;
  }
}
