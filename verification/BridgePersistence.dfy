/** Writing the bridge keeper into its prefix store and reading it back. */
module BridgePersistence {
  import opened Base
  import opened Text
  import opened Sorting
  import opened Listing
  import opened Canonical
  import opened Signers
  import opened Bridge
  import opened PrefixStore
  import L = Ledger
  import Registry
  import Attestations
  import Limits
  import Bank

  datatype Value =
    | Meta(currentHeight: U64, nextNonce: U64, rejected: U64, tripped: bool, lastError: string)
    | Signers(set_: SignerSet)
    | Claim(claim: ClaimSnapshot)
    | Supply(text: string)
    | Withdrawal(withdrawal: WithdrawalSnapshot)

  type Store = JSONPrefixStore<Value>
  type Cells = map<string, Cell<Value>>

  // ---- what is written where --------------------------------------------------------

  function MetaOf(s: BridgeState): Value {
    Meta(s.currentHeight, s.nextNonce, s.rejected, s.tripped, s.lastError)
  }

  function VersionId(v: U64): string { Dec(v) }
  function SignerValue(v: U64, s: SignerSet): Value { Signers(s) }
  function SameId(k: string): string { k }

  /** The persisted claim record leaves the source transaction hash out. */
  function ClaimValue(k: string, r: ClaimRecord): Value { Claim(SnapClaim(k, r.(sourceTxHash := ""))) }
  function SupplyValue(d: string, n: int): Value { Supply(Render(n)) }
  function WithdrawalValue(i: nat, w: WithdrawalRecord): Value { Withdrawal(SnapWithdrawal(w)) }

  /** `%0*d`: the last `width` decimal digits of `n`. */
  function Pad(n: nat, width: nat): (s: string)
    ensures |s| == width && Digits(s)
  {
    if width == 0 then "" else Pad(n / 10, width - 1) + [Digit(n % 10)]
  }

  function Index(i: nat): string { Pad(i, 20) }

  const MAX_INDEX: nat := 1_0000_0000_0000_0000_0000

  function Indexed(ws: seq<WithdrawalRecord>): map<nat, WithdrawalRecord> {
    map i: nat | i < |ws| :: ws[i]
  }

  /** The store holds this keeper state and nothing else in the keeper's sections. */
  ghost predicate Holds(kv: Cells, s: BridgeState) {
    && Section(kv, "meta/") == map["runtime" := Json(MetaOf(s))]
    && SectionHolds(Section(kv, "signer_set/"), s.signerSets, VersionId, SignerValue)
    && SectionHolds(Section(kv, "claim/"), s.claims, SameId, ClaimValue)
    && SectionHolds(Section(kv, "supply/"), s.supply, SameId, SupplyValue)
    && SectionHolds(Section(kv, "withdrawal/"), Indexed(s.withdrawals), Index, WithdrawalValue)
  }

  /** Keys survive the trimming of the store, and signer sets are filed in normal form. */
  ghost predicate Storable(s: BridgeState) {
    && SetsInv(s.signerSets)
    && (forall k | k in s.claims :: Trim(k) == k)
    && (forall d | d in s.supply :: Trim(d) == d)
  }

  lemma PrefixNames()
    ensures PrefixBytes("meta") == "meta/" && PrefixBytes("signer_set") == "signer_set/"
    ensures PrefixBytes("claim") == "claim/"
    ensures PrefixBytes("supply") == "supply/" && PrefixBytes("withdrawal") == "withdrawal/"
    ensures Trim("runtime") == "runtime"
  {
    SolidEndsTrim("meta");
    SolidEndsTrim("signer_set");
    SolidEndsTrim("claim");
    SolidEndsTrim("supply");
    SolidEndsTrim("withdrawal");
    SolidEndsTrim("runtime");
  }

  lemma VersionIdsFit(sets: SignerSets)
    ensures forall j, k | j in sets && k in sets && VersionId(j) == VersionId(k) :: j == k
    ensures forall k | k in sets :: Trim(VersionId(k)) == VersionId(k)
  {
    hide Trim;
    forall k: U64 ensures DigitsValue(Dec(k)) == k && Trim(Dec(k)) == Dec(k) {
      DecValue(k);
      var d := Dec(k);
      assert IsDigit(d[0]) && IsDigit(d[|d| - 1]);
      SolidEndsTrim(d);
    }
    forall j, k | j in sets && k in sets && VersionId(j) == VersionId(k) ensures j == k {
      assert DigitsValue(VersionId(j)) == j && DigitsValue(VersionId(k)) == k;
    }
  }

  // ---- zero-padded indices sort numerically ------------------------------------------

  function Pow10(n: nat): nat {
    if n == 0 then 1 else 10 * Pow10(n - 1)
  }

  lemma {:induction false} LexAppend(a: string, b: string, x: char, y: char)
    requires |a| == |b| && LexLe(a, b) && (a == b ==> x <= y)
    ensures LexLe(a + [x], b + [y])
  {
    if a != "" {
      assert (a + [x])[1..] == a[1..] + [x] && (b + [y])[1..] == b[1..] + [y];
      if a[0] == b[0] {
        assert a[1..] == b[1..] ==> a == [a[0]] + a[1..] && b == [b[0]] + b[1..];
        LexAppend(a[1..], b[1..], x, y);
      }
    }
  }

  lemma {:induction false} PadOrder(i: nat, j: nat, width: nat)
    requires i < j < Pow10(width)
    ensures LexLe(Pad(i, width), Pad(j, width)) && Pad(i, width) != Pad(j, width)
  {
    hide LexLe;
    var a, b := Pad(i / 10, width - 1), Pad(j / 10, width - 1);
    var x, y := Digit(i % 10), Digit(j % 10);
    assert Pad(i, width)[..width - 1] == a && Pad(j, width)[..width - 1] == b;
    assert Pad(i, width)[width - 1] == x && Pad(j, width)[width - 1] == y;
    if i / 10 < j / 10 {
      PadOrder(i / 10, j / 10, width - 1);
      LexAppend(a, b, x, y);
    } else {
      LexOrder();
      assert a == b && LexLe(a, b);
      LexAppend(a, b, x, y);
    }
  }

  lemma IndexOrder(i: nat, j: nat)
    requires i < j < MAX_INDEX
    ensures LexLe(Index(i), Index(j)) && Index(i) != Index(j)
  {
    assert Pow10(20) == MAX_INDEX by {
      assert Pow10(5) == 1_00000;
      assert Pow10(10) == 1_00000 * Pow10(5);
      assert Pow10(15) == 1_00000 * Pow10(10);
    }
    PadOrder(i, j, 20);
  }

  lemma IndexesFit(ws: seq<WithdrawalRecord>)
    requires |ws| <= MAX_INDEX
    ensures forall j, k | j in Indexed(ws) && k in Indexed(ws) && Index(j) == Index(k) :: j == k
    ensures forall k | k in Indexed(ws) :: Trim(Index(k)) == Index(k)
  {
    hide Trim, Pad;
    forall j, k | j in Indexed(ws) && k in Indexed(ws) && Index(j) == Index(k) ensures j == k {
      if j < k { IndexOrder(j, k); } else if k < j { IndexOrder(k, j); }
    }
    forall k | k in Indexed(ws) ensures Trim(Index(k)) == Index(k) {
      var s := Index(k);
      assert IsDigit(s[0]) && IsDigit(s[19]);
      SolidEndsTrim(s);
    }
  }

  // ---- persist ------------------------------------------------------------------------

  ghost predicate Prefix(pre: string) {
    pre == "_meta/" || pre == "meta/" || pre == "signer_set/" || pre == "claim/" || pre == "supply/"
      || pre == "withdrawal/"
  }

  lemma PrefixesDisjoint(p: string, q: string)
    requires Prefix(p) && Prefix(q) && p != q
    ensures !(p <= q) && !(q <= p)
  {
    assert p[0] == q[0] ==> p[0] == 's' && p[1] != q[1];
  }

  /** Cells under none of the six prefixes are as they were. */
  ghost predicate ForeignKept(kv: Cells, kv': Cells) {
    forall x | Foreign(x) :: (x in kv <==> x in kv') && (x in kv ==> kv[x] == kv'[x])
  }

  ghost predicate Foreign(x: string) {
    forall q | Prefix(q) :: !(q <= x)
  }

  lemma ForeignOutside(kv: Cells, kv': Cells, pre: string)
    requires Prefix(pre) && SameOutside(kv, kv', pre)
    ensures ForeignKept(kv, kv')
  {
    hide Prefix;
  }

  lemma ForeignChains(a: Cells, b: Cells, c: Cells)
    requires ForeignKept(a, b) && ForeignKept(b, c)
    ensures ForeignKept(a, c)
  {
    hide Foreign;
  }

  /** A write under one prefix leaves the other sections, and everything that is in none, alone. */
  lemma OthersKept(kv: Cells, kv': Cells, pre: string)
    requires Prefix(pre) && SameOutside(kv, kv', pre)
    ensures forall q | Prefix(q) && q != pre :: Section(kv', q) == Section(kv, q)
    ensures forall kv0 | ForeignKept(kv0, kv) :: ForeignKept(kv0, kv')
    ensures ForeignKept(kv, kv')
  {
    ForeignOutside(kv, kv', pre);
    hide Section, SameOutside, Prefix, ForeignKept;
    forall kv0 | ForeignKept(kv0, kv) ensures ForeignKept(kv0, kv') {
      ForeignChains(kv0, kv, kv');
    }
    forall q | Prefix(q) && q != pre ensures Section(kv', q) == Section(kv, q) {
      PrefixesDisjoint(pre, q);
      OtherSection(kv, kv', pre, q);
    }
  }

  lemma PrefixesInUse()
    ensures Prefix("_meta/") && Prefix("meta/") && Prefix("signer_set/") && Prefix("claim/") && Prefix("supply/")
    ensures Prefix("withdrawal/")
  {
  }

  /** The five `ClearPrefix` calls. */
  method ClearSections(store: Store)
    modifies store
    ensures forall q | Prefix(q) && q != "_meta/" :: Section(store.kv, q) == map[]
    ensures ForeignKept(old(store.kv), store.kv)
  {
    hide PrefixBytes, Section, SameOutside, ForeignKept;
    PrefixNames();
    ghost var kv0 := store.kv;
    store.ClearPrefix("meta");
    ghost var kv1 := store.kv;
    OthersKept(kv0, kv1, "meta/");
    store.ClearPrefix("signer_set");
    ghost var kv2 := store.kv;
    OthersKept(kv1, kv2, "signer_set/");
    store.ClearPrefix("claim");
    ghost var kv3 := store.kv;
    OthersKept(kv2, kv3, "claim/");
    store.ClearPrefix("supply");
    ghost var kv4 := store.kv;
    OthersKept(kv3, kv4, "supply/");
    store.ClearPrefix("withdrawal");
    OthersKept(kv4, store.kv, "withdrawal/");
  }

  /** `persist`: clear the five sections, write them again, commit. */
  method Persist(k: BridgeKeeper, store: Store)
    requires Storable(k.State()) && |k.withdrawals| <= MAX_INDEX
    modifies store
    ensures Holds(store.kv, k.State())
    ensures ForeignKept(old(store.kv), store.kv)
  {
    hide PrefixBytes, Trim, SectionHolds, Section, SameOutside, Index, Render, Prefix, SetsInv, ForeignKept;
    PrefixNames();
    PrefixesInUse();
    VersionIdsFit(k.signerSets);
    IndexesFit(k.withdrawals);
    ClearSections(store);
    ghost var kv0 := store.kv;
    store.Save("meta", "runtime",
               Meta(k.currentHeight, k.nextWithdrawalNonce, k.rejectedClaims, k.circuitBreakerTripped,
                 k.lastInvariantError));
    ghost var kv1 := store.kv;
    OthersKept(kv0, kv1, "meta/");
    store.SaveMap("signer_set", k.signerSets, VersionId, SignerValue);
    ghost var kv2 := store.kv;
    OthersKept(kv1, kv2, "signer_set/");
    store.SaveMap("claim", k.processedClaims, SameId, ClaimValue);
    ghost var kv3 := store.kv;
    OthersKept(kv2, kv3, "claim/");
    store.SaveMap("supply", k.supplyByDenom, SameId, SupplyValue);
    ghost var kv4 := store.kv;
    OthersKept(kv3, kv4, "supply/");
    store.SaveMap("withdrawal", Indexed(k.withdrawals), Index, WithdrawalValue);
    ghost var kv5 := store.kv;
    OthersKept(kv4, kv5, "withdrawal/");
    store.Commit();
    OthersKept(kv5, store.kv, "_meta/");
  }

  // ---- load ---------------------------------------------------------------------------

  predicate IsSigners(e: Entry<Value>) { e.value.Signers? }
  function EntryVersion(e: Entry<Value>): U64 { if IsSigners(e) then e.value.set_.version else 0 }
  function EntrySet(e: Entry<Value>)
    : SignerSet { if IsSigners(e) then NormalizeSet(e.value.set_) else SignerSet(0, [], 0, 0, 0) }

  predicate IsClaim(e: Entry<Value>) { e.value.Claim? && ClaimParses(e.value.claim) }
  function EntryClaimKey(e: Entry<Value>): string { if IsClaim(e) then ClaimKey(e.value.claim) else "" }
  function EntryClaim(e: Entry<Value>): ClaimRecord {
    if IsClaim(e) then ReadClaim(e.value.claim) else ClaimRecord("", "", "", "", "", 0, Rejected)
  }

  predicate IsSupply(e: Entry<Value>) { e.value.Supply? && ParseInt(e.value.text).Some? }
  function EntryId(e: Entry<Value>): string { e.id }
  function EntrySupply(e: Entry<Value>): int { if IsSupply(e) then ParseInt(e.value.text).value else 0 }

  predicate IsWithdrawal(e: Entry<Value>) { e.value.Withdrawal? && ParseInt(e.value.withdrawal.amount).Some? }

  function WithoutTxHash(claims: map<string, ClaimRecord>): map<string, ClaimRecord> {
    map k | k in claims :: claims[k].(sourceTxHash := "")
  }

  /** The state after persisting and loading: claims lose their source transaction hash, nothing else moves. */
  function Reloaded(s: BridgeState, defaultSets: SignerSets): BridgeState {
    Restored(s, defaultSets).(claims := WithoutTxHash(s.claims))
  }

  method LoadSigners(entries: seq<Entry<Value>>) returns (ok: bool, sets: SignerSets)
    ensures forall section, m | IsListing(entries, section) && SectionHolds(section, m, VersionId, SignerValue)
      && SetsInv(m) ::
      ok && sets == m
  {
    hide NormalizeSet, IsListing, SectionHolds, SetsInv, VersionId;
    var taken: nat;
    sets, taken := ImportList(entries, IsSigners, EntryVersion, EntrySet);
    ok := taken == |entries|;
    assert entries[..|entries|] == entries;
    forall section, m | IsListing(entries, section) && SectionHolds(section, m, VersionId, SignerValue) && SetsInv(m)
      ensures ok && sets == m
    {
      SignersListed(entries, section, m);
      ImportExport(entries, m, EntryVersion, EntrySet);
    }
  }

  lemma SignersListed(entries: seq<Entry<Value>>, section: Cells, sets: SignerSets)
    requires IsListing(entries, section) && SectionHolds(section, sets, VersionId, SignerValue) && SetsInv(sets)
    ensures Lists(entries, sets, EntryVersion, EntrySet) && forall i | 0 <= i < |entries| :: IsSigners(entries[i])
  {
    hide NormalizeSet, VersionId, LexLe;
    forall e | e in entries ensures IsSigners(e) && EntryVersion(e) in sets && sets[EntryVersion(e)] == EntrySet(e) {
      var v :| v in sets && VersionId(v) == e.id;
    }
    forall v | v in sets ensures exists e :: e in entries && EntryVersion(e) == v {
      var e := Entry(VersionId(v), Signers(sets[v]));
      assert e in entries && EntryVersion(e) == v;
    }
  }

  method LoadClaims(entries: seq<Entry<Value>>) returns (ok: bool, claims: map<string, ClaimRecord>)
    ensures forall section, m | IsListing(entries, section) && SectionHolds(section, m, SameId, ClaimValue) ::
      ok && claims == WithoutTxHash(m)
  {
    hide IsListing, SectionHolds, IsClaim, EntryClaim, EntryClaimKey;
    var taken: nat;
    claims, taken := ImportList(entries, IsClaim, EntryClaimKey, EntryClaim);
    ok := taken == |entries|;
    assert entries[..|entries|] == entries;
    forall section, m | IsListing(entries, section) && SectionHolds(section, m, SameId, ClaimValue)
      ensures ok && claims == WithoutTxHash(m)
    {
      ClaimsListed(entries, section, m);
      ImportExport(entries, WithoutTxHash(m), EntryClaimKey, EntryClaim);
    }
  }

  lemma ListedClaim(e: Entry<Value>, section: Cells, claims: map<string, ClaimRecord>)
    requires e.id in section && section[e.id] == Json(e.value) && SectionHolds(section, claims, SameId, ClaimValue)
    ensures IsClaim(e) && EntryClaimKey(e) in claims && EntryClaim(e) == WithoutTxHash(claims)[EntryClaimKey(e)]
  {
    hide LexLe, Render, ParseInt;
    var k :| k in claims && SameId(k) == e.id;
    ParseRender(claims[k].amount);
  }

  lemma ClaimHasEntry(entries: seq<Entry<Value>>, section: Cells, claims: map<string, ClaimRecord>, k: string)
    requires IsListing(entries, section) && SectionHolds(section, claims, SameId, ClaimValue) && k in claims
    ensures exists e :: e in entries && EntryClaimKey(e) == k
  {
    hide LexLe, Render, ParseInt;
    var e := Entry(SameId(k), ClaimValue(k, claims[k]));
    ParseRender(claims[k].amount);
    assert e in entries && EntryClaimKey(e) == k;
  }

  lemma ClaimsListed(entries: seq<Entry<Value>>, section: Cells, claims: map<string, ClaimRecord>)
    requires IsListing(entries, section) && SectionHolds(section, claims, SameId, ClaimValue)
    ensures Lists(entries, WithoutTxHash(claims), EntryClaimKey, EntryClaim)
    ensures forall i | 0 <= i < |entries| :: IsClaim(entries[i])
  {
    hide LexLe, Render, ParseInt, SectionHolds, EntryClaimKey, EntryClaim, IsClaim;
    forall e | e in entries
      ensures IsClaim(e) && EntryClaimKey(e) in claims && EntryClaim(e) == WithoutTxHash(claims)[EntryClaimKey(e)]
    {
      ListedClaim(e, section, claims);
    }
    forall k | k in claims ensures exists e :: e in entries && EntryClaimKey(e) == k {
      ClaimHasEntry(entries, section, claims, k);
    }
  }

  method LoadSupply(entries: seq<Entry<Value>>) returns (ok: bool, supply: map<string, int>)
    ensures forall section, m | IsListing(entries, section) && SectionHolds(section, m, SameId, SupplyValue) ::
      ok && supply == m
  {
    hide IsListing, SectionHolds, IsSupply, EntrySupply;
    var taken: nat;
    supply, taken := ImportList(entries, IsSupply, EntryId, EntrySupply);
    ok := taken == |entries|;
    assert entries[..|entries|] == entries;
    forall section, m | IsListing(entries, section) && SectionHolds(section, m, SameId, SupplyValue)
      ensures ok && supply == m {
      SupplyListed(entries, section, m);
      ImportExport(entries, m, EntryId, EntrySupply);
    }
  }

  lemma SupplyListed(entries: seq<Entry<Value>>, section: Cells, supply: map<string, int>)
    requires IsListing(entries, section) && SectionHolds(section, supply, SameId, SupplyValue)
    ensures Lists(entries, supply, EntryId, EntrySupply) && forall i | 0 <= i < |entries| :: IsSupply(entries[i])
  {
    hide LexLe, Render, ParseInt;
    forall e | e in entries ensures IsSupply(e) && EntryId(e) in supply && EntrySupply(e) == supply[EntryId(e)] {
      var d :| d in supply && SameId(d) == e.id;
      ParseRender(supply[d]);
    }
    forall d | d in supply ensures exists e :: e in entries && EntryId(e) == d {
      var e := Entry(SameId(d), SupplyValue(d, supply[d]));
      assert e in entries && EntryId(e) == d;
    }
  }

  /** Appended in the order the iterator yields them. */
  method LoadWithdrawals(entries: seq<Entry<Value>>) returns (ok: bool, ws: seq<WithdrawalRecord>)
    ensures forall section, m: seq<WithdrawalRecord> |
      IsListing(entries, section) && |m| <= MAX_INDEX && SectionHolds(section, Indexed(m), Index, WithdrawalValue) ::
        ok && ws == m
  {
    hide IsListing, SectionHolds, ParseInt, Index;
    ws := [];
    ok := true;
    while |ws| < |entries|
      invariant |ws| <= |entries|
      invariant forall i | 0 <= i < |ws| ::
        IsWithdrawal(entries[i]) && ws[i] == ReadWithdrawal(entries[i].value.withdrawal)
    {
      if !IsWithdrawal(entries[|ws|]) {
        ok := false;
        break;
      }
      ws := ws + [ReadWithdrawal(entries[|ws|].value.withdrawal)];
    }
    forall section, m: seq<WithdrawalRecord>
      | IsListing(entries, section) && |m| <= MAX_INDEX && SectionHolds(section, Indexed(m), Index, WithdrawalValue)
      ensures ok && ws == m
    {
      WithdrawalsListed(entries, section, m);
    }
  }

  /** Zero-padded keys come back in recording order. */
  lemma WithdrawalsListed(entries: seq<Entry<Value>>, section: Cells, ws: seq<WithdrawalRecord>)
    requires IsListing(entries, section) && |ws| <= MAX_INDEX
    requires SectionHolds(section, Indexed(ws), Index, WithdrawalValue)
    ensures |entries| == |ws|
    ensures forall i | 0 <= i < |ws| :: IsWithdrawal(entries[i]) && ReadWithdrawal(entries[i].value.withdrawal) == ws[i]
  {
    hide LexLe, Index, Render, ParseInt, IsListing;
    var ids := seq(|entries|, i requires 0 <= i < |entries| => entries[i].id);
    var expected := seq(|ws|, i requires 0 <= i < |ws| => Index(i));
    ListedIds(entries, section, ws, ids, expected);
    LexOrder();
    hide SectionHolds;
    SortedUnique(ids, expected, LexLe);
    hide Sorted, Distinct;
    forall i | 0 <= i < |ws| ensures IsWithdrawal(entries[i]) && ReadWithdrawal(entries[i].value.withdrawal) == ws[i] {
      assert ids[i] == expected[i];
      ListedRecord(entries, section, ws, i);
    }
  }

  lemma ListedIds(entries: seq<Entry<Value>>, section: Cells, ws: seq<WithdrawalRecord>, ids: seq<string>,
                  expected: seq<string>)
    requires IsListing(entries, section) && |ws| <= MAX_INDEX
    requires SectionHolds(section, Indexed(ws), Index, WithdrawalValue)
    requires ids == seq(|entries|, i requires 0 <= i < |entries| => entries[i].id)
    requires expected == seq(|ws|, i requires 0 <= i < |ws| => Index(i))
    ensures Sorted(ids, LexLe) && Sorted(expected, LexLe) && Distinct(ids) && Distinct(expected)
    ensures forall x :: x in ids <==> x in expected
  {
    ListingSorted(entries, section, ids);
    IndicesSorted(expected);
    hide Sorted, Distinct, IsListing, SectionHolds, LexLe, Index;
    forall x ensures x in ids <==> x in expected {
      ListedId(entries, section, ws, x);
      ListedOrExpected(entries, ids, ws, expected, x);
    }
  }

  lemma ListingSorted(entries: seq<Entry<Value>>, section: Cells, ids: seq<string>)
    requires IsListing(entries, section)
    requires ids == seq(|entries|, i requires 0 <= i < |entries| => entries[i].id)
    ensures Sorted(ids, LexLe) && Distinct(ids)
  {
    hide LexLe;
  }

  lemma IndicesSorted(expected: seq<string>)
    requires |expected| <= MAX_INDEX && expected == seq(|expected|, i requires 0 <= i < |expected| => Index(i))
    ensures Sorted(expected, LexLe) && Distinct(expected)
  {
    hide LexLe, Index;
    forall i, j | 0 <= i < j < |expected| ensures LexLe(expected[i], expected[j]) && expected[i] != expected[j] {
      IndexOrder(i, j);
    }
  }

  lemma ListedOrExpected(entries: seq<Entry<Value>>, ids: seq<string>, ws: seq<WithdrawalRecord>,
                         expected: seq<string>, x: string)
    requires ids == seq(|entries|, i requires 0 <= i < |entries| => entries[i].id)
    requires |ws| <= MAX_INDEX && expected == seq(|ws|, i requires 0 <= i < |ws| => Index(i))
    ensures x in ids <==> exists i | 0 <= i < |entries| :: entries[i].id == x
    ensures x in expected <==> exists k | 0 <= k < |ws| :: Index(k) == x
  {
    hide Index;
    if i :| 0 <= i < |entries| && entries[i].id == x { assert ids[i] == x; }
    if k :| 0 <= k < |ws| && Index(k) == x { assert expected[k] == x; }
  }

  /** The section lists an ID exactly when it is the index of a withdrawal. */
  lemma ListedId(entries: seq<Entry<Value>>, section: Cells, ws: seq<WithdrawalRecord>, x: string)
    requires IsListing(entries, section) && |ws| <= MAX_INDEX
    requires SectionHolds(section, Indexed(ws), Index, WithdrawalValue)
    ensures (exists i | 0 <= i < |entries| :: entries[i].id == x) <==> exists k | 0 <= k < |ws| :: Index(k) == x
  {
    hide LexLe, Index;
    if i :| 0 <= i < |entries| && entries[i].id == x {
      assert entries[i] in entries;
      var k :| k in Indexed(ws) && Index(k) == x;
    }
    if k :| 0 <= k < |ws| && Index(k) == x {
      assert k in Indexed(ws);
      var e := Entry(x, WithdrawalValue(k, ws[k]));
      assert e in entries;
      var i :| 0 <= i < |entries| && entries[i] == e;
    }
  }

  lemma ListedRecord(entries: seq<Entry<Value>>, section: Cells, ws: seq<WithdrawalRecord>, i: nat)
    requires IsListing(entries, section) && |ws| <= MAX_INDEX
    requires SectionHolds(section, Indexed(ws), Index, WithdrawalValue)
    requires i < |ws| && i < |entries| && entries[i].id == Index(i)
    ensures IsWithdrawal(entries[i]) && ReadWithdrawal(entries[i].value.withdrawal) == ws[i]
  {
    hide LexLe, Index, Render, ParseInt, Sorted, Distinct;
    assert entries[i] in entries;
    assert i in Indexed(ws);
    ParseRender(ws[i].amount);
  }

  /** The stored metadata, or nothing when it is missing or not of the right shape. */
  method LoadMeta(store: Store) returns (meta: Option<Value>)
    ensures forall s | Holds(store.kv, s) :: meta == Some(MetaOf(s))
  {
    hide PrefixBytes, Trim, SectionHolds, Section;
    PrefixNames();
    var cell := store.Load("meta", "runtime");
    meta := if cell.Some? && cell.value.Json? && cell.value.value.Meta? then Some(cell.value.value) else None;
  }

  lemma AllJson<K(!new), R(!new)>(section: Cells, m: map<K, R>, id: K -> string, value: (K, R) -> Value)
    requires SectionHolds(section, m, id, value)
    ensures forall x | x in section :: section[x].Json?
  {
  }

  lemma HoldsJson(kv: Cells, s: BridgeState)
    requires Holds(kv, s)
    ensures forall id | id in Section(kv, "signer_set/") :: Section(kv, "signer_set/")[id].Json?
    ensures forall id | id in Section(kv, "claim/") :: Section(kv, "claim/")[id].Json?
    ensures forall id | id in Section(kv, "supply/") :: Section(kv, "supply/")[id].Json?
    ensures forall id | id in Section(kv, "withdrawal/") :: Section(kv, "withdrawal/")[id].Json?
  {
    hide SectionHolds, Section;
    AllJson(Section(kv, "signer_set/"), s.signerSets, VersionId, SignerValue);
    AllJson(Section(kv, "claim/"), s.claims, SameId, ClaimValue);
    AllJson(Section(kv, "supply/"), s.supply, SameId, SupplyValue);
    AllJson(Section(kv, "withdrawal/"), Indexed(s.withdrawals), Index, WithdrawalValue);
  }

  /** The four `LoadAll` visits. */
  method LoadSections(store: Store)
    returns (ok: bool, sets: SignerSets, claims: map<string, ClaimRecord>, supply: map<string, int>,
      ws: seq<WithdrawalRecord>)
    ensures forall s | Holds(store.kv, s) && Storable(s) && |s.withdrawals| <= MAX_INDEX ::
      ok && sets == s.signerSets && claims == WithoutTxHash(s.claims) && supply == s.supply && ws == s.withdrawals
  {
    hide PrefixBytes, SectionHolds, Section, IsListing, SetsInv, Trim, WithoutTxHash, Index;
    PrefixNames();
    var entries;
    var ok1, ok2, ok3, ok4;
    var ok5, ok6, ok7, ok8;
    ok1, entries := store.LoadAll("signer_set");
    ok2, sets := LoadSigners(entries);
    ok3, entries := store.LoadAll("claim");
    ok4, claims := LoadClaims(entries);
    ok5, entries := store.LoadAll("supply");
    ok6, supply := LoadSupply(entries);
    ok7, entries := store.LoadAll("withdrawal");
    ok8, ws := LoadWithdrawals(entries);
    ok := ok1 && ok2 && ok3 && ok4 && ok5 && ok6 && ok7 && ok8;
    forall s | Holds(store.kv, s) && Storable(s) && |s.withdrawals| <= MAX_INDEX
      ensures ok && sets == s.signerSets && claims == WithoutTxHash(s.claims) && supply == s.supply
      ensures ws == s.withdrawals
    {
      HoldsJson(store.kv, s);
    }
  }

  /** `loadFromPrefixStore` into a keeper that still has its default signer sets. */
  method LoadFromPrefixStore(k: BridgeKeeper, store: Store) returns (ok: bool)
    modifies k
    ensures forall s | Holds(store.kv, s) && Storable(s) && |s.withdrawals| <= MAX_INDEX ::
      ok && k.State() == Reloaded(s, old(k.signerSets))
  {
    hide Holds, Storable, WithoutTxHash;
    var defaults := k.signerSets;
    k.nextWithdrawalNonce := 1;
    var meta := LoadMeta(store);
    if meta.Some? && meta.value.Meta? {
      var m := meta.value;
      k.currentHeight, k.nextWithdrawalNonce := m.currentHeight, if m.nextNonce == 0 then 1 else m.nextNonce;
      k.rejectedClaims, k.circuitBreakerTripped, k.lastInvariantError := m.rejected, m.tripped, m.lastError;
    }
    var sets;
    ok, sets, k.processedClaims, k.supplyByDenom, k.withdrawals := LoadSections(store);
    k.signerSets := if sets == map[] then defaults else sets;
  }

  ghost predicate HashesBlank(claims: map<string, ClaimRecord>) {
    forall k | k in claims :: claims[k].sourceTxHash == ""
  }

  /** The round trip: what a restarted keeper holds after the running one persisted. */
  method RestartRoundTrip(k: BridgeKeeper, restarted: BridgeKeeper, store: Store) returns (ok: bool)
    requires k != restarted && Storable(k.State()) && |k.withdrawals| <= MAX_INDEX
    modifies restarted, store
    ensures ok && restarted.State() == Reloaded(k.State(), old(restarted.signerSets))
    ensures k.signerSets != map[] ==>
      (restarted.State() == k.State() <==> k.nextWithdrawalNonce != 0 && HashesBlank(k.processedClaims))
    ensures ForeignKept(old(store.kv), store.kv)
  {
    hide Holds, Storable, ForeignKept, Reloaded;
    Persist(k, store);
    ok := LoadFromPrefixStore(restarted, store);
    if k.signerSets != map[] { RestartLossless(k.State(), old(restarted.signerSets)); }
  }

  /** Nothing is lost by a restart exactly when the nonce has not wrapped and no claim carried a transaction hash. */
  lemma RestartLossless(s: BridgeState, defaultSets: SignerSets)
    requires s.signerSets != map[]
    ensures Reloaded(s, defaultSets) == s <==> s.nextNonce != 0 && HashesBlank(s.claims)
  {
    if Reloaded(s, defaultSets) == s {
      assert WithoutTxHash(s.claims) == s.claims;
      forall k | k in s.claims ensures s.claims[k].sourceTxHash == "" {
        assert WithoutTxHash(s.claims)[k].sourceTxHash == "";
      }
    } else {
      assert s.nextNonce != 0 && (forall k | k in s.claims :: s.claims[k].sourceTxHash == "") ==>
        WithoutTxHash(s.claims) == s.claims;
    }
  }

  // ---- every reachable keeper is storable ---------------------------------------------------

  /** Hash digests are printed in hexadecimal, so trimming leaves them alone. */
  ghost predicate HexDigests(c: Crypto) {
    forall x :: Trim(c.sha256Hex(x)) == c.sha256Hex(x)
  }

  ghost predicate KeysTrimmed(b: BridgeState) {
    && (forall k | k in b.claims :: Trim(k) == k)
    && (forall d | d in b.supply :: Trim(d) == d)
  }

  lemma AcceptedKeysTrimmed(c: Crypto, b: BridgeState, p: Policy, claim: DepositClaim)
    requires HexDigests(c) && Registry.RegistryInv(p.assets) && KeysTrimmed(b)
    requires Trim(claim.assetID) in p.assets && claim.amount.Some?
    ensures KeysTrimmed(AcceptDeposit(c, b, p, claim))
  {
    hide Trim, Registry.BridgeDenom, IdentityBytes, Registry.RegistryInv;
    Registry.BridgeAndBankAgree(p.assets, Trim(claim.assetID));
  }

  lemma SubmitStorable(c: Crypto, s: L.LedgerState, claim0: DepositClaim, att: Attestations.Attestation, persists: bool)
    requires HexDigests(c) && L.LedgerInv(s) && KeysTrimmed(s.bridge)
    ensures KeysTrimmed(L.Submit(c, s, claim0, att, persists).0.bridge)
  {
    hide Trim, KeysTrimmed, AuditPasses, VerifyDeposit, AcceptDeposit, ValidClaim, IdentityBytes, Registry.RegistryInv,
         SetsInv, L.Books, Registry.BridgeDenom;
    L.InvAudits(c, s, claim0, att);
    KeysTrimmedIgnores(s.bridge, Reject(s.bridge));
    KeysTrimmedIgnores(s.bridge, L.RolledBack(s.bridge));
    var address := L.NormalizeAddress(c, claim0.recipient);
    if address.Some? {
      var claim := claim0.(recipient := address.value);
      if DepositChecks(c, s.bridge, s.policy, s.limits, claim, att).None? {
        ValidClaimFacts(c, claim);
        AcceptedKeysTrimmed(c, s.bridge, s.policy, claim);
      }
    }
  }

  lemma KeysTrimmedIgnores(b: BridgeState, b': BridgeState)
    requires b'.claims == b.claims && b'.supply.Keys == b.supply.Keys
    ensures KeysTrimmed(b) ==> KeysTrimmed(b')
  {
    hide Trim;
  }

  lemma BurntKeys(c: Crypto, b: BridgeState, p: Policy, r: WithdrawalRequest)
    requires Trim(r.assetID) in p.assets && r.amount.Some? && SupplyCovers(b, p, r)
    ensures AcceptWithdrawal(c, b, p, r).claims == b.claims && AcceptWithdrawal(c, b, p, r).supply.Keys == b.supply.Keys
  {
    hide Trim, NewRecord, Registry.BridgeDenom;
  }

  lemma WithdrawStorable(c: Crypto, s: L.LedgerState, owner: string, r: WithdrawalRequest, persists: bool)
    requires KeysTrimmed(s.bridge)
    ensures KeysTrimmed(L.Withdraw(c, s, owner, r, persists).0.bridge)
  {
    hide Trim, KeysTrimmed, AuditPasses, NewRecord, Lower, Registry.BridgeDenom, AcceptWithdrawal, SupplyCovers,
         Limits.CheckTransfer, Limits.RecordTransfer, Bank.DebitError, Bank.Debited;
    if WithdrawChecks(s.bridge, s.policy, s.limits, r).None?
      && SupplyCovers(s.bridge, s.policy, r) { BurntKeys(c, s.bridge, s.policy, r); }
    var t := L.Withdraw(c, s, owner, r, persists).0;
    assert t.bridge.claims == s.bridge.claims && t.bridge.supply.Keys == s.bridge.supply.Keys;
    KeysTrimmedIgnores(s.bridge, t.bridge);
  }

  lemma {:induction false} DrainStorable(c: Crypto, s: L.LedgerState, queue: seq<L.QueuedClaim>, oracle: nat -> bool)
    requires HexDigests(c) && L.LedgerInv(s) && KeysTrimmed(s.bridge)
    ensures KeysTrimmed(L.Drain(c, s, queue, oracle).bridge)
  {
    hide L.LedgerInv, L.Submit, KeysTrimmed, HexDigests;
    if queue != [] {
      var n := |queue| - 1;
      DrainStorable(c, s, queue[..n], oracle);
      L.DrainKeepsInv(c, s, queue[..n], oracle);
      SubmitStorable(c, L.Drain(c, s, queue[..n], oracle), queue[n].claim, queue[n].attestation, oracle(n));
    }
  }

  lemma StepStorable(c: Crypto, s: L.LedgerState, op: L.Op)
    requires HexDigests(c) && L.LedgerInv(s) && KeysTrimmed(s.bridge)
    ensures KeysTrimmed(L.Step(c, s, op).bridge)
  {
    hide L.Submit, L.Withdraw, L.Drain, L.Queue, Registry.Register, Registry.SetEnabled, Upsert, Limits.PutLimit, Trim,
         KeysTrimmed, L.LedgerInv, HexDigests;
    var t := L.Step(c, s, op);
    match op
    case DoSubmit(claim, att, persists) => SubmitStorable(c, s, claim, att, persists);
    case DoAdvance(oracle) =>
      var next := s.(bridge := s.bridge.(currentHeight := Add64(s.bridge.currentHeight, 1)), pending := []);
      L.HeightKeepsInv(s, next);
      KeysTrimmedIgnores(s.bridge, next.bridge);
      DrainStorable(c, next, s.pending, oracle);
    case DoWithdraw(owner, req, persists) => WithdrawStorable(c, s, owner, req, persists);
    case DoQueue(claim, att) => L.QueueKeepsBridge(c, s, claim, att);
    case _ => KeysTrimmedIgnores(s.bridge, t.bridge);
  }

  /** Whatever an application went through, its keeper can be persisted and read back. */
  lemma {:induction false} ReachableStorable(c: Crypto, allowedSigners: seq<string>, requiredThreshold: U32,
                                             ops: seq<L.Op>)
    requires HexDigests(c)
    ensures Storable(L.Run(c, L.GenesisLedger(allowedSigners, requiredThreshold), ops).bridge)
  {
    hide L.Step, Trim, HexDigests, SetsInv, L.Books;
    var s0 := L.GenesisLedger(allowedSigners, requiredThreshold);
    L.GenesisInv(allowedSigners, requiredThreshold);
    L.RunKeepsInv(c, s0, ops);
    if ops != [] {
      var front := ops[..|ops| - 1];
      ReachableStorable(c, allowedSigners, requiredThreshold, front);
      L.RunKeepsInv(c, s0, front);
      StepStorable(c, L.Run(c, s0, front), ops[|ops| - 1]);
    }
  }
}
