/** A JSON store with prefixed keys over an ordered key-value store; JSON is the identity on values. */
module PrefixStore {
  import opened Base
  import opened Text
  import opened Sorting

  function PrefixBytes(prefix: string): string {
    if Trim(prefix) == "" then "" else Trim(prefix) + "/"
  }

  function Key(prefix: string, id: string): string {
    PrefixBytes(prefix) + Trim(id)
  }

  datatype Cell<V> = Initialized | Json(value: V)

  datatype Entry<V> = Entry(id: string, value: V)

  /** The cells whose key starts with `pre`, by the rest of the key. */
  ghost function Section<V(!new)>(kv: map<string, Cell<V>>, pre: string): map<string, Cell<V>> {
    map id | id in Tails(kv, pre) :: kv[pre + id]
  }

  ghost function Tails<V(!new)>(kv: map<string, Cell<V>>, pre: string): (ids: set<string>)
    ensures forall id :: id in ids <==> pre + id in kv
  {
    var ids := set x | x in kv && pre <= x :: x[|pre|..];
    assert forall id :: pre <= pre + id && (pre + id)[|pre|..] == id;
    assert forall x | pre <= x :: pre + x[|pre|..] == x;
    ids
  }

  /** Nothing was touched outside `pre`. */
  ghost predicate SameOutside<V(!new)>(kv: map<string, Cell<V>>, kv': map<string, Cell<V>>, pre: string) {
    forall x | !(pre <= x) :: (x in kv <==> x in kv') && (x in kv ==> kv[x] == kv'[x])
  }

  lemma OtherSection<V(!new)>(kv: map<string, Cell<V>>, kv': map<string, Cell<V>>, pre: string, other: string)
    requires SameOutside(kv, kv', pre) && !(pre <= other) && !(other <= pre)
    ensures Section(kv', other) == Section(kv, other)
  {
    forall id ensures !(pre <= other + id) {
      assert (other + id)[..|other|] == other;
    }
  }

  lemma SameOutsideTwice<V(!new)>(a: map<string, Cell<V>>,
    b: map<string, Cell<V>>, c: map<string, Cell<V>>, pre: string)
    requires SameOutside(a, b, pre) && SameOutside(b, c, pre)
    ensures SameOutside(a, c, pre)
  {
  }

  /** Entries of a section in ascending key order, each once. */
  ghost predicate IsListing<V(!new)>(entries: seq<Entry<V>>, section: map<string, Cell<V>>) {
    && (forall i, j | 0 <= i < j < |entries| :: LexLe(entries[i].id, entries[j].id))
    && (forall i, j | 0 <= i < j < |entries| :: entries[i].id != entries[j].id)
    && (forall e :: e in entries <==> e.id in section && section[e.id] == Json(e.value))
  }

  lemma EntriesList<V(!new)>(kv: map<string, Cell<V>>, pre: string, ids: seq<string>, entries: seq<Entry<V>>)
    requires Sorted(ids, LexLe) && Distinct(ids) && |entries| == |ids|
    requires forall id :: id in ids <==> pre + id in kv
    requires forall i | 0 <= i < |ids| ::
      pre + ids[i] in kv && entries[i].id == ids[i] && kv[pre + ids[i]] == Json(entries[i].value)
    ensures IsListing(entries, Section(kv, pre))
  {
    hide LexLe;
    var section := Section(kv, pre);
    forall e ensures e in entries <==> e.id in section && section[e.id] == Json(e.value) {
      if e.id in section && section[e.id] == Json(e.value) {
        var i :| 0 <= i < |ids| && ids[i] == e.id;
        assert entries[i] == e;
      }
    }
  }

  class JSONPrefixStore<V(==, !new)> {
    var kv: map<string, Cell<V>>

    constructor ()
      ensures kv == map[]
    {
      kv := map[];
    }

    method Save(prefix: string, id: string, value: V)
      modifies this
      ensures SameOutside(old(kv), kv, PrefixBytes(prefix))
      ensures Section(kv, PrefixBytes(prefix)) == old(Section(kv, PrefixBytes(prefix)))[Trim(id) := Json(value)]
    {
      hide Trim;
      kv := kv[Key(prefix, id) := Json(value)];
      assert PrefixBytes(prefix) <= Key(prefix, id);
      forall x | PrefixBytes(prefix) + x == Key(prefix, id) ensures x == Trim(id) {
        assert (PrefixBytes(prefix) + x)[|PrefixBytes(prefix)|..] == x;
        assert Key(prefix, id)[|PrefixBytes(prefix)|..] == Trim(id);
      }
    }

    method ClearPrefix(prefix: string)
      modifies this
      ensures SameOutside(old(kv), kv, PrefixBytes(prefix))
      ensures Section(kv, PrefixBytes(prefix)) == map[]
    {
      hide PrefixBytes;
      var pre := PrefixBytes(prefix);
      var keys := set x | x in kv && pre <= x;
      kv := kv - keys;
      assert forall id :: pre <= pre + id;
    }

    method Load(prefix: string, id: string) returns (cell: Option<Cell<V>>)
      ensures cell == if Trim(id) in Section(kv, PrefixBytes(prefix)) then
        Some(Section(kv, PrefixBytes(prefix))[Trim(id)])
      else None
    {
      hide Trim, PrefixBytes;
      var key := PrefixBytes(prefix) + Trim(id);
      cell := if key in kv then Some(kv[key]) else None;
    }

    /** The keys of a section in ascending order: what a prefix iterator visits. */
    method SortedIds(pre: string) returns (ids: seq<string>)
      ensures Sorted(ids, LexLe) && Distinct(ids)
      ensures forall id :: id in ids <==> pre + id in kv
    {
      hide LexLe;
      var keys := set x | x in kv && pre <= x;
      ids := [];
      assert forall id :: pre <= pre + id && (pre + id)[|pre|..] == id;
      while keys != {}
        invariant keys <= kv.Keys && forall x | x in keys :: pre <= x
        invariant Distinct(ids)
        invariant forall id :: id in ids <==> pre + id in kv && pre + id !in keys
        decreases |keys|
      {
        var x :| x in keys;
        assert pre + x[|pre|..] == x;
        ids := ids + [x[|pre|..]];
        keys := keys - {x};
      }
      LexOrder();
      SortSorts(ids, LexLe);
      SortDistinct(ids, LexLe);
      SortMembers(ids, LexLe);
      ids := Sort(ids, LexLe);
    }

    /** Visits a section in key order; it stops at a cell that is not a JSON value. */
    method LoadAll(prefix: string) returns (ok: bool, entries: seq<Entry<V>>)
      ensures (forall id | id in Section(kv, PrefixBytes(prefix)) :: Section(kv, PrefixBytes(prefix))[id].Json?) ==>
        ok && IsListing(entries, Section(kv, PrefixBytes(prefix)))
    {
      hide PrefixBytes, LexLe;
      var pre := PrefixBytes(prefix);
      ghost var section := Section(kv, pre);
      var ids := SortedIds(pre);
      entries := [];
      while |entries| < |ids|
        invariant |entries| <= |ids|
        invariant forall i | 0 <= i < |entries| :: entries[i].id == ids[i] && kv[pre + ids[i]] == Json(entries[i].value)
      {
        var id := ids[|entries|];
        assert id in ids;
        if kv[pre + id].Initialized? {
          assert id in section;
          return false, entries;
        }
        entries := entries + [Entry(id, kv[pre + id].value)];
      }
      ok := true;
      EntriesList(kv, pre, ids, entries);
    }

    /** `Commit` also plants the initialization marker outside every section in use. */
    method Commit()
      modifies this
      ensures SameOutside(old(kv), kv, "_meta/")
    {
      var key := "_meta/initialized";
      assert "_meta/" <= key;
      if key !in kv {
        kv := kv[key := Initialized];
      }
    }

    /** The saving loops: one cell per entry of a map, in any order. */
    method SaveMap<K(==, !new), R(!new)>(prefix: string, m: map<K, R>, id: K -> string, value: (K, R) -> V)
      requires forall j, k | j in m && k in m && id(j) == id(k) :: j == k
      requires forall k | k in m :: Trim(id(k)) == id(k)
      requires Section(kv, PrefixBytes(prefix)) == map[]
      modifies this
      ensures SameOutside(old(kv), kv, PrefixBytes(prefix))
      ensures SectionHolds(Section(kv, PrefixBytes(prefix)), m, id, value)
    {
      hide PrefixBytes, Trim, SameOutside, SectionHolds, Section;
      var todo := m.Keys;
      ghost var done: map<K, R> := map[];
      NothingHeld(kv, PrefixBytes(prefix), id, value);
      while todo != {}
        invariant todo <= m.Keys
        invariant forall k :: k in done <==> k in m && k !in todo
        invariant forall k | k in done :: done[k] == m[k]
        invariant SameOutside(old(kv), kv, PrefixBytes(prefix))
        invariant SectionHolds(Section(kv, PrefixBytes(prefix)), done, id, value)
        decreases |todo|
      {
        var k :| k in todo;
        ghost var before := kv;
        Save(prefix, id(k), value(k, m[k]));
        SameOutsideTwice(old(kv), before, kv, PrefixBytes(prefix));
        HoldsOneMore(Section(before, PrefixBytes(prefix)), done, k, m[k], id, value);
        todo := todo - {k};
        done := done[k := m[k]];
      }
      assert done == m;
    }
  }

  lemma NothingHeld<K(!new), R(!new),
    V(!new)>(kv: map<string, Cell<V>>, pre: string, id: K -> string, value: (K, R) -> V)
    requires Section(kv, pre) == map[]
    ensures SameOutside(kv, kv, pre) && SectionHolds(Section(kv, pre), map[], id, value)
  {
  }

  /** The section holds one JSON cell per entry of `m` and nothing else. */
  ghost predicate SectionHolds<K(!new), R(!new), V(!new)>(section: map<string, Cell<V>>, m: map<K, R>,
                                                          id: K -> string, value: (K, R) -> V) {
    && (forall k | k in m :: id(k) in section && section[id(k)] == Json(value(k, m[k])))
    && (forall x | x in section :: exists k :: k in m && id(k) == x)
  }

  lemma HoldsOneMore<K(!new), R(!new), V(!new)>(section: map<string, Cell<V>>, m: map<K, R>, k: K, r: R,
                                                  id: K -> string, value: (K, R) -> V)
    requires SectionHolds(section, m, id, value) && k !in m
    requires forall j | j in m :: id(j) != id(k)
    ensures SectionHolds(section[id(k) := Json(value(k, r))], m[k := r], id, value)
  {
    var m' := m[k := r];
    var section' := section[id(k) := Json(value(k, r))];
    assert k in m';
    forall x | x in section' ensures exists j :: j in m' && id(j) == x {
      if x != id(k) {
        assert x in section;
        var j :| j in m && id(j) == x;
        assert j in m';
      }
    }
  }
}
