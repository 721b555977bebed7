/** Exporting a map as a slice in arbitrary order and importing it back. */
module Listing {

  /** `vs` holds a snapshot of every entry of `m` and nothing else; order and repetition are free. */
  ghost predicate Lists<K(!new), R, V>(vs: seq<V>, m: map<K, R>, key: V -> K, val: V -> R) {
    && (forall v | v in vs :: key(v) in m && m[key(v)] == val(v))
    && (forall k | k in m :: exists v :: v in vs && key(v) == k)
  }

  /** The map an import loop builds: later entries overwrite earlier ones. */
  function FromList<K, R, V>(vs: seq<V>, key: V -> K, val: V -> R): map<K, R> {
    if vs == [] then map[]
    else FromList(vs[..|vs| - 1], key, val)[key(vs[|vs| - 1]) := val(vs[|vs| - 1])]
  }

  /** Import after export is the identity, whatever order the map was iterated in. */
  lemma ImportExport<K(!new), R(!new), V(!new)>(vs: seq<V>, m: map<K, R>, key: V -> K, val: V -> R)
    requires Lists(vs, m, key, val)
    ensures FromList(vs, key, val) == m
  {
    FromListAgrees(vs, m, key, val);
    forall k | k in m ensures k in FromList(vs, key, val) {
      var v :| v in vs && key(v) == k;
    }
  }

  lemma {:induction false} FromListAgrees<K(!new), R(!new), V(!new)>(vs: seq<V>, m: map<K, R>, key: V -> K, val: V -> R)
    requires forall v | v in vs :: key(v) in m && m[key(v)] == val(v)
    ensures forall v | v in vs :: key(v) in FromList(vs, key, val)
    ensures forall k | k in FromList(vs, key, val) :: k in m && FromList(vs, key, val)[k] == m[k]
  {
    if vs != [] {
      var front := vs[..|vs| - 1];
      FromListAgrees(front, m, key, val);
      assert vs == front + [vs[|vs| - 1]];
    }
  }

  /** The loop of every `Export` function: `range` over a map, appending a snapshot of each entry. */
  method ExportMap<K(==, !new), R, V>(m: map<K, R>, snap: (K, R) -> V) returns (vs: seq<V>)
    ensures forall v | v in vs :: exists k :: k in m && v == snap(k, m[k])
    ensures forall k | k in m :: snap(k, m[k]) in vs
  {
    vs := [];
    var keys := m.Keys;
    while keys != {}
      invariant keys <= m.Keys
      invariant forall v | v in vs :: exists k :: k in m && v == snap(k, m[k])
      invariant forall k | k in m && k !in keys :: snap(k, m[k]) in vs
      decreases |keys|
    {
      var k :| k in keys;
      vs := vs + [snap(k, m[k])];
      keys := keys - {k};
    }
  }

  /** The loop of every `Import` function: stop at the first invalid entry, else store it under its key. */
  method ImportList<K(==), R, V>(vs: seq<V>, valid: V -> bool, key: V -> K, val: V -> R)
    returns (m: map<K, R>, taken: nat)
    ensures taken <= |vs| && m == FromList(vs[..taken], key, val)
    ensures forall i | 0 <= i < taken :: valid(vs[i])
    ensures taken < |vs| ==> !valid(vs[taken])
  {
    m := map[];
    taken := 0;
    while taken < |vs|
      invariant taken <= |vs| && m == FromList(vs[..taken], key, val)
      invariant forall i | 0 <= i < taken :: valid(vs[i])
    {
      if !valid(vs[taken]) {
        return;
      }
      m := m[key(vs[taken]) := val(vs[taken])];
      assert vs[..taken + 1][..taken] == vs[..taken];
      taken := taken + 1;
    }
  }
}
