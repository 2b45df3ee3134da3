/** The vectors of named records that hold every table of the bus, and their bounded name search. */
module Vectors {
  import opened Bytes

  datatype Named<+T> = Named(name: CString, val: T)

  function Clip(s: CString, limit: nat): CString {
    if |s| <= limit then s else s[..limit]
  }

  /** `strncmp(a, b, limit) == 0`. */
  predicate SameName(a: CString, b: CString, limit: nat) {
    Clip(a, limit) == Clip(b, limit)
  }

  /** The index of the first match, or the size when there is none. */
  function Find<T>(v: seq<Named<T>>, key: CString, limit: nat): (i: nat)
    ensures i <= |v|
    ensures i < |v| ==> SameName(v[i].name, key, limit)
    ensures forall j :: 0 <= j < i ==> !SameName(v[j].name, key, limit)
  {
    if |v| == 0 || SameName(v[0].name, key, limit) then 0 else 1 + Find(v[1..], key, limit)
  }

  predicate Has<T>(v: seq<Named<T>>, key: CString, limit: nat) {
    Find(v, key, limit) < |v|
  }

  function RemoveAt<T>(v: seq<T>, i: nat): seq<T>
    requires i < |v|
  {
    v[..i] + v[i + 1..]
  }

  function SetAt<T>(v: seq<Named<T>>, i: nat, val: T): seq<Named<T>>
    requires i < |v|
  {
    v[i := Named(v[i].name, val)]
  }

  lemma SetAtTwice<T>(v: seq<Named<T>>, i: nat, a: T, b: T)
    requires i < |v|
    ensures SetAt(SetAt(v, i, a), i, b) == SetAt(v, i, b)
    ensures SetAt(v, i, v[i].val) == v
  {
  }

  /** Names are pairwise different and shorter than the bound that searches compare up to. */
  predicate Keyed<T>(v: seq<Named<T>>, limit: nat) {
    && (forall i :: 0 <= i < |v| ==> |v[i].name| < limit)
    && (forall i, j :: 0 <= i < j < |v| ==> v[i].name != v[j].name)
  }

  lemma BoundedSearchIsExact<T>(v: seq<Named<T>>, key: CString, limit: nat)
    requires Keyed(v, limit)
    ensures forall i :: 0 <= i < |v| ==> (SameName(v[i].name, key, limit) <==> v[i].name == key)
    ensures Has(v, key, limit) ==> v[Find(v, key, limit)].name == key
    ensures !Has(v, key, limit) ==> forall i :: 0 <= i < |v| ==> v[i].name != key
  {
  }

  lemma FindAt<T>(v: seq<Named<T>>, i: nat, limit: nat)
    requires Keyed(v, limit) && i < |v|
    ensures Find(v, v[i].name, limit) == i
  {
    BoundedSearchIsExact(v, v[i].name, limit);
  }

  lemma PushSearch<T>(v: seq<Named<T>>, key: CString, val: T, other: CString, limit: nat)
    requires Keyed(v, limit) && !Has(v, key, limit) && |key| < limit
    ensures Keyed(v + [Named(key, val)], limit)
    ensures Find(v + [Named(key, val)], other, limit)
            == if other == key then |v| else if Has(v, other, limit) then Find(v, other, limit) else |v| + 1
  {
    BoundedSearchIsExact(v, key, limit);
    BoundedSearchIsExact(v, other, limit);
    var w := v + [Named(key, val)];
    BoundedSearchIsExact(w, other, limit);
    if other == key {
      FindAt(w, |v|, limit);
    } else if Has(v, other, limit) {
      FindAt(w, Find(v, other, limit), limit);
    }
  }

  lemma SetAtSearch<T>(v: seq<Named<T>>, i: nat, val: T, other: CString, limit: nat)
    requires Keyed(v, limit) && i < |v|
    ensures Keyed(SetAt(v, i, val), limit)
    ensures Find(SetAt(v, i, val), other, limit) == Find(v, other, limit)
  {
    var w := SetAt(v, i, val);
    assert forall j :: 0 <= j < |v| ==> w[j].name == v[j].name;
    BoundedSearchIsExact(v, other, limit);
    BoundedSearchIsExact(w, other, limit);
  }

  lemma RemovedAt<T>(v: seq<T>, i: nat, j: nat)
    requires i < |v| && j < |v| - 1
    ensures RemoveAt(v, i)[j] == v[if j < i then j else j + 1]
  {
  }

  lemma RemoveKeepsKeyed<T>(v: seq<Named<T>>, i: nat, limit: nat)
    requires Keyed(v, limit) && i < |v|
    ensures Keyed(RemoveAt(v, i), limit)
  {
    forall j | 0 <= j < |v| - 1 ensures RemoveAt(v, i)[j] == v[if j < i then j else j + 1] {
      RemovedAt(v, i, j);
    }
  }

  lemma RemoveSearch<T>(v: seq<Named<T>>, i: nat, other: CString, limit: nat)
    requires Keyed(v, limit) && i < |v|
    ensures Keyed(RemoveAt(v, i), limit)
    ensures Find(RemoveAt(v, i), other, limit)
            == if other == v[i].name || !Has(v, other, limit) then |v| - 1
               else if Find(v, other, limit) < i then Find(v, other, limit) else Find(v, other, limit) - 1
  {
    RemoveKeepsKeyed(v, i, limit);
    BoundedSearchIsExact(v, other, limit);
    BoundedSearchIsExact(RemoveAt(v, i), other, limit);
    if Has(v, other, limit) && other != v[i].name {
      var k := Find(v, other, limit);
      var k' := if k < i then k else k - 1;
      RemovedAt(v, i, k');
      FindAt(RemoveAt(v, i), k', limit);
    } else if Has(RemoveAt(v, i), other, limit) {
      RemovedAt(v, i, Find(RemoveAt(v, i), other, limit));
      assert false;
    }
  }

  /** The finite map that a vector stands for. */
  function Contents<T>(v: seq<Named<T>>): map<CString, T> {
    if |v| == 0 then map[]
    else
      var n := |v| - 1;
      Contents(v[..n])[v[n].name := v[n].val]
  }

  function Names<T>(v: seq<Named<T>>): set<CString> {
    set i | 0 <= i < |v| :: v[i].name
  }

  lemma {:induction false} KeysAreNames<T>(v: seq<Named<T>>)
    ensures Contents(v).Keys == Names(v)
  {
    if |v| == 0 {
    } else {
      var n := |v| - 1;
      KeysAreNames(v[..n]);
      assert v == v[..n] + [v[n]];
      assert Names(v) == Names(v[..n]) + {v[n].name} by {
        assert forall i :: 0 <= i < n ==> v[..n][i] == v[i];
      }
    }
  }

  lemma {:induction false} ValueAt<T>(v: seq<Named<T>>, i: nat, limit: nat)
    requires Keyed(v, limit) && i < |v|
    ensures v[i].name in Contents(v) && Contents(v)[v[i].name] == v[i].val
  {
    var n := |v| - 1;
    if i < n {
      ValueAt(v[..n], i, limit);
      assert v[i].name != v[n].name;
    }
  }

  lemma {:induction false} SizeOf<T>(v: seq<Named<T>>, limit: nat)
    requires Keyed(v, limit)
    ensures |Contents(v)| == |v|
  {
    if |v| == 0 {
    } else {
      var n := |v| - 1;
      SizeOf(v[..n], limit);
      KeysAreNames(v[..n]);
      assert v[n].name !in Contents(v[..n]);
    }
  }

  /** A bounded search of the vector is a full-name lookup in the map. */
  lemma SearchIsLookup<T>(v: seq<Named<T>>, key: CString, limit: nat)
    requires Keyed(v, limit)
    ensures Has(v, key, limit) <==> key in Contents(v)
    ensures Has(v, key, limit) ==> var i := Find(v, key, limit);
                                   v[i].name == key && v[i].val == Contents(v)[key]
  {
    KeysAreNames(v);
    BoundedSearchIsExact(v, key, limit);
    if Has(v, key, limit) {
      ValueAt(v, Find(v, key, limit), limit);
    }
  }

  lemma PushUpdates<T>(v: seq<Named<T>>, key: CString, val: T, limit: nat)
    requires Keyed(v, limit) && !Has(v, key, limit) && |key| < limit
    ensures Keyed(v + [Named(key, val)], limit)
    ensures Contents(v + [Named(key, val)]) == Contents(v)[key := val]
  {
    BoundedSearchIsExact(v, key, limit);
    var w := v + [Named(key, val)];
    assert w[..|w| - 1] == v;
  }

  lemma {:induction false} SetAtUpdates<T>(v: seq<Named<T>>, i: nat, val: T, limit: nat)
    requires Keyed(v, limit) && i < |v|
    ensures Keyed(SetAt(v, i, val), limit)
    ensures Contents(SetAt(v, i, val)) == Contents(v)[v[i].name := val]
  {
    var n, w := |v| - 1, SetAt(v, i, val);
    if i == n {
      assert w[..n] == v[..n];
    } else {
      SetAtUpdates(v[..n], i, val, limit);
      assert w[..n] == SetAt(v[..n], i, val);
      assert v[i].name != v[n].name;
    }
  }

  lemma {:induction false} RemoveDeletes<T>(v: seq<Named<T>>, i: nat, limit: nat)
    requires Keyed(v, limit) && i < |v|
    ensures Keyed(RemoveAt(v, i), limit)
    ensures Contents(RemoveAt(v, i)) == Contents(v) - {v[i].name}
  {
    RemoveKeepsKeyed(v, i, limit);
    var n, w := |v| - 1, RemoveAt(v, i);
    if i == n {
      assert w == v[..n];
      KeysAreNames(v[..n]);
    } else {
      RemoveDeletes(v[..n], i, limit);
      RemoveInFront(v, i);
      assert v[i].name != v[n].name;
      UpdateElsewhere(Contents(v[..n]), v[i].name, v[n].name, v[n].val);
    }
  }

  lemma UpdateElsewhere<T>(m: map<CString, T>, gone: CString, key: CString, val: T)
    requires gone != key
    ensures (m - {gone})[key := val] == m[key := val] - {gone}
  {
  }

  lemma RemoveInFront<T>(v: seq<T>, i: nat)
    requires i < |v| - 1
    ensures var n, w := |v| - 1, RemoveAt(v, i);
            |w| == n && w[..n - 1] == RemoveAt(v[..n], i) && w[n - 1] == v[n]
  {
  }
}
