/** A JavaScript `Map` whose values carry their own key (the stores of
    src/lib/db.ts map each record's `id` to the record): a sequence of values
    in insertion order, with at most one value per key. */
module Keyed {
  import opened Types

  /** No two values share a key. */
  ghost predicate Unique<V>(s: seq<V>, key: V -> string) {
    forall i, j :: 0 <= i < j < |s| ==> key(s[i]) != key(s[j])
  }

  /** The first index at or after `i` whose value has key `k`. */
  function FindFrom<V>(s: seq<V>, key: V -> string, k: string, i: nat): (r: Option<nat>)
    requires i <= |s|
    ensures r.Some? ==> i <= r.value < |s| && key(s[r.value]) == k
    decreases |s| - i
  {
    if i == |s| then None
    else if key(s[i]) == k then Some(i)
    else FindFrom(s, key, k, i + 1)
  }

  /** The index of the value with key `k`, if any. */
  function Find<V>(s: seq<V>, key: V -> string, k: string): (r: Option<nat>)
    ensures r.Some? ==> r.value < |s| && key(s[r.value]) == k
  {
    FindFrom(s, key, k, 0)
  }

  lemma {:induction false} FindFromMisses<V>(s: seq<V>, key: V -> string, k: string, i: nat)
    requires i <= |s|
    ensures FindFrom(s, key, k, i).None? ==> forall j :: i <= j < |s| ==> key(s[j]) != k
    ensures FindFrom(s, key, k, i).Some? ==> forall j :: i <= j < FindFrom(s, key, k, i).value ==> key(s[j]) != k
    decreases |s| - i
  {
    if i < |s| && key(s[i]) != k {
      FindFromMisses(s, key, k, i + 1);
    }
  }

  /** `Find` answers `None` exactly when no value has the key; otherwise it
      names the first value with that key, which is the only one when keys are
      unique. */
  lemma FindSpec<V>(s: seq<V>, key: V -> string, k: string)
    ensures Find(s, key, k).None? <==> forall j :: 0 <= j < |s| ==> key(s[j]) != k
    ensures Find(s, key, k).Some? ==> forall j :: 0 <= j < Find(s, key, k).value ==> key(s[j]) != k
    ensures Unique(s, key) && Find(s, key, k).Some? ==>
              forall j :: 0 <= j < |s| && key(s[j]) == k ==> j == Find(s, key, k).value
  {
    FindFromMisses(s, key, k, 0);
  }

  /** `Map.prototype.get`. */
  function Get<V>(s: seq<V>, key: V -> string, k: string): (r: Option<V>)
    ensures r.Some? ==> r.value in s && key(r.value) == k
    ensures r.None? <==> forall x :: x in s ==> key(x) != k
  {
    FindSpec(s, key, k);
    match Find(s, key, k)
    case None => None
    case Some(i) => Some(s[i])
  }

  /** `Map.prototype.set` with the value's own key: an existing value with that
      key is replaced where it stands, otherwise the value is appended. */
  function Put<V>(s: seq<V>, key: V -> string, v: V): (r: seq<V>)
    ensures v in r && |s| <= |r| <= |s| + 1
    ensures forall x :: x in r ==> x == v || x in s
  {
    match Find(s, key, key(v))
    case None => s + [v]
    case Some(i) =>
      assert s[i := v][i] == v;
      s[i := v]
  }

  /** `Map.prototype.delete`: the value with key `k` is removed and the order
      of the others is kept. */
  function Remove<V>(s: seq<V>, key: V -> string, k: string): (r: seq<V>)
    ensures |r| <= |s|
    ensures forall x :: x in r ==> x in s
    ensures (exists x :: x in s && key(x) == k) ==> |r| == |s| - 1
  {
    FindSpec(s, key, k);
    match Find(s, key, k)
    case None => s
    case Some(i) => s[..i] + s[i + 1..]
  }

  /** After a `Put`, the key reads back the value put, every other key reads
      back what it did before, and keys stay unique. */
  lemma PutSpec<V>(s: seq<V>, key: V -> string, v: V, k: string)
    requires Unique(s, key)
    ensures Unique(Put(s, key, v), key)
    ensures Get(Put(s, key, v), key, key(v)) == Some(v)
    ensures k != key(v) ==> Get(Put(s, key, v), key, k) == Get(s, key, k)
  {
    var r := Put(s, key, v);
    FindSpec(s, key, key(v));
    FindSpec(s, key, k);
    FindSpec(r, key, key(v));
    FindSpec(r, key, k);
    match Find(s, key, key(v))
    case None =>
      assert r == s + [v];
      assert r[|s|] == v;
      if k != key(v) {
        match Find(s, key, k)
        case None =>
        case Some(i) =>
          assert r[i] == s[i];
      }
    case Some(i) =>
      assert r == s[i := v] && r[i] == v;
      assert Find(r, key, key(v)) == Some(i);
      if k != key(v) {
        match Find(s, key, k)
        case None =>
          assert forall j :: 0 <= j < |r| ==> key(r[j]) != k;
        case Some(j) =>
          assert r[j] == s[j];
      }
  }

  /** A `Put` with a new key appends; one with a present key keeps the length
      and changes only that key's position. */
  lemma PutShape<V>(s: seq<V>, key: V -> string, v: V)
    ensures Find(s, key, key(v)).None? ==> Put(s, key, v) == s + [v]
    ensures Find(s, key, key(v)).Some? ==>
              var i := Find(s, key, key(v)).value;
              |Put(s, key, v)| == |s| && Put(s, key, v)[i] == v &&
              forall j :: 0 <= j < |s| && j != i ==> Put(s, key, v)[j] == s[j]
  {
  }

  /** The elements of `s` that satisfy `p`, in their order in `s` (the
      `for ... of` loops that push every match into a result array). */
  function Filter<T>(s: seq<T>, p: T -> bool): (r: seq<T>)
    ensures |r| <= |s|
    ensures forall x :: x in r ==> p(x)
  {
    if s == [] then []
    else
      var last := s[|s| - 1];
      Filter(s[..|s| - 1], p) + (if p(last) then [last] else [])
  }

  /** The filter keeps exactly the elements that satisfy the condition. */
  lemma {:induction false} FilterMembers<T>(s: seq<T>, p: T -> bool)
    ensures forall x :: x in Filter(s, p) <==> x in s && p(x)
  {
    if s != [] {
      var init := s[..|s| - 1];
      FilterMembers(init, p);
      assert s == init + [s[|s| - 1]];
    }
  }

  /** The filter distributes over concatenation, so it keeps the order of `s`. */
  lemma {:induction false} FilterConcat<T>(s: seq<T>, t: seq<T>, p: T -> bool)
    ensures Filter(s + t, p) == Filter(s, p) + Filter(t, p)
    decreases |t|
  {
    if t == [] {
      assert s + t == s;
    } else {
      var init, last := t[..|t| - 1], t[|t| - 1];
      var tail := if p(last) then [last] else [];
      FilterConcat(s, init, p);
      assert (s + t)[..|s + t| - 1] == s + init;
      assert (s + t)[|s + t| - 1] == last;
      calc {
        Filter(s + t, p);
        Filter(s + init, p) + tail;
        (Filter(s, p) + Filter(init, p)) + tail;
        Filter(s, p) + (Filter(init, p) + tail);
        Filter(s, p) + Filter(t, p);
      }
    }
  }

  /** The condition "the value's key is not `k`". */
  function KeyIsNot<V>(key: V -> string, k: string): V -> bool {
    x => key(x) != k
  }

  /** A filter that keeps every element returns its input. */
  lemma {:induction false} FilterKeepsAll<T>(s: seq<T>, p: T -> bool)
    requires forall j :: 0 <= j < |s| ==> p(s[j])
    ensures Filter(s, p) == s
  {
    if s != [] {
      FilterKeepsAll(s[..|s| - 1], p);
    }
  }

  /** Filtering out one rejected element between two kept runs leaves the runs. */
  lemma FilterDropsOne<T>(before: seq<T>, x: T, after: seq<T>, p: T -> bool)
    requires forall j :: 0 <= j < |before| ==> p(before[j])
    requires forall j :: 0 <= j < |after| ==> p(after[j])
    requires !p(x)
    ensures Filter(before + [x] + after, p) == before + after
  {
    assert [x][..0] == [];
    assert Filter([x], p) == [];
    FilterConcat(before, [x], p);
    FilterKeepsAll(before, p);
    assert Filter(before + [x], p) == before;
    FilterConcat(before + [x], after, p);
    FilterKeepsAll(after, p);
  }

  /** With unique keys, `Remove` is the order-preserving filter that drops the
      value with key `k`: the other values keep their relative order. */
  lemma RemoveIsFilter<V>(s: seq<V>, key: V -> string, k: string)
    requires Unique(s, key)
    ensures Remove(s, key, k) == Filter(s, KeyIsNot(key, k))
  {
    var p := KeyIsNot(key, k);
    FindSpec(s, key, k);
    match Find(s, key, k)
    case None =>
      assert forall j :: 0 <= j < |s| ==> p(s[j]);
      FilterKeepsAll(s, p);
    case Some(i) =>
      var before, after := s[..i], s[i + 1..];
      assert s == before + [s[i]] + after;
      assert forall j :: 0 <= j < |before| ==> p(before[j]);
      assert forall j :: 0 <= j < |after| ==> p(after[j]) by {
        forall j | 0 <= j < |after| ensures p(after[j]) {
          assert after[j] == s[i + 1 + j];
        }
      }
      FilterDropsOne(before, s[i], after, p);
  }

  /** The map laws of `Remove`, without the order: the key is gone, every
      other key reads back what it did before, keys stay unique, and the length
      drops by one exactly when the key was present. */
  lemma RemoveReadBack<V>(s: seq<V>, key: V -> string, k: string, k': string)
    requires Unique(s, key)
    ensures Unique(Remove(s, key, k), key)
    ensures Get(Remove(s, key, k), key, k) == None
    ensures k' != k ==> Get(Remove(s, key, k), key, k') == Get(s, key, k')
    ensures |Remove(s, key, k)| == if Find(s, key, k).Some? then |s| - 1 else |s|
  {
    var r := Remove(s, key, k);
    FindSpec(s, key, k);
    FindSpec(s, key, k');
    FindSpec(r, key, k);
    FindSpec(r, key, k');
    match Find(s, key, k)
    case None =>
    case Some(i) =>
      assert |r| == |s| - 1;
      assert forall j :: 0 <= j < i ==> r[j] == s[j];
      assert forall j :: i <= j < |r| ==> r[j] == s[j + 1];
      if k' != k {
        match Find(s, key, k')
        case None =>
        case Some(m) =>
          if m < i { assert r[m] == s[m]; } else { assert r[m - 1] == s[m]; }
      }
  }

  /** After a `Remove`, the key is gone, every other key reads back what it did
      before, keys stay unique, the length drops by one exactly when the key
      was present, and the other values keep their order. */
  lemma RemoveSpec<V>(s: seq<V>, key: V -> string, k: string, k': string)
    requires Unique(s, key)
    ensures Unique(Remove(s, key, k), key)
    ensures Get(Remove(s, key, k), key, k) == None
    ensures k' != k ==> Get(Remove(s, key, k), key, k') == Get(s, key, k')
    ensures |Remove(s, key, k)| == if Find(s, key, k).Some? then |s| - 1 else |s|
    ensures Remove(s, key, k) == Filter(s, KeyIsNot(key, k))
  {
    RemoveReadBack(s, key, k, k');
    RemoveIsFilter(s, key, k);
  }
}
