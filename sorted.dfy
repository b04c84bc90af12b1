/** The ordered collections the model builder keeps its results in: Java's natural
    ordering of strings, a TreeSet<String> as a strictly increasing sequence, and a
    TreeMap<String, V> as a sequence of entries with strictly increasing keys. */
module Sorted {

  datatype Option<T> = None | Some(value: T)

  /** `a.compareTo(b) < 0` for Java strings: the first differing character decides, and
      a proper prefix comes first. */
  predicate Below(a: string, b: string)
    decreases |a|
  {
    if |a| == 0 then |b| > 0
    else |b| > 0 && (a[0] < b[0] || (a[0] == b[0] && Below(a[1..], b[1..])))
  }

  lemma {:induction false} BelowIrreflexive(a: string)
    ensures !Below(a, a)
    decreases |a|
  {
    if |a| > 0 {
      BelowIrreflexive(a[1..]);
    }
  }

  lemma {:induction false} BelowTransitive(a: string, b: string, c: string)
    requires Below(a, b) && Below(b, c)
    ensures Below(a, c)
    decreases |a|
  {
    if |a| > 0 && a[0] == b[0] && b[0] == c[0] {
      BelowTransitive(a[1..], b[1..], c[1..]);
    }
  }

  lemma {:induction false} BelowTotal(a: string, b: string)
    ensures a == b || Below(a, b) || Below(b, a)
    decreases |a|
  {
    if |a| > 0 && |b| > 0 && a[0] == b[0] {
      BelowTotal(a[1..], b[1..]);
      if a[1..] == b[1..] {
        assert a == [a[0]] + a[1..] && b == [b[0]] + b[1..];
      }
    }
  }

  lemma BelowAsymmetric(a: string, b: string)
    requires Below(a, b)
    ensures !Below(b, a) && a != b
  {
    BelowIrreflexive(a);
    if Below(b, a) {
      BelowTransitive(a, b, a);
    }
  }

  // ---------------------------------------------------------------- TreeSet<String>

  /** Iteration order of a TreeSet: ascending and therefore free of duplicates. */
  ghost predicate Increasing(s: seq<string>)
  {
    forall i, j :: 0 <= i < j < |s| ==> Below(s[i], s[j])
  }

  /** A set iterated in ascending order holds no element twice. */
  lemma IncreasingDistinct(s: seq<string>)
    requires Increasing(s)
    ensures forall i, j | 0 <= i < j < |s| :: s[i] != s[j]
  {
    forall i, j | 0 <= i < j < |s| ensures s[i] != s[j] {
      BelowAsymmetric(s[i], s[j]);
    }
  }

  /** `TreeSet.add`: the element ends up in its ordered position, or nothing changes if
      it is already present. */
  function Insert(s: seq<string>, x: string): (r: seq<string>)
    requires Increasing(s)
    ensures Increasing(r)
    ensures forall y :: y in r <==> y in s || y == x
    ensures x in s ==> r == s
    decreases |s|
  {
    if s == [] then [x]
    else if x == s[0] then s
    else if Below(x, s[0]) then
      assert forall j :: 0 <= j < |s| ==> Below(x, s[j]) by {
        forall j | 0 < j < |s| {
          BelowTransitive(x, s[0], s[j]);
        }
      }
      BelowIrreflexive(x);
      [x] + s
    else
      BelowTotal(x, s[0]);
      var rest := Insert(s[1..], x);
      assert forall y :: y in rest ==> Below(s[0], y) by {
        forall y | y in rest ensures Below(s[0], y) {
          if y != x {
            var j :| 0 <= j < |s[1..]| && s[1..][j] == y;
            assert s[j + 1] == y;
          }
        }
      }
      assert s == [s[0]] + s[1..];
      [s[0]] + rest
  }

  // ---------------------------------------------------------------- TreeMap<String, V>

  datatype Entry<V> = Entry(key: string, value: V)

  /** Iteration order of a TreeMap: keys ascending, so no key occurs twice. */
  ghost predicate KeysIncreasing<V>(m: seq<Entry<V>>)
  {
    forall i, j :: 0 <= i < j < |m| ==> Below(m[i].key, m[j].key)
  }

  function KeySet<V>(m: seq<Entry<V>>): set<string>
  {
    set i | 0 <= i < |m| :: m[i].key
  }

  /** `TreeMap.values()`: one value per entry, in key order. */
  function Values<V>(m: seq<Entry<V>>): (r: seq<V>)
    ensures |r| == |m| && forall i :: 0 <= i < |m| ==> r[i] == m[i].value
    decreases |m|
  {
    if m == [] then [] else [m[0].value] + Values(m[1..])
  }

  lemma KeySetCons<V>(e: Entry<V>, m: seq<Entry<V>>)
    ensures KeySet([e] + m) == {e.key} + KeySet(m)
  {
    var r := [e] + m;
    forall y | y in KeySet(r) ensures y in {e.key} + KeySet(m) {
      var i :| 0 <= i < |r| && r[i].key == y;
      if i > 0 {
        assert m[i - 1].key == y;
      }
    }
    forall y | y in {e.key} + KeySet(m) ensures y in KeySet(r) {
      if y == e.key {
        assert r[0].key == y;
      } else {
        var i :| 0 <= i < |m| && m[i].key == y;
        assert r[i + 1].key == y;
      }
    }
  }

  /** `TreeMap.get`, with `None` for Java's null. */
  function Get<V>(m: seq<Entry<V>>, k: string): (r: Option<V>)
    ensures r.None? <==> k !in KeySet(m)
    decreases |m|
  {
    if m == [] then None
    else
      KeySetCons(m[0], m[1..]);
      assert m == [m[0]] + m[1..];
      if m[0].key == k then Some(m[0].value) else Get(m[1..], k)
  }

  /** Every entry of an ordered map is what `get` finds under its key. */
  lemma {:induction false} GetEntry<V>(m: seq<Entry<V>>, i: int)
    requires KeysIncreasing(m) && 0 <= i < |m|
    ensures Get(m, m[i].key) == Some(m[i].value)
    decreases |m|
  {
    if i > 0 {
      BelowAsymmetric(m[0].key, m[i].key);
      assert m[1..][i - 1] == m[i];
      GetEntry(m[1..], i - 1);
    }
  }

  /** `values()` of an ordered map lists, in key order, what `get` finds under each key,
      and every value `get` finds is among them. */
  lemma ValuesInKeyOrder<V>(m: seq<Entry<V>>)
    requires KeysIncreasing(m)
    ensures |Values(m)| == |m|
    ensures forall i | 0 <= i < |m| :: Get(m, m[i].key) == Some(Values(m)[i])
    ensures forall k | k in KeySet(m) :: Get(m, k).Some? && Get(m, k).value in Values(m)
  {
    forall i | 0 <= i < |m| ensures Get(m, m[i].key) == Some(Values(m)[i]) {
      GetEntry(m, i);
    }
    forall k | k in KeySet(m) ensures Get(m, k).Some? && Get(m, k).value in Values(m) {
      var i :| 0 <= i < |m| && m[i].key == k;
      GetEntry(m, i);
      assert Values(m)[i] == m[i].value;
    }
  }

  /** `TreeMap.put`: the key now maps to the new value and every other key keeps its
      entry. */
  function Put<V>(m: seq<Entry<V>>, k: string, v: V): (r: seq<Entry<V>>)
    requires KeysIncreasing(m)
    ensures KeysIncreasing(r)
    ensures KeySet(r) == KeySet(m) + {k}
    ensures Get(r, k) == Some(v)
    ensures forall k' :: k' != k ==> Get(r, k') == Get(m, k')
    decreases |m|
  {
    if m == [] then
      ConsEntry(Entry(k, v), m);
      [Entry(k, v)] + m
    else
      HeadEntry(m);
      if k == m[0].key then
        ConsEntry(Entry(k, v), m[1..]);
        [Entry(k, v)] + m[1..]
      else if Below(k, m[0].key) then
        BelowHead(m, k);
        ConsEntry(Entry(k, v), m);
        [Entry(k, v)] + m
      else
        BelowTotal(k, m[0].key);
        var rest := Put(m[1..], k, v);
        AboveHead(m, k, rest);
        ConsEntry(m[0], rest);
        [m[0]] + rest
  }

  /** An entry put in front of an ordered map whose keys all lie above its own. */
  lemma ConsEntry<V>(e: Entry<V>, rest: seq<Entry<V>>)
    requires KeysIncreasing(rest) && forall j :: 0 <= j < |rest| ==> Below(e.key, rest[j].key)
    ensures KeysIncreasing([e] + rest)
    ensures KeySet([e] + rest) == {e.key} + KeySet(rest)
    ensures forall x :: Get([e] + rest, x) == if x == e.key then Some(e.value) else Get(rest, x)
  {
    KeySetCons(e, rest);
    assert ([e] + rest)[1..] == rest;
  }

  /** A key below the first key of an ordered map is below all its keys. */
  lemma BelowHead<V>(m: seq<Entry<V>>, k: string)
    requires KeysIncreasing(m) && m != [] && Below(k, m[0].key)
    ensures forall j :: 0 <= j < |m| ==> Below(k, m[j].key)
  {
    forall j | 0 < j < |m| {
      BelowTransitive(k, m[0].key, m[j].key);
    }
  }

  /** An ordered map is its first entry in front of the ordered rest. */
  lemma HeadEntry<V>(m: seq<Entry<V>>)
    requires KeysIncreasing(m) && m != []
    ensures m == [m[0]] + m[1..] && KeysIncreasing(m[1..])
    ensures forall j :: 0 <= j < |m[1..]| ==> Below(m[0].key, m[1..][j].key)
  {
    assert forall j :: 0 <= j < |m[1..]| ==> m[1..][j] == m[j + 1];
  }

  /** A map whose keys are those of the tail of `m` and a key above the head of `m` lies
      wholly above that head. */
  lemma AboveHead<V>(m: seq<Entry<V>>, k: string, rest: seq<Entry<V>>)
    requires KeysIncreasing(m) && m != [] && Below(m[0].key, k)
    requires KeySet(rest) == KeySet(m[1..]) + {k}
    ensures forall j :: 0 <= j < |rest| ==> Below(m[0].key, rest[j].key)
  {
    forall j | 0 <= j < |rest| ensures Below(m[0].key, rest[j].key) {
      var y := rest[j].key;
      assert y in KeySet(rest);
      if y != k {
        var i :| 0 <= i < |m[1..]| && m[1..][i].key == y;
        assert m[i + 1].key == y;
      }
    }
  }

  /** Keys after the first entry's key are greater than it. */
  lemma HeadSmallest<V>(m: seq<Entry<V>>, k: string)
    requires KeysIncreasing(m) && m != [] && k in KeySet(m) && k != m[0].key
    ensures Below(m[0].key, k) && k in KeySet(m[1..])
  {
    var i :| 0 <= i < |m| && m[i].key == k;
    assert m[1..][i - 1] == m[i];
  }

  /** An ordered map is determined by what `get` finds in it. */
  lemma {:induction false} GetDetermines<V>(a: seq<Entry<V>>, b: seq<Entry<V>>)
    requires KeysIncreasing(a) && KeysIncreasing(b)
    requires forall k :: Get(a, k) == Get(b, k)
    ensures a == b
    decreases |a|
  {
    if a == [] {
      if b != [] {
        assert Get(b, b[0].key).Some?;
      }
    } else {
      assert Get(a, a[0].key).Some?;
      assert b != [];
      assert Get(b, b[0].key).Some?;
      if a[0].key != b[0].key {
        HeadSmallest(b, a[0].key);
        HeadSmallest(a, b[0].key);
        BelowAsymmetric(a[0].key, b[0].key);
      }
      assert a[0] == b[0] by {
        GetEntry(a, 0);
        GetEntry(b, 0);
      }
      forall k ensures Get(a[1..], k) == Get(b[1..], k) {
        if k != a[0].key {
          assert Get(a, k) == Get(a[1..], k) && Get(b, k) == Get(b[1..], k);
        } else {
          if k in KeySet(a[1..]) {
            var i :| 0 <= i < |a[1..]| && a[1..][i].key == k;
            assert a[i + 1].key == k && Below(a[0].key, a[i + 1].key);
            BelowIrreflexive(k);
          }
          if k in KeySet(b[1..]) {
            var i :| 0 <= i < |b[1..]| && b[1..][i].key == k;
            assert b[i + 1].key == k && Below(b[0].key, b[i + 1].key);
            BelowIrreflexive(k);
          }
        }
      }
      GetDetermines(a[1..], b[1..]);
      assert a == [a[0]] + a[1..] && b == [b[0]] + b[1..];
    }
  }

  /** Putting back what is there changes nothing. */
  lemma PutExisting<V>(m: seq<Entry<V>>, k: string, v: V)
    requires KeysIncreasing(m) && Get(m, k) == Some(v)
    ensures Put(m, k, v) == m
  {
    GetDetermines(Put(m, k, v), m);
  }

  /** A second put under the same key overrides the first. */
  lemma PutTwice<V>(m: seq<Entry<V>>, k: string, v: V, w: V)
    requires KeysIncreasing(m)
    ensures Put(Put(m, k, v), k, w) == Put(m, k, w)
  {
    GetDetermines(Put(Put(m, k, v), k, w), Put(m, k, w));
  }

  /** Every entry after a put is the new one or was there before. */
  lemma {:induction false} PutEntries<V>(m: seq<Entry<V>>, k: string, v: V)
    requires KeysIncreasing(m)
    ensures forall e | e in Put(m, k, v) :: e == Entry(k, v) || e in m
    decreases |m|
  {
    if m != [] && k != m[0].key && !Below(k, m[0].key) {
      PutEntries(m[1..], k, v);
      assert forall e | e in m[1..] :: e in m;
    }
  }
}
