/**
 * The authenticated trie, abstracted to what the debug APIs observe of it:
 * its leaves in iteration order, an iterator positioned at a start key,
 * and the difference iterator over two tries.
 */
module Tries {
  import opened Common
  import opened Wrappers

  /** One leaf: a hashed key and the value stored under it. */
  datatype Entry = Entry(key: Hash, value: Bytes)

  /** Keys strictly ascending in byte order, so each key occurs once. */
  predicate Sorted(leaves: seq<Entry>)
  {
    forall i, j {:trigger LexLess(leaves[i].key, leaves[j].key)} :: 0 <= i < j < |leaves| ==> LexLess(leaves[i].key, leaves[j].key)
  }

  /** A trie, given by its leaves in the order its iterator visits them. */
  type Trie = leaves: seq<Entry> | Sorted(leaves)

  /** The value the trie holds under key k, if any. */
  function Get(t: seq<Entry>, k: Hash): Option<Bytes>
  {
    if t == [] then None else if t[0].key == k then Some(t[0].value) else Get(t[1..], k)
  }

  lemma {:induction false} GetLeaf(t: Trie, i: nat)
    requires i < |t|
    ensures Get(t, t[i].key) == Some(t[i].value)
  {
    if i > 0 {
      assert LexLess(t[0].key, t[i].key);
      var rest: Trie := t[1..];
      GetLeaf(rest, i - 1);
    }
  }

  /**
   * The leaves whose key is at or after start, in trie order: what a node
   * iterator seeked to start yields.
   */
  function From(t: seq<Entry>, start: Bytes): seq<Entry>
  {
    if t == [] then []
    else (if LexLe(start, t[0].key) then [t[0]] else []) + From(t[1..], start)
  }

  lemma {:induction false} FromMembers(t: seq<Entry>, start: Bytes)
    ensures forall e :: e in From(t, start) <==> e in t && LexLe(start, e.key)
  {
    if t != [] {
      FromMembers(t[1..], start);
      assert t == [t[0]] + t[1..];
    }
  }

  lemma {:induction false} FromSorted(t: Trie, start: Bytes)
    ensures Sorted(From(t, start))
  {
    if t != [] {
      var rest: Trie := t[1..];
      FromSorted(rest, start);
      FromMembers(rest, start);
      var f := From(t, start);
      if LexLe(start, t[0].key) {
        forall j | 0 < j < |f| ensures LexLess(f[0].key, f[j].key) {
          assert f[j] in rest;
        }
      }
    }
  }

  /** When every key is at or after start, the iterator sees the whole trie. */
  lemma {:induction false} FromAll(t: seq<Entry>, start: Bytes)
    requires forall e :: e in t ==> LexLe(start, e.key)
    ensures From(t, start) == t
  {
    if t != [] {
      FromAll(t[1..], start);
      assert t == [t[0]] + t[1..];
    }
  }

  /** Seeking to the key of the i-th leaf starts the iteration exactly there. */
  lemma {:induction false} FromAtKey(t: Trie, i: nat)
    requires i < |t|
    ensures From(t, t[i].key) == t[i..]
  {
    if i == 0 {
      forall e | e in t ensures LexLe(t[0].key, e.key) {
        var j :| 0 <= j < |t| && t[j] == e;
        if j == 0 { LexLeReflexive(e.key); } else { assert LexLess(t[0].key, t[j].key); }
      }
      FromAll(t, t[0].key);
    } else {
      LexLessNotGe(t[0].key, t[i].key);
      var rest: Trie := t[1..];
      FromAtKey(rest, i - 1);
    }
  }

  /**
   * Paging: seeking to the m-th key the iterator yielded from start yields
   * exactly what it had left from there on, with nothing skipped or repeated.
   */
  lemma {:induction false} FromContinue(t: Trie, start: Bytes, m: nat)
    requires m < |From(t, start)|
    ensures From(t, From(t, start)[m].key) == From(t, start)[m..]
  {
    var rest: Trie := t[1..];
    if LexLe(start, t[0].key) {
      forall e | e in t ensures LexLe(start, e.key) {
        var j :| 0 <= j < |t| && t[j] == e;
        if j > 0 { assert LexLess(t[0].key, t[j].key); LexLeTransitive(start, t[0].key, e.key); }
      }
      FromAll(t, start);
      FromAtKey(t, m);
    } else {
      var f := From(rest, start);
      assert From(t, start) == f;
      FromContinue(rest, start, m);
      FromMembers(rest, start);
      assert f[m] in f;
      if LexLe(f[m].key, t[0].key) {
        LexLeTransitive(start, f[m].key, t[0].key);
      }
    }
  }

  /**
   * The leaves of b that a lacks or holds with another value, in b's
   * order: what trie.NewDifferenceIterator(a, b) yields.
   */
  function Difference(a: seq<Entry>, b: seq<Entry>): seq<Entry>
  {
    if b == [] then []
    else (if Get(a, b[0].key) != Some(b[0].value) then [b[0]] else []) + Difference(a, b[1..])
  }

  lemma {:induction false} DifferenceMembers(a: seq<Entry>, b: seq<Entry>)
    ensures forall e :: e in Difference(a, b) <==> e in b && Get(a, e.key) != Some(e.value)
  {
    if b != [] {
      DifferenceMembers(a, b[1..]);
      assert b == [b[0]] + b[1..];
    }
  }

  /** A trie differs from itself nowhere. */
  lemma DifferenceOfSame(t: Trie)
    ensures Difference(t, t) == []
  {
    DifferenceMembers(t, t);
    if Difference(t, t) != [] {
      var e := Difference(t, t)[0];
      var i :| 0 <= i < |t| && t[i] == e;
      GetLeaf(t, i);
    }
  }

  /** A key the new trie no longer holds is never reported. */
  lemma DifferenceOmitsDeleted(a: Trie, b: Trie, k: Hash)
    requires Get(a, k).Some? && Get(b, k).None?
    ensures forall e :: e in Difference(a, b) ==> e.key != k
  {
    DifferenceMembers(a, b);
    forall e | e in Difference(a, b) ensures e.key != k {
      var i :| 0 <= i < |b| && b[i] == e;
      GetLeaf(b, i);
    }
  }

  /**
   * A leaf iterator over a trie, positioned at a start key
   * (trie.NewIterator over st.NodeIterator(start)). Key and Value describe
   * the leaf the last successful Next moved to, and are nil (empty) before
   * the first Next and after the one that found no leaf.
   */
  class Iterator {
    /** the leaves not yet visited, in order */
    var rest: seq<Entry>
    var Key: Bytes
    var Value: Bytes

    constructor (t: Trie, start: Bytes)
      ensures rest == From(t, start) && Key == [] && Value == []
    {
      rest := From(t, start);
      Key := [];
      Value := [];
    }

    /** An iterator over leaves some other node iterator yields, such as a difference iterator. */
    constructor Over(leaves: seq<Entry>)
      ensures rest == leaves && Key == [] && Value == []
    {
      rest := leaves;
      Key := [];
      Value := [];
    }

    method Next() returns (more: bool)
      modifies this
      ensures more <==> old(rest) != []
      ensures more ==> Key == old(rest)[0].key && Value == old(rest)[0].value && rest == old(rest)[1..]
      ensures !more ==> rest == old(rest) && Key == [] && Value == []
    {
      more := rest != [];
      if more {
        Key, Value := rest[0].key, rest[0].value;
        rest := rest[1..];
      } else {
        Key, Value := [], [];
      }
    }
  }
}
