/**
 * The part of PHP's ordered arrays that the generator relies on: lookup by
 * key, assignment `$a[$k] = $v`, and `array_merge`, which the source uses for
 * both its metadata defaults and its option defaults.
 */
module PhpArrays {
  import opened Wrappers
  import opened Seqs

  /** An array key.  PHP turns decimal-integer strings into integer keys, so a `StrKey` is never one. */
  datatype Key = IntKey(n: int) | StrKey(s: string)

  /** The PHP values a route's metadata and the options may hold. */
  datatype Value =
    | Null
    | Bool(b: bool)
    | Int(i: int)
    | Str(s: string)
    | Arr(entries: seq<Entry>)

  /** One slot of an ordered array. */
  datatype Entry = Entry(key: Key, value: Value)

  /** Every PHP array has distinct keys. */
  predicate DistinctKeys(a: seq<Entry>) {
    forall i, j :: 0 <= i < j < |a| ==> a[i].key != a[j].key
  }

  /** `$a[$k]`, or `None` when the key is missing (PHP reads `null` with a notice). */
  function Lookup(a: seq<Entry>, k: Key): Option<Value> {
    if a == [] then None
    else if a[0].key == k then Some(a[0].value)
    else Lookup(a[1..], k)
  }

  /** A lookup finds nothing exactly when no slot has the key, and otherwise finds a slot with it. */
  lemma {:induction false} LookupSpec(a: seq<Entry>, k: Key)
    ensures Lookup(a, k).None? <==> forall i :: 0 <= i < |a| ==> a[i].key != k
    ensures Lookup(a, k).Some? ==> exists i :: 0 <= i < |a| && a[i] == Entry(k, Lookup(a, k).value)
    decreases |a|
  {
    if a != [] && a[0].key != k {
      LookupSpec(a[1..], k);
      assert forall i :: 1 <= i < |a| ==> a[i] == a[1..][i - 1];
      if Lookup(a, k).Some? {
        var i :| 0 <= i < |a[1..]| && a[1..][i] == Entry(k, Lookup(a, k).value);
        assert a[i + 1] == a[1..][i];
      }
    }
  }

  /** The right-hand lookup if it found something, else the left-hand one. */
  function Prefer(first: Option<Value>, fallback: Option<Value>): Option<Value> {
    if first.Some? then first else fallback
  }

  /** PHP's `empty()` on a value that is set. */
  predicate IsEmpty(v: Value) {
    match v
    case Null => true
    case Bool(b) => !b
    case Int(i) => i == 0
    case Str(s) => s == "" || s == "0"
    case Arr(es) => es == []
  }

  /** PHP's `empty($a[$k])`: a missing key counts as empty. */
  predicate EmptyAt(a: seq<Entry>, k: Key) {
    var v := Lookup(a, k);
    v.None? || IsEmpty(v.value)
  }

  /** In an array with distinct keys, each slot is what its key looks up. */
  lemma LookupAt(a: seq<Entry>, i: int)
    requires DistinctKeys(a) && 0 <= i < |a|
    ensures Lookup(a, a[i].key) == Some(a[i].value)
  {
    LookupSpec(a, a[i].key);
    var r := Lookup(a, a[i].key);
    var j :| 0 <= j < |a| && a[j] == Entry(a[i].key, r.value);
    assert j == i;
  }

  /** An array with only string keys has no integer-keyed values. */
  lemma {:induction false} IntValuesStrKeys(a: seq<Entry>)
    requires forall i :: 0 <= i < |a| ==> a[i].key.StrKey?
    ensures IntValues(a) == [] && IntCount(a) == 0
    decreases |a|
  {
    if a != [] {
      assert a[0].key.StrKey?;
      IntValuesStrKeys(a[1..]);
    }
  }

  /** The values of the array, in order (what `foreach ($a as $v)` visits). */
  function Values(a: seq<Entry>): (vs: seq<Value>)
    ensures |vs| == |a| && forall i :: 0 <= i < |a| ==> vs[i] == a[i].value
  {
    seq(|a|, i requires 0 <= i < |a| => a[i].value)
  }

  /** A list literal `array($v0, $v1, ...)`: the values under the keys 0, 1, ... */
  function List(vs: seq<Value>): (a: seq<Entry>)
    ensures Values(a) == vs && DistinctKeys(a) && Dense(a)
    ensures forall i :: 0 <= i < |a| ==> a[i].key == IntKey(i)
  {
    var a := seq(|vs|, i requires 0 <= i < |vs| => Entry(IntKey(i), vs[i]));
    assert Values(a) == vs;
    IntCountAll(a);
    a
  }

  /** An array whose keys are all integers counts every slot. */
  lemma {:induction false} IntCountAll(a: seq<Entry>)
    requires forall i :: 0 <= i < |a| ==> a[i].key.IntKey?
    ensures IntCount(a) == |a|
    decreases |a|
  {
    if a != [] {
      IntCountAll(a[1..]);
    }
  }

  /**
   * `$a[$k] = $v`: a present key keeps its place and takes the new value, a
   * missing key is added at the end.
   */
  function Put(a: seq<Entry>, k: Key, v: Value): (r: seq<Entry>)
    ensures Lookup(r, k) == Some(v)
    ensures forall k' :: k' != k ==> Lookup(r, k') == Lookup(a, k')
    ensures |r| == if Lookup(a, k).Some? then |a| else |a| + 1
    ensures forall i :: 0 <= i < |a| ==> r[i].key == a[i].key
    ensures |r| > |a| ==> r[|a|].key == k
  {
    if a == [] then [Entry(k, v)]
    else if a[0].key == k then [Entry(k, v)] + a[1..]
    else [a[0]] + Put(a[1..], k, v)
  }

  /** Number of integer keys of `a`. */
  function IntCount(a: seq<Entry>): nat {
    if a == [] then 0 else (if a[0].key.IntKey? then 1 else 0) + IntCount(a[1..])
  }

  /** The values stored under integer keys, in order. */
  function IntValues(a: seq<Entry>): seq<Value> {
    if a == [] then [] else (if a[0].key.IntKey? then [a[0].value] else []) + IntValues(a[1..])
  }

  /** The integer keys of `a` are numbered from zero, below their count. */
  predicate Dense(a: seq<Entry>) {
    forall i :: 0 <= i < |a| && a[i].key.IntKey? ==> 0 <= a[i].key.n < IntCount(a)
  }

  /** One element of `array_merge`: a string key is assigned, an integer key is renumbered and appended. */
  function MergeStep(acc: seq<Entry>, e: Entry): seq<Entry> {
    match e.key
    case StrKey(_) => Put(acc, e.key, e.value)
    case IntKey(_) => acc + [Entry(IntKey(IntCount(acc)), e.value)]
  }

  function MergeInto(acc: seq<Entry>, src: seq<Entry>): seq<Entry>
    decreases |src|
  {
    if src == [] then acc else MergeInto(MergeStep(acc, src[0]), src[1..])
  }

  /** `array_merge($l, $r)`: the elements of `$l` and then of `$r`, folded into a fresh array. */
  function ArrayMerge(l: seq<Entry>, r: seq<Entry>): seq<Entry> {
    MergeInto([], l + r)
  }

  /** Folding a concatenation folds its two parts one after the other. */
  lemma {:induction false} MergeIntoConcat(acc: seq<Entry>, l: seq<Entry>, r: seq<Entry>)
    ensures MergeInto(acc, l + r) == MergeInto(MergeInto(acc, l), r)
    decreases |l|
  {
    if l == [] {
      assert l + r == r;
    } else {
      assert (l + r)[0] == l[0] && (l + r)[1..] == l[1..] + r;
      MergeIntoConcat(MergeStep(acc, l[0]), l[1..], r);
    }
  }


  lemma {:induction false} LookupAppend(a: seq<Entry>, e: Entry, k: Key)
    ensures Lookup(a + [e], k)
      == if Lookup(a, k).Some? then Lookup(a, k) else if e.key == k then Some(e.value) else None
    decreases |a|
  {
    if a != [] {
      assert (a + [e])[1..] == a[1..] + [e];
      LookupAppend(a[1..], e, k);
    } else {
      assert [e][1..] == [];
    }
  }

  lemma {:induction false} IntCountAppend(a: seq<Entry>, e: Entry)
    ensures IntCount(a + [e]) == IntCount(a) + (if e.key.IntKey? then 1 else 0)
    ensures IntValues(a + [e]) == IntValues(a) + (if e.key.IntKey? then [e.value] else [])
    decreases |a|
  {
    if a == [] {
      assert [e][1..] == [];
    } else {
      assert (a + [e])[1..] == a[1..] + [e];
      IntCountAppend(a[1..], e);
      var h: seq<Value> := if a[0].key.IntKey? then [a[0].value] else [];
      AppendAssoc(h, IntValues(a[1..]), if e.key.IntKey? then [e.value] else []);
    }
  }

  /** Assigning a string key leaves the integer-keyed slots as they were. */
  lemma {:induction false} PutStrKeepsInts(a: seq<Entry>, s: string, v: Value)
    ensures IntCount(Put(a, StrKey(s), v)) == IntCount(a)
    ensures IntValues(Put(a, StrKey(s), v)) == IntValues(a)
    decreases |a|
  {
    var r := Put(a, StrKey(s), v);
    if a == [] {
      assert r == [Entry(StrKey(s), v)] && r[1..] == [];
    } else if a[0].key == StrKey(s) {
      assert r[1..] == a[1..];
    } else {
      assert r[1..] == Put(a[1..], StrKey(s), v);
      PutStrKeepsInts(a[1..], s, v);
    }
  }

  /** A missing key is assigned by appending it. */
  lemma {:induction false} PutAbsent(a: seq<Entry>, k: Key, v: Value)
    requires Lookup(a, k).None?
    ensures Put(a, k, v) == a + [Entry(k, v)]
    decreases |a|
  {
    if a != [] {
      assert a[0].key != k;
      assert Lookup(a[1..], k) == Lookup(a, k);
      PutAbsent(a[1..], k, v);
      var e := Entry(k, v);
      assert Put(a, k, v) == [a[0]] + (a[1..] + [e]);
      assert [a[0]] + (a[1..] + [e]) == a + [e];
    }
  }

  /** Assigning a string key keeps the keys distinct and the integer keys dense. */
  lemma PutStrWellFormed(acc: seq<Entry>, s: string, v: Value)
    requires DistinctKeys(acc) && Dense(acc)
    ensures DistinctKeys(Put(acc, StrKey(s), v)) && Dense(Put(acc, StrKey(s), v))
  {
    var r := Put(acc, StrKey(s), v);
    PutStrKeepsInts(acc, s, v);
    if |r| > |acc| {
      LookupSpec(acc, StrKey(s));
      var absent := Lookup(acc, StrKey(s)).None?;
      assert absent;
      assert forall i :: 0 <= i < |acc| ==> r[i].key != StrKey(s);
    }
    forall i | |acc| <= i < |r| ensures r[i].key == StrKey(s) {
      assert i == |acc|;
    }
  }

  /** Appending the next integer key keeps the keys distinct and dense. */
  lemma AppendIntWellFormed(acc: seq<Entry>, v: Value)
    requires DistinctKeys(acc) && Dense(acc)
    ensures var r := acc + [Entry(IntKey(IntCount(acc)), v)];
      DistinctKeys(r) && Dense(r) && IntValues(r) == IntValues(acc) + [v]
  {
    IntCountAppend(acc, Entry(IntKey(IntCount(acc)), v));
  }

  /** One merge step keeps the array well formed and does what PHP's assignment does. */
  lemma MergeStepSpec(acc: seq<Entry>, e: Entry)
    requires DistinctKeys(acc) && Dense(acc)
    ensures var r := MergeStep(acc, e);
      && DistinctKeys(r) && Dense(r)
      && |acc| <= |r| && (forall i :: 0 <= i < |acc| ==> r[i].key == acc[i].key)
      && (forall s :: Lookup(r, StrKey(s))
            == if e.key == StrKey(s) then Some(e.value) else Lookup(acc, StrKey(s)))
      && IntValues(r) == IntValues(acc) + (if e.key.IntKey? then [e.value] else [])
  {
    match e.key
    case StrKey(s) =>
      PutStrKeepsInts(acc, s, e.value);
      PutStrWellFormed(acc, s, e.value);
    case IntKey(_) =>
      var ne := Entry(IntKey(IntCount(acc)), e.value);
      AppendIntWellFormed(acc, e.value);
      forall s ensures Lookup(acc + [ne], StrKey(s)) == Lookup(acc, StrKey(s)) {
        LookupAppend(acc, ne, StrKey(s));
      }
  }

  /** Folding `src` into `acc`: keys of `src` win, integer values are appended, and `acc`'s keys keep their places. */
  lemma {:induction false} MergeIntoSpec(acc: seq<Entry>, src: seq<Entry>)
    requires DistinctKeys(acc) && Dense(acc) && DistinctKeys(src)
    ensures var m := MergeInto(acc, src);
      && DistinctKeys(m) && Dense(m)
      && |acc| <= |m| && (forall i :: 0 <= i < |acc| ==> m[i].key == acc[i].key)
      && (forall s :: Lookup(m, StrKey(s))
            == if Lookup(src, StrKey(s)).Some? then Lookup(src, StrKey(s)) else Lookup(acc, StrKey(s)))
      && IntValues(m) == IntValues(acc) + IntValues(src)
    decreases |src|
  {
    if src != [] {
      var e := src[0];
      var acc1 := MergeStep(acc, e);
      MergeStepSpec(acc, e);
      MergeIntoSpec(acc1, src[1..]);
      var m := MergeInto(acc1, src[1..]);
      forall s ensures Lookup(m, StrKey(s))
        == if Lookup(src, StrKey(s)).Some? then Lookup(src, StrKey(s)) else Lookup(acc, StrKey(s))
      {
        if Lookup(src[1..], StrKey(s)).Some? {
          LookupSpec(src[1..], StrKey(s));
          var i :| 0 <= i < |src[1..]| && src[1..][i].key == StrKey(s);
          assert src[i + 1].key == StrKey(s);
        }
      }
      AppendAssoc(IntValues(acc), if e.key.IntKey? then [e.value] else [], IntValues(src[1..]));
    }
  }

  /** Folding string-keyed elements with new keys just appends them. */
  lemma {:induction false} MergeIntoStrKeys(acc: seq<Entry>, src: seq<Entry>)
    requires forall i :: 0 <= i < |src| ==> src[i].key.StrKey?
    requires DistinctKeys(acc + src)
    ensures MergeInto(acc, src) == acc + src
    decreases |src|
  {
    if src != [] {
      assert (acc + src)[|acc|] == src[0];
      assert Lookup(acc, src[0].key).None? by {
        forall i | 0 <= i < |acc| ensures acc[i].key != src[0].key {
          assert (acc + src)[i] == acc[i];
        }
        LookupSpec(acc, src[0].key);
      }
      PutAbsent(acc, src[0].key, src[0].value);
      assert acc + [src[0]] + src[1..] == acc + src;
      MergeIntoStrKeys(acc + [src[0]], src[1..]);
    }
  }

  /**
   * What `array_merge($l, $r)` promises: a string key of `$r` overrides the
   * same key of `$l`, every other key of either is kept, the integer-keyed
   * values of `$l` and then of `$r` are renumbered from zero, and the keys
   * of a string-keyed `$l` stay in front, in their order.
   */
  lemma ArrayMergeSpec(l: seq<Entry>, r: seq<Entry>)
    requires DistinctKeys(l) && DistinctKeys(r)
    ensures var m := ArrayMerge(l, r);
      && DistinctKeys(m) && Dense(m)
      && (forall s :: Lookup(m, StrKey(s)) == Prefer(Lookup(r, StrKey(s)), Lookup(l, StrKey(s))))
      && IntValues(m) == IntValues(l) + IntValues(r)
    ensures var vs := IntValues(l) + IntValues(r);
      forall j :: 0 <= j < |vs| ==> Lookup(ArrayMerge(l, r), IntKey(j)) == Some(vs[j])
    ensures (forall i :: 0 <= i < |l| ==> l[i].key.StrKey?) ==>
      |l| <= |ArrayMerge(l, r)| && forall i :: 0 <= i < |l| ==> ArrayMerge(l, r)[i].key == l[i].key
  {
    ArrayMergeContents(l, r);
    var empty: seq<Entry> := [];
    MergeIntoNumbered(empty, l + r);
    if forall i :: 0 <= i < |l| ==> l[i].key.StrKey? {
      ArrayMergeKeepsKeys(l, r);
    }
  }

  /** The `j`-th integer-keyed value of `a` is stored under the key `j`. */
  predicate Numbered(a: seq<Entry>) {
    forall j :: 0 <= j < |IntValues(a)| ==> Lookup(a, IntKey(j)) == Some(IntValues(a)[j])
  }

  lemma {:induction false} IntValuesCount(a: seq<Entry>)
    ensures |IntValues(a)| == IntCount(a)
    decreases |a|
  {
    if a != [] {
      IntValuesCount(a[1..]);
    }
  }

  /** One merge step numbers a new integer-keyed value after the ones already there. */
  lemma MergeStepNumbered(acc: seq<Entry>, e: Entry)
    requires DistinctKeys(acc) && Dense(acc) && Numbered(acc)
    ensures Numbered(MergeStep(acc, e))
  {
    var r := MergeStep(acc, e);
    match e.key
    case StrKey(s) =>
      PutStrKeepsInts(acc, s, e.value);
      forall j | 0 <= j < |IntValues(r)| ensures Lookup(r, IntKey(j)) == Some(IntValues(r)[j]) {
        assert Lookup(r, IntKey(j)) == Lookup(acc, IntKey(j));
      }
    case IntKey(_) =>
      var c := IntCount(acc);
      var ne := Entry(IntKey(c), e.value);
      IntValuesCount(acc);
      IntCountAppend(acc, ne);
      assert IntValues(r) == IntValues(acc) + [e.value];
      forall j | 0 <= j < |IntValues(r)| ensures Lookup(r, IntKey(j)) == Some(IntValues(r)[j]) {
        LookupAppend(acc, ne, IntKey(j));
        if j == c {
          LookupSpec(acc, IntKey(c));
        }
      }
  }

  /** Folding keeps every integer-keyed value under its own position's number. */
  lemma {:induction false} MergeIntoNumbered(acc: seq<Entry>, src: seq<Entry>)
    requires DistinctKeys(acc) && Dense(acc) && Numbered(acc)
    ensures Numbered(MergeInto(acc, src))
    decreases |src|
  {
    if src != [] {
      MergeStepSpec(acc, src[0]);
      MergeStepNumbered(acc, src[0]);
      MergeIntoNumbered(MergeStep(acc, src[0]), src[1..]);
    }
  }

  /** The merged array of the first stage, `l` folded into an empty array. */
  lemma MergeFirstStage(l: seq<Entry>)
    requires DistinctKeys(l)
    ensures var m0 := MergeInto([], l);
      && DistinctKeys(m0) && Dense(m0) && IntValues(m0) == IntValues(l)
      && forall s :: Lookup(m0, StrKey(s)) == Lookup(l, StrKey(s))
  {
    var empty: seq<Entry> := [];
    MergeIntoSpec(empty, l);
    assert IntValues(empty) + IntValues(l) == IntValues(l);
    forall s ensures Lookup(MergeInto(empty, l), StrKey(s)) == Lookup(l, StrKey(s)) {
    }
  }

  /** What the merged array holds: its lookups, its integer-keyed values and its shape. */
  lemma ArrayMergeContents(l: seq<Entry>, r: seq<Entry>)
    requires DistinctKeys(l) && DistinctKeys(r)
    ensures var m := ArrayMerge(l, r);
      && DistinctKeys(m) && Dense(m)
      && (forall s :: Lookup(m, StrKey(s)) == Prefer(Lookup(r, StrKey(s)), Lookup(l, StrKey(s))))
      && IntValues(m) == IntValues(l) + IntValues(r)
  {
    var empty: seq<Entry> := [];
    MergeIntoConcat(empty, l, r);
    MergeFirstStage(l);
    MergeIntoSpec(MergeInto(empty, l), r);
  }

  /** A string-keyed left array keeps its keys in front, in their order. */
  lemma ArrayMergeKeepsKeys(l: seq<Entry>, r: seq<Entry>)
    requires DistinctKeys(l) && DistinctKeys(r)
    requires forall i :: 0 <= i < |l| ==> l[i].key.StrKey?
    ensures |l| <= |ArrayMerge(l, r)| && forall i :: 0 <= i < |l| ==> ArrayMerge(l, r)[i].key == l[i].key
  {
    var empty: seq<Entry> := [];
    MergeIntoConcat(empty, l, r);
    assert empty + l == l;
    MergeIntoStrKeys(empty, l);
    MergeFirstStage(l);
    MergeIntoSpec(l, r);
  }

  /** Merging nothing into a string-keyed array gives that array back. */
  lemma MergeNothing(l: seq<Entry>)
    requires DistinctKeys(l) && forall i :: 0 <= i < |l| ==> l[i].key.StrKey?
    ensures ArrayMerge(l, []) == l
  {
    assert l + [] == l;
    assert [] + l == l;
    MergeIntoStrKeys([], l);
  }
}
