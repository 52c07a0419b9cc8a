/**
 * Insertion-ordered sets as the generators use them: Kotlin's `toSet()` and
 * `mutableSetOf()` keep the first occurrence of each element in insertion
 * order, and the per-class import set is grown by name.
 */
module ImportSets {
  import opened Ir

  predicate NoDuplicates<T(==)>(xs: seq<T>)
  {
    forall i, j :: 0 <= i < j < |xs| ==> xs[i] != xs[j]
  }

  /** `toSet()` / `LinkedHashSet` insertion: each distinct element once, at its first position. */
  function Distinct<T(==,!new)>(xs: seq<T>): (r: seq<T>)
    ensures NoDuplicates(r)
    ensures forall x :: x in r <==> x in xs
    ensures |r| <= |xs|
  {
    if |xs| == 0 then []
    else
      var d := Distinct(xs[..|xs| - 1]);
      if xs[|xs| - 1] in d then d else d + [xs[|xs| - 1]]
  }

  /** A list that already has no duplicates is its own insertion-ordered set. */
  lemma {:induction false} DistinctOfDistinct<T(!new)>(xs: seq<T>)
    requires NoDuplicates(xs)
    ensures Distinct(xs) == xs
  {
    if |xs| > 0 {
      var init := xs[..|xs| - 1];
      DistinctOfDistinct(init);
      assert xs[|xs| - 1] !in init;
      assert init + [xs[|xs| - 1]] == xs;
    }
  }

  /** Elements keep the relative order of their first occurrences. */
  lemma {:induction false} DistinctKeepsOrder<T(!new)>(xs: seq<T>, i: nat, j: nat)
    requires i < j < |Distinct(xs)|
    ensures FirstIndex(xs, Distinct(xs)[i]) < FirstIndex(xs, Distinct(xs)[j])
  {
    var init := xs[..|xs| - 1];
    var d := Distinct(init);
    var a := Distinct(xs)[i];
    var b := Distinct(xs)[j];
    if j < |d| {
      DistinctKeepsOrder(init, i, j);
      FirstIndexPrefix(xs, init, a);
      FirstIndexPrefix(xs, init, b);
    } else {
      assert b == xs[|xs| - 1] && b !in init;
      assert a in init;
      FirstIndexPrefix(xs, init, a);
      FirstIndexLast(xs, b);
    }
  }

  function FirstIndex<T(==)>(xs: seq<T>, x: T): (k: nat)
    requires x in xs
    ensures k < |xs| && xs[k] == x
    ensures forall m :: 0 <= m < k ==> xs[m] != x
  {
    if xs[0] == x then 0 else 1 + FirstIndex(xs[1..], x)
  }

  lemma FirstIndexPrefix<T>(xs: seq<T>, init: seq<T>, x: T)
    requires init <= xs && x in init
    ensures FirstIndex(xs, x) == FirstIndex(init, x)
  {
    var k := FirstIndex(init, x);
    assert xs[k] == x;
    var k' := FirstIndex(xs, x);
    assert k' <= k;
  }

  lemma FirstIndexLast<T>(xs: seq<T>, x: T)
    requires |xs| > 0 && x == xs[|xs| - 1] && x !in xs[..|xs| - 1]
    ensures FirstIndex(xs, x) == |xs| - 1
  {
    var k := FirstIndex(xs, x);
    assert forall m :: 0 <= m < |xs| - 1 ==> xs[m] == xs[..|xs| - 1][m];
  }

  /** Set union as `Set + Iterable` computes it: the left operand first, then the new elements of the right. */
  function Union<T(==,!new)>(a: seq<T>, b: seq<T>): (r: seq<T>)
    ensures NoDuplicates(r)
    ensures forall x :: x in r <==> x in a || x in b
  {
    Distinct(a + b)
  }

  function Names(imports: seq<Import>): set<string>
  {
    set i | i in imports :: i.name
  }

  predicate UniqueNames(imports: seq<Import>)
  {
    forall i, j :: 0 <= i < j < |imports| ==> imports[i].name != imports[j].name
  }

  /** Adds `imp` unless an import of the same name is already present. */
  function AddByName(imports: seq<Import>, imp: Import): (r: seq<Import>)
    ensures Names(r) == Names(imports) + {imp.name}
    ensures imp.name in Names(imports) ==> r == imports
    ensures imp.name !in Names(imports) ==> r == imports + [imp]
    ensures UniqueNames(imports) ==> UniqueNames(r)
  {
    if exists k :: 0 <= k < |imports| && imports[k].name == imp.name then imports
    else
      assert forall k :: 0 <= k < |imports| ==> imports[k] in imports;
      imports + [imp]
  }

  /**
   * Merges the imports of one property into the class's import set, in
   * order: an import is added only when no import of its name is present,
   * so names that were unique stay unique.
   */
  function MergeByName(imports: seq<Import>, local: seq<Import>): (r: seq<Import>)
    ensures |local| == 0 ==> r == imports
    ensures imports <= r
    ensures forall x :: x in r[|imports|..] ==> x in local && x.name !in Names(imports)
    ensures UniqueNames(imports) ==> UniqueNames(r)
    decreases |local|
  {
    if |local| == 0 then imports
    else
      var next := AddByName(imports, local[0]);
      var r := MergeByName(next, local[1..]);
      SuffixSplit(imports, next, r);
      assert forall x :: x in local[1..] ==> x in local;
      r
  }

  /**
   * Merging is adding the local imports one at a time, in their order: with
   * AddByName's contract this says the first import of a name wins and the
   * new imports are appended in the order they are met.
   */
  lemma {:induction false} MergeByNameSnoc(imports: seq<Import>, local: seq<Import>, x: Import)
    ensures MergeByName(imports, local + [x]) == AddByName(MergeByName(imports, local), x)
    decreases |local|
  {
    if |local| == 0 {
      assert local + [x] == [x];
      assert [x][1..] == [];
    } else {
      assert (local + [x])[0] == local[0];
      assert (local + [x])[1..] == local[1..] + [x];
      MergeByNameSnoc(AddByName(imports, local[0]), local[1..], x);
    }
  }

  /** The part of `c` after its prefix `a` is the part of `b` after `a`, then the part of `c` after `b`. */
  lemma SuffixSplit<T>(a: seq<T>, b: seq<T>, c: seq<T>)
    requires a <= b && b <= c
    ensures c[|a|..] == b[|a|..] + c[|b|..]
  {
  }

  /** After merging, exactly the names of both lists are present. */
  lemma {:induction false} MergeByNameNames(imports: seq<Import>, local: seq<Import>)
    ensures Names(MergeByName(imports, local)) == Names(imports) + Names(local)
    decreases |local|
  {
    if |local| > 0 {
      MergeByNameNames(AddByName(imports, local[0]), local[1..]);
      NamesCons(local);
    }
  }

  lemma NamesCons(local: seq<Import>)
    requires |local| > 0
    ensures Names(local) == {local[0].name} + Names(local[1..])
  {
    assert local == [local[0]] + local[1..];
  }
}
