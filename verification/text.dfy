/** String helpers standing for the Kotlin standard-library calls the generators use. */
module Text {

  predicate StartsWith(s: string, prefix: string)
  {
    |prefix| <= |s| && s[..|prefix|] == prefix
  }

  predicate EndsWith(s: string, suffix: string)
  {
    |suffix| <= |s| && s[|s| - |suffix|..] == suffix
  }

  /** `joinToString(sep)`: the items in order with `sep` between neighbours. */
  function Join(items: seq<string>, sep: string): (r: string)
    ensures |items| == 0 ==> r == ""
    ensures |items| == 1 ==> r == items[0]
    ensures |items| > 0 ==> StartsWith(r, items[0])
  {
    if |items| == 0 then ""
    else if |items| == 1 then items[0]
    else items[0] + sep + Join(items[1..], sep)
  }

  /** Adding an item at the end of a non-empty list adds a separator and the item. */
  lemma {:induction false} JoinSnoc(items: seq<string>, x: string, sep: string)
    requires |items| > 0
    ensures Join(items + [x], sep) == Join(items, sep) + sep + x
  {
    if |items| == 1 {
      assert items + [x] == [items[0], x];
      assert ([items[0], x])[1..] == [x];
    } else {
      assert (items + [x])[1..] == items[1..] + [x];
      JoinSnoc(items[1..], x, sep);
    }
  }

  /** Joining two non-empty lists puts one separator between their joins. */
  lemma {:induction false} JoinAppend(a: seq<string>, b: seq<string>, sep: string)
    requires |a| > 0 && |b| > 0
    ensures Join(a + b, sep) == Join(a, sep) + sep + Join(b, sep)
  {
    if |a| == 1 {
      assert (a + b)[1..] == b;
    } else {
      assert (a + b)[1..] == a[1..] + b;
      JoinAppend(a[1..], b, sep);
    }
  }

  /** Every character of a join comes from an item or from the separator. */
  lemma {:induction false} JoinChars(items: seq<string>, sep: string, c: char)
    requires forall i :: 0 <= i < |items| ==> c !in items[i]
    requires c !in sep
    ensures c !in Join(items, sep)
  {
    if |items| > 1 {
      JoinChars(items[1..], sep, c);
    }
  }

  /** The concatenation of all items (Kotlin `joinToString("")`). */
  function Concat(items: seq<string>): (r: string)
    ensures |items| == 0 ==> r == ""
  {
    if |items| == 0 then "" else items[0] + Concat(items[1..])
  }

  lemma {:induction false} ConcatSnoc(items: seq<string>, x: string)
    ensures Concat(items + [x]) == Concat(items) + x
  {
    if |items| == 0 {
      assert items + [x] == [x];
    } else {
      assert (items + [x])[1..] == items[1..] + [x];
      ConcatSnoc(items[1..], x);
    }
  }

  lemma {:induction false} ConcatAppend(a: seq<string>, b: seq<string>)
    ensures Concat(a + b) == Concat(a) + Concat(b)
  {
    if |a| == 0 {
      assert a + b == b;
    } else {
      assert (a + b)[1..] == a[1..] + b;
      ConcatAppend(a[1..], b);
    }
  }

  lemma ConcatThree(a: string, b: string, c: string)
    ensures Concat([a, b, c]) == a + b + c
  {
    assert [a, b, c][1..] == [b, c];
    assert [b, c][1..] == [c];
    assert [c][1..] == [];
    assert Concat([c]) == c;
    assert Concat([b, c]) == b + c;
    assert Concat([a, b, c]) == a + (b + c);
  }

  /** `replace(from, to)` for single characters. */
  function ReplaceChar(s: string, from: char, to: char): (r: string)
    ensures |r| == |s|
    ensures forall i :: 0 <= i < |s| ==> r[i] == (if s[i] == from then to else s[i])
  {
    if |s| == 0 then "" else [if s[0] == from then to else s[0]] + ReplaceChar(s[1..], from, to)
  }

  /** Replacing a character distributes over concatenation. */
  lemma ReplaceCharAppend(a: string, b: string, from: char, to: char)
    ensures ReplaceChar(a + b, from, to) == ReplaceChar(a, from, to) + ReplaceChar(b, from, to)
  {
  }

  /** Replacing a character that does not occur changes nothing. */
  lemma ReplaceCharIdentity(s: string, from: char, to: char)
    requires from !in s
    ensures ReplaceChar(s, from, to) == s
  {
  }

  /** `split("/").last()`: the text after the last `sep`, or all of `s` when it holds none. */
  function LastSegment(s: string, sep: char): (r: string)
    ensures sep !in r
    ensures EndsWith(s, r)
    ensures |r| < |s| ==> s[|s| - |r| - 1] == sep
  {
    if |s| == 0 then ""
    else if s[|s| - 1] == sep then ""
    else LastSegment(s[..|s| - 1], sep) + [s[|s| - 1]]
  }

  lemma {:induction false} LastSegmentOfPath(dir: string, name: string, sep: char)
    requires sep !in name
    ensures LastSegment(dir + [sep] + name, sep) == name
  {
    var s := dir + [sep] + name;
    if |name| == 0 {
      assert s[|s| - 1] == sep;
    } else {
      var init := name[..|name| - 1];
      assert s[..|s| - 1] == dir + [sep] + init;
      assert s[|s| - 1] == name[|name| - 1];
      assert sep !in init by {
        forall i | 0 <= i < |init| ensures init[i] != sep {
          assert init[i] == name[i];
        }
      }
      LastSegmentOfPath(dir, init, sep);
      assert name == init + [name[|name| - 1]];
    }
  }

  /** `replaceFirst(pattern, replacement)`: the leftmost occurrence only. */
  function ReplaceFirst(s: string, pattern: string, replacement: string): (r: string)
    requires |pattern| > 0
    ensures StartsWith(s, pattern) ==> r == replacement + s[|pattern|..]
    decreases |s|
  {
    if StartsWith(s, pattern) then replacement + s[|pattern|..]
    else if |s| == 0 then s
    else [s[0]] + ReplaceFirst(s[1..], pattern, replacement)
  }
}
