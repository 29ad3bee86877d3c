/** String helpers with JavaScript's semantics: `indexOf`, `lastIndexOf`,
    `split` on a one-character separator, and its inverse `join`. */
module Strings {

  /** Position of the first `c` in `s`; `s` must contain `c`. */
  function IndexOf(s: string, c: char): (i: nat)
    requires c in s
    ensures i < |s| && s[i] == c
    ensures c !in s[..i]
  {
    if s[0] == c then 0 else 1 + IndexOf(s[1..], c)
  }

  /** Position of the last `c` in `s`, or -1 when there is none. */
  function LastIndexOf(s: string, c: char): (i: int)
    ensures -1 <= i < |s|
    ensures i == -1 <==> c !in s
    ensures 0 <= i ==> s[i] == c && c !in s[i + 1..]
  {
    if |s| == 0 then -1
    else if s[|s| - 1] == c then |s| - 1
    else
      assert s[..|s| - 1] + [s[|s| - 1]] == s;
      LastIndexOf(s[..|s| - 1], c)
  }

  /** Number of occurrences of `c` in `s`. */
  function Count(s: string, c: char): nat
  {
    if |s| == 0 then 0 else (if s[0] == c then 1 else 0) + Count(s[1..], c)
  }

  lemma {:induction false} CountConcat(a: string, b: string, c: char)
    ensures Count(a + b, c) == Count(a, c) + Count(b, c)
    decreases |a|
  {
    if |a| == 0 {
      assert a + b == b;
    } else {
      assert (a + b)[1..] == a[1..] + b;
      CountConcat(a[1..], b, c);
    }
  }

  lemma {:induction false} CountAbsent(s: string, c: char)
    requires c !in s
    ensures Count(s, c) == 0
    decreases |s|
  {
    if |s| > 0 {
      assert c !in s[1..];
      CountAbsent(s[1..], c);
    }
  }

  /** `parts.join(sep)`. */
  function Join(parts: seq<string>, sep: char): string
  {
    if |parts| == 0 then ""
    else if |parts| == 1 then parts[0]
    else parts[0] + [sep] + Join(parts[1..], sep)
  }

  /** `s.split(sep)`: the maximal `sep`-free pieces of `s`, empty pieces
      included, so there is always at least one piece. */
  function Split(s: string, sep: char): (parts: seq<string>)
    ensures |parts| == Count(s, sep) + 1
    ensures forall k :: 0 <= k < |parts| ==> sep !in parts[k]
    ensures Join(parts, sep) == s
    decreases |s|
  {
    if sep !in s then
      CountAbsent(s, sep);
      [s]
    else
      var i := IndexOf(s, sep);
      var rest := Split(s[i + 1..], sep);
      assert s == s[..i] + [sep] + s[i + 1..];
      CountConcat(s[..i] + [sep], s[i + 1..], sep);
      CountConcat(s[..i], [sep], sep);
      CountAbsent(s[..i], sep);
      assert Count([sep], sep) == 1 by {
        assert [sep][1..] == [];
      }
      [s[..i]] + rest
  }

  /** The first three pieces of a join, each with its separator, begin it. */
  lemma JoinThreePrefix(parts: seq<string>, sep: char)
    requires |parts| >= 4
    ensures parts[0] + [sep] + parts[1] + [sep] + parts[2] + [sep] <= Join(parts, sep)
  {
    JoinThreeHeads(parts, sep);
    var head := parts[0] + [sep] + parts[1] + [sep] + parts[2] + [sep];
    var rest := Join(parts[3..], sep);
    assert (head + rest)[..|head|] == head;
  }

  /** Splitting a string that starts with a separator-free piece and a
      separator yields that piece followed by the split of the remainder. */
  lemma SplitCons(head: string, sep: char, tail: string)
    requires sep !in head
    ensures Split(head + [sep] + tail, sep) == [head] + Split(tail, sep)
  {
    var s := head + [sep] + tail;
    assert s[|head|] == sep;
    assert s[..|head|] == head;
    assert IndexOf(s, sep) == |head|;
    assert s[|head| + 1..] == tail;
  }

  /** The first three pieces of a join, spelled out. */
  lemma JoinThreeHeads(parts: seq<string>, sep: char)
    requires |parts| >= 4
    ensures Join(parts, sep) == parts[0] + [sep] + parts[1] + [sep] + parts[2] + [sep] + Join(parts[3..], sep)
  {
    assert parts[1..][1..] == parts[2..];
    assert parts[2..][1..] == parts[3..];
    var t3 := Join(parts[3..], sep);
    var t2 := Join(parts[2..], sep);
    var t1 := Join(parts[1..], sep);
    assert t2 == parts[2] + [sep] + t3;
    assert t1 == parts[1] + [sep] + t2;
    assert Join(parts, sep) == parts[0] + [sep] + t1;
  }

  /** Splitting undoes joining whenever no piece contains the separator. */
  lemma {:induction false} SplitJoin(parts: seq<string>, sep: char)
    requires |parts| >= 1
    requires forall k :: 0 <= k < |parts| ==> sep !in parts[k]
    ensures Split(Join(parts, sep), sep) == parts
    decreases |parts|
  {
    if |parts| == 1 {
      assert Join(parts, sep) == parts[0];
    } else {
      SplitCons(parts[0], sep, Join(parts[1..], sep));
      SplitJoin(parts[1..], sep);
      assert parts == [parts[0]] + parts[1..];
    }
  }
}
