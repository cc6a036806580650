/** The Python `str` methods the services rely on, over `string = seq<char>`
    (a `char` is a Unicode scalar value, so `|s|` is Python's `len(s)`). */
module Text {
  import opened Seqs

  /** `s.startswith(prefix)` */
  predicate StartsWith(s: string, prefix: string) {
    |prefix| <= |s| && s[..|prefix|] == prefix
  }

  /** `s.endswith(suffix)` */
  predicate EndsWith(s: string, suffix: string) {
    |suffix| <= |s| && s[|s| - |suffix|..] == suffix
  }

  /** Lower-cases the ASCII letters and leaves every other character alone. */
  function LowerChar(c: char): char {
    if 'A' <= c <= 'Z' then (c as int - 'A' as int + 'a' as int) as char else c
  }

  /** `s.lower()`, restricted to ASCII letters: no upper-case ASCII letter is
      left, each one becomes its lower-case partner 32 code points up, and
      every other character stays. */
  function Lower(s: string): (r: string)
    ensures |r| == |s|
    ensures forall i :: 0 <= i < |r| ==> !('A' <= r[i] <= 'Z')
    ensures forall i :: 0 <= i < |s| && 'A' <= s[i] <= 'Z' ==> r[i] as int == s[i] as int + 32
    ensures forall i :: 0 <= i < |s| && !('A' <= s[i] <= 'Z') ==> r[i] == s[i]
  {
    seq(|s|, i requires 0 <= i < |s| => LowerChar(s[i]))
  }

  /** `s.count(c)` for a one-character needle. */
  function Count(s: string, c: char): (n: nat)
    ensures n <= |s|
    ensures n == 0 <==> c !in s
    decreases |s|
  {
    if s == [] then 0
    else
      assert s == [s[0]] + s[1..];
      (if s[0] == c then 1 else 0) + Count(s[1..], c)
  }

  /** The count is the multiplicity of `c` in `s`. */
  lemma {:induction false} CountIsMultiplicity(s: string, c: char)
    ensures Count(s, c) == multiset(s)[c]
    decreases |s|
  {
    if s != [] {
      assert s == [s[0]] + s[1..];
      assert multiset(s) == multiset([s[0]]) + multiset(s[1..]);
      CountIsMultiplicity(s[1..], c);
    }
  }

  /** `s.rstrip(c)` for a one-character argument: the longest prefix of `s`
      that does not end with `c`, such that only `c`s were removed. */
  function RStrip(s: string, c: char): (r: string)
    ensures StartsWith(s, r)
    ensures |r| == 0 || r[|r| - 1] != c
    ensures forall i :: |r| <= i < |s| ==> s[i] == c
    decreases |s|
  {
    if |s| > 0 && s[|s| - 1] == c then RStrip(s[..|s| - 1], c) else s
  }

  /** `s.split(c)`: the pieces between the occurrences of `c`, empty pieces included,
      so that `"".split(c) == [""]`. */
  function Split(s: string, c: char): (parts: seq<string>)
    ensures |parts| == Count(s, c) + 1
    ensures forall i :: 0 <= i < |parts| ==> c !in parts[i]
    decreases |s|
  {
    if s == [] then [""]
    else
      var rest := Split(s[1..], c);
      if s[0] == c then [""] + rest else [[s[0]] + rest[0]] + rest[1..]
  }

  /** `sep.join(parts)` */
  function Join(parts: seq<string>, sep: string): string
    decreases |parts|
  {
    if |parts| == 0 then ""
    else if |parts| == 1 then parts[0]
    else parts[0] + sep + Join(parts[1..], sep)
  }

  /** The summed lengths of the parts. */
  function TotalLength(parts: seq<string>): nat
    decreases |parts|
  {
    if parts == [] then 0 else |parts[0]| + TotalLength(parts[1..])
  }

  /** A join starts with the first part and ends with the last, and its length
      is that of all parts plus one separator between each two. */
  lemma {:induction false} JoinOutline(parts: seq<string>, sep: string)
    requires |parts| >= 1
    ensures var r := Join(parts, sep);
      && StartsWith(r, parts[0])
      && EndsWith(r, parts[|parts| - 1])
      && |r| == TotalLength(parts) + (|parts| - 1) * |sep|
    decreases |parts|
  {
    if |parts| > 1 {
      var rest := Join(parts[1..], sep);
      JoinOutline(parts[1..], sep);
      var r := parts[0] + sep + rest;
      assert r[..|parts[0]|] == parts[0];
      assert r[|r| - |rest|..] == rest;
      var last := parts[|parts| - 1];
      assert rest[|rest| - |last|..] == last;
      assert r[|r| - |last|..] == rest[|rest| - |last|..];
    }
  }

  /** Joining the pieces of a split with the separator gives back the string. */
  lemma {:induction false} JoinSplit(s: string, c: char)
    ensures Join(Split(s, c), [c]) == s
    decreases |s|
  {
    if s != [] {
      var rest := Split(s[1..], c);
      JoinSplit(s[1..], c);
      if s[0] == c {
        JoinCons("", rest, [c]);
      } else {
        JoinExtendFirst(s[0], rest, [c]);
      }
      assert s == [s[0]] + s[1..];
    }
  }

  lemma JoinCons(a: string, rest: seq<string>, sep: string)
    requires |rest| >= 1
    ensures Join([a] + rest, sep) == a + sep + Join(rest, sep)
  {
    assert ([a] + rest)[1..] == rest;
  }

  /** Putting a character in front of the first part puts it in front of the join. */
  lemma JoinExtendFirst(x: char, parts: seq<string>, sep: string)
    requires |parts| >= 1
    ensures Join([[x] + parts[0]] + parts[1..], sep) == [x] + Join(parts, sep)
  {
    if |parts| > 1 {
      JoinCons([x] + parts[0], parts[1..], sep);
      JoinCons(parts[0], parts[1..], sep);
      assert parts == [parts[0]] + parts[1..];
    }
  }

  /** The tail of a join: the last two parts, preceded by a separator unless
      they are the only parts. */
  lemma {:induction false} JoinLastTwo(parts: seq<string>, sep: string)
    requires |parts| >= 2
    ensures var n := |parts|;
      Join(parts, sep) ==
        (if n == 2 then "" else Join(parts[..n - 2], sep) + sep) + parts[n - 2] + sep + parts[n - 1]
    decreases |parts|
  {
    var n := |parts|;
    if n > 2 {
      JoinLastTwo(parts[1..], sep);
      assert parts[1..][..n - 3] == parts[1..n - 2];
      if n == 3 {
        assert parts[..n - 2] == [parts[0]];
      } else {
        assert parts[..n - 2][1..] == parts[1..n - 2];
        assert Join(parts[..n - 2], sep) == parts[0] + sep + Join(parts[1..n - 2], sep);
      }
    }
  }

  /** `s` ends with `a`, the separator and `b`, and what precedes them is
      either nothing or a separator: `a` and `b` are whole trailing segments. */
  predicate EndsWithLastSegments(s: string, a: string, b: string, c: char) {
    var tail := a + [c] + b;
    EndsWith(s, tail) && (|s| == |tail| || s[|s| - |tail| - 1] == c)
  }

  lemma LastSegmentsAfterLead(lead: string, a: string, b: string, c: char)
    requires lead == [] || lead[|lead| - 1] == c
    ensures EndsWithLastSegments(lead + a + [c] + b, a, b, c)
  {
    var tail := a + [c] + b;
    var s := lead + a + [c] + b;
    assert s == lead + tail;
    assert s[|s| - |tail|..] == tail;
    if lead != [] {
      assert s[|s| - |tail| - 1] == lead[|lead| - 1];
    }
  }

  /** The last two parts of a join are whole trailing segments of it. */
  lemma JoinEndsWithLastSegments(parts: seq<string>, c: char)
    requires |parts| >= 2
    ensures EndsWithLastSegments(Join(parts, [c]), parts[|parts| - 2], parts[|parts| - 1], c)
  {
    var n := |parts|;
    JoinLastTwo(parts, [c]);
    var lead := if n == 2 then "" else Join(parts[..n - 2], [c]) + [c];
    assert Join(parts, [c]) == lead + parts[n - 2] + [c] + parts[n - 1];
    LastSegmentsAfterLead(lead, parts[n - 2], parts[n - 1], c);
  }

  /** The last two pieces of a split are whole trailing segments of the string. */
  lemma SplitLastTwo(s: string, c: char)
    requires |Split(s, c)| >= 2
    ensures var parts := Split(s, c);
      EndsWithLastSegments(s, parts[|parts| - 2], parts[|parts| - 1], c)
  {
    var parts := Split(s, c);
    JoinSplit(s, c);
    JoinEndsWithLastSegments(parts, c);
    assert Join(parts, [c]) == s;
  }

  /** One step of `split`: a leading separator opens a new empty piece, any
      other character joins the first piece. */
  lemma SplitCons(x: char, rest: string, c: char)
    ensures Split([x] + rest, c) ==
      if x == c then [""] + Split(rest, c)
      else [[x] + Split(rest, c)[0]] + Split(rest, c)[1..]
  {
    assert ([x] + rest)[1..] == rest;
  }

  /** A string without the separator splits into itself alone. */
  lemma {:induction false} SplitNoSeparator(s: string, c: char)
    requires c !in s
    ensures Split(s, c) == [s]
    decreases |s|
  {
    if s != [] {
      assert s == [s[0]] + s[1..];
      SplitNoSeparator(s[1..], c);
      SplitCons(s[0], s[1..], c);
    }
  }

  /** The piece before the first separator comes first, then the split of the rest. */
  lemma {:induction false} SplitAfterSeparator(a: string, b: string, c: char)
    requires c !in a
    ensures Split(a + [c] + b, c) == [a] + Split(b, c)
    decreases |a|
  {
    if a == [] {
      assert a + [c] + b == [c] + b;
      SplitCons(c, b, c);
    } else {
      var rest := a[1..] + [c] + b;
      assert a + [c] + b == [a[0]] + rest;
      SplitAfterSeparator(a[1..], b, c);
      SplitCons(a[0], rest, c);
      assert [a[0]] + a[1..] == a;
    }
  }

  /** A string that does not end with `c` is unchanged by `rstrip(c)`. */
  lemma RStripNoTrailing(s: string, c: char)
    requires s == [] || s[|s| - 1] != c
    ensures RStrip(s, c) == s
  {
  }

  /** The last two of `parts` are `a` and `b`. */
  ghost predicate EndsWithPieces(parts: seq<string>, a: string, b: string) {
    |parts| >= 2 && parts[|parts| - 2] == a && parts[|parts| - 1] == b
  }

  /** Conversely, two separator-free trailing segments are the last two pieces of
      the split, and a third piece precedes them when anything precedes the
      separator between them. */
  lemma {:induction false} SplitEndsWithSegments(s: string, a: string, b: string, c: char)
    requires c !in a && c !in b
    requires EndsWithLastSegments(s, a, b, c)
    ensures EndsWithPieces(Split(s, c), a, b)
    ensures |s| > |a| + 1 + |b| ==> |Split(s, c)| >= 3
    decreases |s|
  {
    if |s| == |a| + 1 + |b| {
      LastSegmentsWhole(s, a, b, c);
    } else {
      LastSegmentsDropFirst(s, a, b, c);
      SplitEndsWithSegments(s[1..], a, b, c);
      SplitStepKeepsLastTwo(s, a, b, c);
    }
  }

  /** A string made of just the two trailing segments splits into them. */
  lemma LastSegmentsWhole(s: string, a: string, b: string, c: char)
    requires c !in a && c !in b
    requires EndsWithLastSegments(s, a, b, c)
    requires |s| == |a| + 1 + |b|
    ensures EndsWithPieces(Split(s, c), a, b)
  {
    assert s == a + [c] + b;
    SplitTwoSegments(a, b, c);
  }

  /** Dropping the first character of a longer string keeps the trailing segments;
      when only they remain, the dropped character was the separator. */
  lemma LastSegmentsDropFirst(s: string, a: string, b: string, c: char)
    requires EndsWithLastSegments(s, a, b, c)
    requires |s| > |a| + 1 + |b|
    ensures EndsWithLastSegments(s[1..], a, b, c)
    ensures |s| == |a| + 1 + |b| + 1 ==> s[0] == c
  {
    var tail := a + [c] + b;
    var t := s[1..];
    assert t[|t| - |tail|..] == s[|s| - |tail|..];
    if |t| > |tail| {
      assert t[|t| - |tail| - 1] == s[|s| - |tail| - 1];
    }
  }

  /** Two separator-free segments around one separator split into exactly those two. */
  lemma SplitTwoSegments(a: string, b: string, c: char)
    requires c !in a && c !in b
    ensures Split(a + [c] + b, c) == [a, b]
  {
    SplitNoSeparator(b, c);
    SplitAfterSeparator(a, b, c);
  }

  /** A step at the front of the string leaves the last two pieces alone once
      there are at least three, or when the step opens a new piece. */
  lemma SplitStepKeepsLastTwo(s: string, a: string, b: string, c: char)
    requires |s| >= 1
    requires EndsWithPieces(Split(s[1..], c), a, b)
    requires |Split(s[1..], c)| >= 3 || s[0] == c
    ensures EndsWithPieces(Split(s, c), a, b) && |Split(s, c)| >= 3
  {
    var r := Split(s[1..], c);
    if s[0] == c {
      ConsKeepsLastTwo("", r);
    } else {
      ReplaceHeadKeepsLastTwo([s[0]] + r[0], r);
    }
  }
}
