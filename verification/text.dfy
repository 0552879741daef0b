/** The Python string operations the tool relies on: `str.split(sep)`,
    `str.split()` (white-space splitting), `str.strip()`, `sep.join(parts)`
    and the `sub in s` substring test, on strings as `seq<char>`. */
module Text {

  /** `d` occurs in `s` starting at index `i`. */
  predicate Occurs(s: string, d: string, i: int) {
    0 <= i && i + |d| <= |s| && s[i..i + |d|] == d
  }

  /** Python's `sub in s`; the empty string is in every string. */
  predicate Contains(s: string, sub: string) {
    exists i | 0 <= i <= |s| :: Occurs(s, sub, i)
  }

  /** `p` holds no occurrence of `d`. */
  predicate Free(p: string, d: string) {
    forall i | 0 <= i <= |p| :: !Occurs(p, d, i)
  }

  /** In `p + d` the first occurrence of `d` is the appended one, so a split
      of `p + d + rest` ends its first segment exactly after `p`. For `"::"`
      this says: `p` holds no `"::"` and does not end with `':'`. */
  predicate Clean(p: string, d: string) {
    forall i | 0 <= i < |p| :: !Occurs(p + d, d, i)
  }

  /** `d.join(parts)`. */
  function Join(parts: seq<string>, d: string): string
    requires |parts| >= 1
  {
    if |parts| == 1 then parts[0] else parts[0] + d + Join(parts[1..], d)
  }

  /** A join of two and of four segments, written out. */
  lemma JoinUnfolded(a: string, b: string, c: string, e: string, d: string)
    ensures Join([a, b], d) == a + d + b
    ensures Join([a, b, c, e], d) == a + d + b + d + c + d + e
  {
    assert [a, b][1..] == [b];
    assert [a, b, c, e][1..] == [b, c, e];
    assert [b, c, e][1..] == [c, e];
    assert [c, e][1..] == [e];
    assert Join([c, e], d) == c + d + e;
    assert Join([b, c, e], d) == b + d + (c + d + e);
    assert Join([a, b, c, e], d) == a + d + (b + d + (c + d + e));
  }

  /** `s.split(d)` for a non-empty separator: cut at every occurrence of `d`
      found scanning left to right, occurrences not overlapping. */
  function Split(s: string, d: string): (parts: seq<string>)
    requires d != []
    ensures |parts| >= 1
    decreases |s|
  {
    if |s| < |d| then [s]
    else if s[..|d|] == d then [[]] + Split(s[|d|..], d)
    else
      var rest := Split(s[1..], d);
      [[s[0]] + rest[0]] + rest[1..]
  }

  /** The segment shape `Split` produces and `Join` inverts: every segment
      but the last is `Clean`, the last is `Free`. */
  predicate Segments(parts: seq<string>, d: string) {
    && |parts| >= 1
    && (forall i | 0 <= i < |parts| - 1 :: Clean(parts[i], d))
    && Free(parts[|parts| - 1], d)
  }

  lemma {:induction false} SplitFree(p: string, d: string)
    requires d != [] && Free(p, d)
    ensures Split(p, d) == [p]
    decreases |p|
  {
    if |p| >= |d| {
      assert !Occurs(p, d, 0);
      assert Free(p[1..], d) by {
        forall i | 0 <= i <= |p[1..]|
          ensures !Occurs(p[1..], d, i)
        {
          if Occurs(p[1..], d, i) {
            assert p[1..][i..i + |d|] == p[i + 1..i + 1 + |d|];
            assert Occurs(p, d, i + 1);
          }
        }
      }
      SplitFree(p[1..], d);
      assert [p[0]] + p[1..] == p;
    }
  }

  lemma {:induction false} SplitClean(p: string, rest: string, d: string)
    requires d != [] && Clean(p, d)
    ensures Split(p + d + rest, d) == [p] + Split(rest, d)
    decreases |p|
  {
    var s := p + d + rest;
    if p == [] {
      assert s[..|d|] == d;
      assert s[|d|..] == rest;
    } else {
      assert !Occurs(p + d, d, 0);
      assert s[..|d|] == (p + d)[..|d|];
      assert Clean(p[1..], d) by {
        forall i | 0 <= i < |p[1..]|
          ensures !Occurs(p[1..] + d, d, i)
        {
          if Occurs(p[1..] + d, d, i) {
            assert (p[1..] + d)[i..i + |d|] == (p + d)[i + 1..i + 1 + |d|];
            assert Occurs(p + d, d, i + 1);
          }
        }
      }
      SplitClean(p[1..], rest, d);
      assert s[1..] == p[1..] + d + rest;
      assert [p[0]] + p[1..] == p;
    }
  }

  /** Splitting a join of well-shaped segments gives the segments back. */
  lemma {:induction false} SplitJoin(parts: seq<string>, d: string)
    requires d != [] && Segments(parts, d)
    ensures Split(Join(parts, d), d) == parts
    decreases |parts|
  {
    if |parts| == 1 {
      SplitFree(parts[0], d);
    } else {
      assert Segments(parts[1..], d) by {
        forall i | 0 <= i < |parts[1..]| - 1
          ensures Clean(parts[1..][i], d)
        {
          assert parts[1..][i] == parts[i + 1];
        }
      }
      SplitJoin(parts[1..], d);
      SplitClean(parts[0], Join(parts[1..], d), d);
      assert [parts[0]] + parts[1..] == parts;
    }
  }

  /** Prepending a `Clean` segment keeps the segment shape. */
  lemma SegmentsCons(head: string, tail: seq<string>, d: string)
    requires Clean(head, d) && Segments(tail, d)
    ensures Segments([head] + tail, d)
    ensures Join([head] + tail, d) == head + d + Join(tail, d)
  {
    var parts := [head] + tail;
    assert parts[1..] == tail;
    forall i | 0 <= i < |parts| - 1
      ensures Clean(parts[i], d)
    {
      if i > 0 {
        assert parts[i] == tail[i - 1];
      }
    }
  }

  /** An occurrence one place into `s` is an occurrence in its tail. */
  lemma OccursTail(s: string, d: string, i: nat)
    requires s != []
    ensures Occurs(s, d, i + 1) <==> Occurs(s[1..], d, i)
  {
    if i + 1 + |d| <= |s| {
      assert s[1..][i..i + |d|] == s[i + 1..i + 1 + |d|];
    }
  }

  /** Extending a `Free` last segment by a character that does not start
      the separator keeps it `Free`. */
  lemma ExtendFree(s: string, t: string, d: string)
    requires d != [] && |s| >= |d| && !Occurs(s, d, 0)
    requires Free(t, d) && t == s[1..]
    ensures Free(s, d)
  {
    forall i | 0 < i <= |s|
      ensures !Occurs(s, d, i)
    {
      OccursTail(s, d, i - 1);
    }
  }

  /** Extending a `Clean` segment by a character that does not start the
      separator keeps it `Clean`. */
  lemma ExtendClean(c: char, t: string, rest: string, d: string)
    requires d != [] && Clean(t, d)
    requires !Occurs([c] + t + d + rest, d, 0)
    ensures Clean([c] + t, d)
  {
    var h := [c] + t + d;
    assert h[1..] == t + d;
    assert ([c] + t + d + rest)[..|d|] == h[..|d|];
    forall i | 0 <= i < |[c] + t|
      ensures !Occurs(([c] + t) + d, d, i)
    {
      if i > 0 {
        OccursTail(h, d, i - 1);
      }
    }
  }

  /** A character that does not start the separator joins the first segment. */
  lemma ExtendFirst(s: string, tail: seq<string>, d: string)
    requires d != [] && |s| >= |d| && !Occurs(s, d, 0)
    requires Segments(tail, d) && Join(tail, d) == s[1..]
    ensures Segments([[s[0]] + tail[0]] + tail[1..], d)
    ensures Join([[s[0]] + tail[0]] + tail[1..], d) == s
  {
    var head := [s[0]] + tail[0];
    assert s == [s[0]] + s[1..];
    if |tail| == 1 {
      assert [head] + tail[1..] == [head];
      ExtendFree(s, tail[0], d);
    } else {
      var rest := Join(tail[1..], d);
      assert s[1..] == tail[0] + d + rest;
      assert s == [s[0]] + tail[0] + d + rest;
      ExtendClean(s[0], tail[0], rest, d);
      assert Segments(tail[1..], d) by {
        forall i | 0 <= i < |tail[1..]| - 1
          ensures Clean(tail[1..][i], d)
        {
          assert tail[1..][i] == tail[i + 1];
        }
        assert tail[1..][|tail[1..]| - 1] == tail[|tail| - 1];
      }
      SegmentsCons(head, tail[1..], d);
    }
  }

  /** Joining what a split returns gives the string back, and the segments
      have the shape `SplitJoin` asks for. */
  lemma {:induction false} JoinSplit(s: string, d: string)
    requires d != []
    ensures Join(Split(s, d), d) == s
    ensures Segments(Split(s, d), d)
    decreases |s|
  {
    if |s| < |d| {
      assert Free(s, d);
    } else if s[..|d|] == d {
      JoinSplit(s[|d|..], d);
      assert Clean([], d);
      SegmentsCons([], Split(s[|d|..], d), d);
      assert s == s[..|d|] + s[|d|..];
    } else {
      assert !Occurs(s, d, 0);
      JoinSplit(s[1..], d);
      ExtendFirst(s, Split(s[1..], d), d);
    }
  }

  /** `Split` is characterised by its inverse: it returns exactly the
      well-shaped segment list whose join is the input. */
  lemma SplitCharacterisation(s: string, d: string, parts: seq<string>)
    requires d != []
    ensures Split(s, d) == parts <==> Segments(parts, d) && Join(parts, d) == s
  {
    JoinSplit(s, d);
    if Segments(parts, d) && Join(parts, d) == s {
      SplitJoin(parts, d);
    }
  }

  /** Python's `str.isspace` for one character. */
  predicate IsSpace(c: char) {
    || '\t' <= c <= '\r'
    || '\U{1c}' <= c <= ' '
    || c == '\U{85}' || c == '\U{a0}' || c == '\U{1680}'
    || '\U{2000}' <= c <= '\U{200a}'
    || c == '\U{2028}' || c == '\U{2029}' || c == '\U{202f}' || c == '\U{205f}' || c == '\U{3000}'
  }

  /** No character of `s` is white space. */
  predicate NoSpace(s: string) {
    forall k | 0 <= k < |s| :: !IsSpace(s[k])
  }

  /** Length of the run of white space at the start of `s`. */
  function LeadingSpace(s: string): (n: nat)
    ensures n <= |s|
    ensures forall k | 0 <= k < n :: IsSpace(s[k])
    ensures n < |s| ==> !IsSpace(s[n])
  {
    if s != [] && IsSpace(s[0]) then 1 + LeadingSpace(s[1..]) else 0
  }

  /** Length of the run of white space at the end of `s`. */
  function TrailingSpace(s: string): (n: nat)
    ensures n <= |s|
    ensures forall k | |s| - n <= k < |s| :: IsSpace(s[k])
    ensures n < |s| ==> !IsSpace(s[|s| - n - 1])
  {
    if s != [] && IsSpace(s[|s| - 1]) then 1 + TrailingSpace(s[..|s| - 1]) else 0
  }

  /** Every character of `s` is white space. */
  predicate AllSpace(s: string) {
    forall k | 0 <= k < |s| :: IsSpace(s[k])
  }

  /** `s` neither starts nor ends with white space. */
  predicate Trimmed(s: string) {
    s == [] || (!IsSpace(s[0]) && !IsSpace(s[|s| - 1]))
  }

  /** Python's `strip()`: the slice of `s` left once the white space at
      both ends is dropped, and nothing else. */
  function Strip(s: string): (r: string)
    ensures Trimmed(r)
    ensures LeadingSpace(s) + |r| <= |s| && r == s[LeadingSpace(s)..LeadingSpace(s) + |r|]
    ensures AllSpace(s[..LeadingSpace(s)]) && AllSpace(s[LeadingSpace(s) + |r|..])
    ensures NoSpace(s) ==> r == s
  {
    var a := LeadingSpace(s);
    var t := s[a..];
    var r := t[..|t| - TrailingSpace(t)];
    assert s[a + |r|..] == t[|t| - TrailingSpace(t)..];
    r
  }

  /** Stripping undoes white-space padding around a trimmed string. */
  lemma StripPadded(p: string, w: string, q: string)
    requires AllSpace(p) && AllSpace(q) && Trimmed(w)
    ensures Strip(p + w + q) == w
  {
    var s := p + w + q;
    var a := LeadingSpace(s);
    var r := Strip(s);
    if w == [] {
      assert AllSpace(s) by {
        forall k | 0 <= k < |s|
          ensures IsSpace(s[k])
        {
          if k < |p| { assert s[k] == p[k]; } else { assert s[k] == q[k - |p|]; }
        }
      }
      assert a == |s|;
    } else {
      assert !IsSpace(s[|p|]) by { assert s[|p|] == w[0]; }
      assert forall k | 0 <= k < |p| :: IsSpace(s[k]) by {
        forall k | 0 <= k < |p| ensures s[k] == p[k] { }
      }
      assert a == |p|;
      assert forall k | |p| + |w| <= k < |s| :: IsSpace(s[k]) by {
        forall k | |p| + |w| <= k < |s| ensures s[k] == q[k - |p| - |w|] { }
      }
      assert !IsSpace(s[|p| + |w| - 1]) by { assert s[|p| + |w| - 1] == w[|w| - 1]; }
      assert |r| == |w|;
      assert s[|p|..|p| + |w|] == w;
    }
  }

  /** Length of the run of non-space characters at the start of `s`. */
  function WordLength(s: string): (n: nat)
    ensures n <= |s|
    ensures forall k | 0 <= k < n :: !IsSpace(s[k])
    ensures n < |s| ==> IsSpace(s[n])
  {
    if s != [] && !IsSpace(s[0]) then 1 + WordLength(s[1..]) else 0
  }

  /** Python's `split()` with no separator: the maximal runs of non-space
      characters, in order. */
  function Words(s: string): (words: seq<string>)
    ensures forall i | 0 <= i < |words| :: words[i] != [] && NoSpace(words[i])
    decreases |s|
  {
    if s == [] then []
    else if IsSpace(s[0]) then Words(s[1..])
    else
      var n := WordLength(s);
      [s[..n]] + Words(s[n..])
  }

  lemma WordLengthOfSpaceless(s: string)
    requires NoSpace(s)
    ensures WordLength(s) == |s|
  {
    if s != [] {
      assert NoSpace(s[1..]) by {
        forall k | 0 <= k < |s[1..]|
          ensures !IsSpace(s[1..][k])
        {
          assert s[1..][k] == s[k + 1];
        }
      }
      WordLengthOfSpaceless(s[1..]);
    }
  }

  /** A non-empty string without white space is one word. */
  lemma WordsOfSpaceless(s: string)
    requires s != [] && NoSpace(s)
    ensures Words(s) == [s]
  {
    var n := WordLength(s);
    WordLengthOfSpaceless(s);
    assert s[..n] == s;
    assert s[n..] == [];
  }

  /** Leading white space separates no word. */
  lemma {:induction false} WordsSkipSpace(sp: string, rest: string)
    requires AllSpace(sp)
    ensures Words(sp + rest) == Words(rest)
    decreases |sp|
  {
    if sp == [] {
      assert sp + rest == rest;
    } else {
      assert (sp + rest)[0] == sp[0];
      assert (sp + rest)[1..] == sp[1..] + rest;
      WordsSkipSpace(sp[1..], rest);
    }
  }

  /** A run of non-space characters ended by white space is the next word. */
  lemma WordsCons(w: string, c: char, rest: string)
    requires w != [] && NoSpace(w) && IsSpace(c)
    ensures Words(w + [c] + rest) == [w] + Words(rest)
  {
    var s := w + [c] + rest;
    var n := WordLength(s);
    assert IsSpace(s[|w|]) by { assert s[|w|] == c; }
    assert forall k | 0 <= k < |w| :: !IsSpace(s[k]) by {
      forall k | 0 <= k < |w| ensures s[k] == w[k] { }
    }
    assert n == |w|;
    assert s[..n] == w;
    assert s[n..] == [c] + rest;
    assert ([c] + rest)[1..] == rest;
  }
}
