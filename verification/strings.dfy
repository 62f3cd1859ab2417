/** String joining as Go's `strings.Join` does it, and the two splitting
    functions that undo it. */
module Strings {
  import opened Outcomes

  /** Concatenates `parts` with `sep` between neighbours: no parts give the
      empty string and a single part is returned unchanged. */
  function Join(parts: seq<string>, sep: string): (joined: string)
  {
    if |parts| == 0 then ""
    else if |parts| == 1 then parts[0]
    else parts[0] + sep + Join(parts[1..], sep)
  }

  /** Cuts `s` at every occurrence of `sep`, scanning left to right; there is
      always at least one piece. */
  function SplitOn(s: string, sep: string): (pieces: seq<string>)
    requires |sep| > 0
    ensures |pieces| > 0
    decreases |s|
  {
    if |sep| <= |s| && s[..|sep|] == sep then [""] + SplitOn(s[|sep|..], sep)
    else if |s| == 0 then [""]
    else
      var rest := SplitOn(s[1..], sep);
      [[s[0]] + rest[0]] + rest[1..]
  }

  /** Cuts `s` at the first occurrence of `c`, dropping that character. */
  function SplitFirst(s: string, c: char): (r: Option<(string, string)>)
    ensures r.None? <==> c !in s
    ensures r.Some? ==> c !in r.value.0 && s == r.value.0 + [c] + r.value.1
  {
    if |s| == 0 then None
    else if s[0] == c then Some(([], s[1..]))
    else
      match SplitFirst(s[1..], c)
      case None => None
      case Some((before, after)) =>
        assert s == [s[0]] + s[1..];
        Some(([s[0]] + before, after))
  }

  /** A joined text is at least as long as its first part. */
  lemma JoinCoversFirst(parts: seq<string>, sep: string)
    requires |parts| > 0
    ensures |Join(parts, sep)| >= |parts[0]|
  {
  }

  /** A character that occurs neither in the separator nor in any part does
      not occur in the joined text. */
  lemma {:induction false} JoinAvoids(parts: seq<string>, sep: string, c: char)
    requires c !in sep
    requires forall i :: 0 <= i < |parts| ==> c !in parts[i]
    ensures c !in Join(parts, sep)
  {
    if |parts| > 1 {
      JoinAvoids(parts[1..], sep, c);
      assert c !in parts[0];
    }
  }

  /** A text free of the separator's first character is a single piece. */
  lemma {:induction false} SplitOnWithoutSeparator(p: string, sep: string)
    requires |sep| > 0 && sep[0] !in p
    ensures SplitOn(p, sep) == [p]
    decreases |p|
  {
    if |p| > 0 {
      assert p[0] != sep[0];
      if |sep| <= |p| {
        assert p[..|sep|][0] != sep[0];
      }
      SplitOnWithoutSeparator(p[1..], sep);
      assert [p[0]] + p[1..] == p;
    }
  }

  /** Splitting stops at a separator that follows a separator-free prefix. */
  lemma {:induction false} SplitOnAfterPrefix(p: string, sep: string, t: string)
    requires |sep| > 0 && sep[0] !in p
    ensures SplitOn(p + sep + t, sep) == [p] + SplitOn(t, sep)
    decreases |p|
  {
    var s := p + sep + t;
    if |p| == 0 {
      assert s == sep + t;
      assert s[..|sep|] == sep;
      assert s[|sep|..] == t;
    } else {
      assert s[0] == p[0] && p[0] != sep[0];
      if |sep| <= |s| {
        assert s[..|sep|][0] != sep[0];
      }
      assert s[1..] == p[1..] + sep + t;
      SplitOnAfterPrefix(p[1..], sep, t);
      assert [p[0]] + p[1..] == p;
    }
  }

  /** Splitting undoes joining when no part contains the separator's first
      character. */
  lemma {:induction false} SplitOnJoin(parts: seq<string>, sep: string)
    requires |sep| > 0 && |parts| > 0
    requires forall i :: 0 <= i < |parts| ==> sep[0] !in parts[i]
    ensures SplitOn(Join(parts, sep), sep) == parts
  {
    if |parts| == 1 {
      SplitOnWithoutSeparator(parts[0], sep);
    } else {
      SplitOnAfterPrefix(parts[0], sep, Join(parts[1..], sep));
      SplitOnJoin(parts[1..], sep);
      assert [parts[0]] + parts[1..] == parts;
    }
  }

  /** `SplitFirst` finds the separator right after a prefix that avoids it. */
  lemma {:induction false} SplitFirstAfterPrefix(p: string, c: char, t: string)
    requires c !in p
    ensures SplitFirst(p + [c] + t, c) == Some((p, t))
    decreases |p|
  {
    var s := p + [c] + t;
    if |p| == 0 {
      assert s == [c] + t;
    } else {
      assert s[0] == p[0] && p[0] != c;
      assert s[1..] == p[1..] + [c] + t;
      SplitFirstAfterPrefix(p[1..], c, t);
      assert [p[0]] + p[1..] == p;
    }
  }
}
