/** The JavaScript string operations the core relies on: `trim`,
    `startsWith`, and `Array.prototype.join` over strings. `Split` is not used
    by the core; it is the inverse against which `Join` is checked. Strings are
    sequences of Unicode scalar values. */
module Strings {

  /** ECMAScript WhiteSpace and LineTerminator code points, the set that
      `String.prototype.trim` removes from both ends. */
  predicate IsJsWhitespace(c: char) {
    c == '\t' || c == '\n' || c == '\U{000B}' || c == '\U{000C}' || c == '\r' ||
    c == ' ' || c == '\U{00A0}' || c == '\U{1680}' ||
    ('\U{2000}' <= c <= '\U{200A}') ||
    c == '\U{2028}' || c == '\U{2029}' || c == '\U{202F}' || c == '\U{205F}' ||
    c == '\U{3000}' || c == '\U{FEFF}'
  }

  predicate AllWhitespace(s: string) {
    forall i :: 0 <= i < |s| ==> IsJsWhitespace(s[i])
  }

  /** `s` with its leading whitespace removed. */
  function TrimStart(s: string): (r: string)
    ensures |r| <= |s| && r == s[|s| - |r|..]
    ensures AllWhitespace(s[..|s| - |r|])
    ensures r == [] || !IsJsWhitespace(r[0])
  {
    if |s| > 0 && IsJsWhitespace(s[0]) then
      var r := TrimStart(s[1..]);
      assert s[..|s| - |r|] == [s[0]] + s[1..][..|s| - 1 - |r|];
      r
    else s
  }

  /** `s` with its trailing whitespace removed. */
  function TrimEnd(s: string): (r: string)
    ensures |r| <= |s| && r == s[..|r|]
    ensures AllWhitespace(s[|r|..])
    ensures r == [] || !IsJsWhitespace(r[|r| - 1])
  {
    if |s| > 0 && IsJsWhitespace(s[|s| - 1]) then
      var r := TrimEnd(s[..|s| - 1]);
      assert s[|r|..] == s[..|s| - 1][|r|..] + [s[|s| - 1]];
      r
    else s
  }

  /** `String.prototype.trim`: a slice of `s` that neither starts nor ends
      with whitespace, everything around it being whitespace. */
  function Trim(s: string): (r: string)
    ensures exists i :: TrimmedAt(s, r, i)
    ensures r == [] || (!IsJsWhitespace(r[0]) && !IsJsWhitespace(r[|r| - 1]))
  {
    var t := TrimStart(s);
    var r := TrimEnd(t);
    TrimEndSlice(s, t, r);
    r
  }

  /** `r` stands in `s` at `i`, with only whitespace before and after it. */
  predicate TrimmedAt(s: string, r: string, i: int) {
    0 <= i && i + |r| <= |s| && s[i..i + |r|] == r &&
    AllWhitespace(s[..i]) && AllWhitespace(s[i + |r|..])
  }

  lemma TrimEndSlice(s: string, t: string, r: string)
    requires |t| <= |s| && t == s[|s| - |t|..] && AllWhitespace(s[..|s| - |t|])
    requires |r| <= |t| && r == t[..|r|] && AllWhitespace(t[|r|..])
    ensures TrimmedAt(s, r, |s| - |t|)
  {
    var i := |s| - |t|;
    assert s[i..i + |r|] == t[..|r|];
    assert s[i + |r|..] == t[|r|..];
  }

  /** `!s.trim()`: the string is empty once trimmed, which is exactly when
      every character of it is whitespace. */
  function IsBlank(s: string): (blank: bool)
    ensures blank <==> AllWhitespace(s)
  {
    TrimEmptyIffAllWhitespace(s);
    Trim(s) == ""
  }

  lemma TrimEmptyIffAllWhitespace(s: string)
    ensures Trim(s) == "" <==> AllWhitespace(s)
  {
    var t := TrimStart(s);
    if !AllWhitespace(s) {
      var i :| 0 <= i < |s| && !IsJsWhitespace(s[i]);
      assert t[i - (|s| - |t|)] == s[i];
    }
  }

  /** `s.startsWith(prefix)`. */
  predicate StartsWith(s: string, prefix: string) {
    |prefix| <= |s| && s[..|prefix|] == prefix
  }

  /** `parts.join(sep)`: nothing for no parts, and otherwise a string that
      starts with the first part. */
  function Join(parts: seq<string>, sep: string): (r: string)
    ensures |parts| == 0 ==> r == ""
    ensures |parts| > 0 ==> StartsWith(r, parts[0])
  {
    if |parts| == 0 then ""
    else if |parts| == 1 then parts[0]
    else parts[0] + sep + Join(parts[1..], sep)
  }

  /** Joining one more part adds the separator and that part at the end. */
  lemma {:induction false} JoinAppend(parts: seq<string>, last: string, sep: string)
    requires |parts| > 0
    ensures Join(parts + [last], sep) == Join(parts, sep) + sep + last
  {
    if |parts| == 1 {
      assert parts + [last] == [parts[0], last];
    } else {
      assert (parts + [last])[1..] == parts[1..] + [last];
      JoinAppend(parts[1..], last, sep);
    }
  }

  /** Where part `i` starts in `Join(parts, sep)`. */
  function JoinOffset(parts: seq<string>, sep: string, i: nat): nat
    requires i <= |parts|
  {
    if i == 0 then 0 else JoinOffset(parts, sep, i - 1) + |parts[i - 1]| + |sep|
  }

  lemma {:induction false} JoinOffsetTail(parts: seq<string>, sep: string, i: nat)
    requires 1 <= i <= |parts|
    ensures JoinOffset(parts, sep, i) == |parts[0]| + |sep| + JoinOffset(parts[1..], sep, i - 1)
  {
    if i > 1 {
      JoinOffsetTail(parts, sep, i - 1);
    }
  }

  /** The joined string holds every part, in order, at its offset; the
      last part ends the string. */
  lemma {:induction false} JoinPartAt(parts: seq<string>, sep: string, i: nat)
    requires i < |parts|
    ensures JoinOffset(parts, sep, i) + |parts[i]| <= |Join(parts, sep)|
    ensures Join(parts, sep)[JoinOffset(parts, sep, i)..JoinOffset(parts, sep, i) + |parts[i]|] == parts[i]
    ensures i + 1 == |parts| ==> JoinOffset(parts, sep, i) + |parts[i]| == |Join(parts, sep)|
  {
    if |parts| > 1 {
      var tail := parts[1..];
      var prefix := parts[0] + sep;
      assert Join(parts, sep) == prefix + Join(tail, sep);
      if i == 0 {
        assert Join(parts, sep)[..|parts[0]|] == parts[0];
      } else {
        JoinPartAt(tail, sep, i - 1);
        JoinOffsetTail(parts, sep, i);
        assert tail[i - 1] == parts[i];
        var o := JoinOffset(tail, sep, i - 1);
        SliceAfter(prefix, Join(tail, sep), o, o + |parts[i]|);
      }
    }
  }

  /** Between consecutive parts of the joined string there is exactly `sep`. */
  lemma {:induction false} JoinSeparatorAt(parts: seq<string>, sep: string, i: nat)
    requires i + 1 < |parts|
    ensures JoinOffset(parts, sep, i) + |parts[i]| <= JoinOffset(parts, sep, i + 1) <= |Join(parts, sep)|
    ensures Join(parts, sep)[JoinOffset(parts, sep, i) + |parts[i]|..JoinOffset(parts, sep, i + 1)] == sep
  {
    if i == 0 {
      var prefix := parts[0] + sep;
      assert Join(parts, sep) == prefix + Join(parts[1..], sep);
      SliceBefore(prefix, Join(parts[1..], sep), |parts[0]|, |prefix|);
      assert prefix[|parts[0]|..] == sep;
    } else {
      JoinSeparatorAt(parts[1..], sep, i - 1);
      JoinSeparatorShift(parts, sep, i);
    }
  }

  /** The separator after part `i` of the tail's join is the separator after
      part `i + 1` of the whole join. */
  lemma JoinSeparatorShift(parts: seq<string>, sep: string, i: nat)
    requires 0 < i && i + 1 < |parts|
    requires var tail := parts[1..];
      JoinOffset(tail, sep, i - 1) + |tail[i - 1]| <= JoinOffset(tail, sep, i) <= |Join(tail, sep)| &&
      Join(tail, sep)[JoinOffset(tail, sep, i - 1) + |tail[i - 1]|..JoinOffset(tail, sep, i)] == sep
    ensures JoinOffset(parts, sep, i) + |parts[i]| <= JoinOffset(parts, sep, i + 1) <= |Join(parts, sep)|
    ensures Join(parts, sep)[JoinOffset(parts, sep, i) + |parts[i]|..JoinOffset(parts, sep, i + 1)] == sep
  {
    var tail := parts[1..];
    var prefix := parts[0] + sep;
    assert Join(parts, sep) == prefix + Join(tail, sep);
    JoinOffsetTail(parts, sep, i);
    JoinOffsetTail(parts, sep, i + 1);
    assert tail[i - 1] == parts[i];
    var a := JoinOffset(tail, sep, i - 1) + |parts[i]|;
    var b := JoinOffset(tail, sep, i);
    SliceAfter(prefix, Join(tail, sep), a, b);
  }

  lemma SliceBefore(prefix: string, t: string, x: nat, y: nat)
    requires x <= y <= |prefix|
    ensures (prefix + t)[x..y] == prefix[x..y]
  {
  }

  lemma SliceAfter(prefix: string, t: string, x: nat, y: nat)
    requires x <= y <= |t|
    ensures (prefix + t)[|prefix| + x..|prefix| + y] == t[x..y]
  {
  }

  /** `s.split(c)` for a one-character separator. */
  function Split(s: string, c: char): (r: seq<string>)
    ensures |r| > 0
  {
    if |s| == 0 then [""]
    else
      var rest := Split(s[1..], c);
      if s[0] == c then [""] + rest
      else [[s[0]] + rest[0]] + rest[1..]
  }

  lemma {:induction false} SplitWithout(p: string, c: char)
    requires c !in p
    ensures Split(p, c) == [p]
  {
    if |p| > 0 {
      assert c !in p[1..];
      SplitWithout(p[1..], c);
      assert [p[0]] + p[1..] == p;
    }
  }

  lemma {:induction false} SplitAfter(p: string, c: char, t: string)
    requires c !in p
    ensures Split(p + [c] + t, c) == [p] + Split(t, c)
  {
    if |p| == 0 {
      assert p + [c] + t == [c] + t;
      assert ([c] + t)[1..] == t;
    } else {
      assert (p + [c] + t)[1..] == p[1..] + [c] + t;
      assert c !in p[1..];
      SplitAfter(p[1..], c, t);
      assert [p[0]] + p[1..] == p;
    }
  }

  /** Splitting a join on a separator character that no part contains gives
      the parts back. */
  lemma {:induction false} SplitJoin(parts: seq<string>, c: char)
    requires |parts| > 0
    requires forall i :: 0 <= i < |parts| ==> c !in parts[i]
    ensures Split(Join(parts, [c]), c) == parts
  {
    if |parts| == 1 {
      SplitWithout(parts[0], c);
    } else {
      SplitJoin(parts[1..], c);
      SplitAfter(parts[0], c, Join(parts[1..], [c]));
      assert parts == [parts[0]] + parts[1..];
    }
  }
}
