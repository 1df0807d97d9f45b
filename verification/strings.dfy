/** Character classes and the small string operations the URL model is
    built from: first-occurrence search, `split_once`, splitting a path on
    `/` and joining it back, trimming and ASCII lower-casing. */
module Strings {
  import opened Results

  /** A C0 control or space, the characters the URL Standard strips from
      both ends of its input. */
  predicate IsC0OrSpace(c: char) {
    c <= ' '
  }

  /** ASCII whitespace in Rust's sense (`u8::is_ascii_whitespace`): space,
      tab, line feed, form feed and carriage return. */
  predicate IsAsciiWhitespace(c: char) {
    c == ' ' || c == '\t' || c == '\n' || c == '\U{000C}' || c == '\r'
  }

  /** The characters the URL Standard removes from anywhere in its input. */
  predicate IsTabOrNewline(c: char) {
    c == '\t' || c == '\n' || c == '\r'
  }

  predicate IsAsciiAlpha(c: char) {
    ('a' <= c <= 'z') || ('A' <= c <= 'Z')
  }

  predicate IsAsciiDigit(c: char) {
    '0' <= c <= '9'
  }

  /** No C0 control and no space anywhere in `s`. */
  predicate NoCtl(s: string) {
    forall i :: 0 <= i < |s| ==> !IsC0OrSpace(s[i])
  }

  predicate StartsWith(s: string, prefix: string) {
    |prefix| <= |s| && s[..|prefix|] == prefix
  }

  /** Index of the first occurrence of `c` in `s`. */
  function FindFirst(s: string, c: char): (r: Option<nat>)
    ensures r.Some? ==> r.value < |s| && s[r.value] == c && c !in s[..r.value]
    ensures r.None? ==> c !in s
  {
    if |s| == 0 then None
    else if s[0] == c then Some(0)
    else
      match FindFirst(s[1..], c)
      case None => None
      case Some(i) =>
        assert s[..i + 1] == [s[0]] + s[1..][..i];
        Some(i + 1)
  }

  /** Rust's `str::split_once` with a single-character separator: the text
      before and after the first `c`. */
  function SplitOnce(s: string, c: char): (r: Option<(string, string)>)
    ensures r.Some? ==> s == r.value.0 + [c] + r.value.1 && c !in r.value.0
    ensures r.None? ==> c !in s
  {
    match FindFirst(s, c)
    case None => None
    case Some(i) =>
      assert s == s[..i] + [c] + s[i + 1..];
      Some((s[..i], s[i + 1..]))
  }

  /** `split_once` cuts at the first separator, whatever follows it. */
  lemma SplitOnceAt(a: string, c: char, b: string)
    requires c !in a
    ensures SplitOnce(a + [c] + b, c) == Some((a, b))
  {
    var s := a + [c] + b;
    assert s[|a|] == c;
    var r := SplitOnce(s, c);
    var x := r.value.0;
    assert x == s[..|a|] == a;
    assert r.value.1 == s[|a| + 1..] == b;
  }

  /** Joins path segments with `/`; the inverse of `Split`. */
  function JoinSegs(p: seq<string>): string
  {
    if |p| == 0 then ""
    else if |p| == 1 then p[0]
    else p[0] + "/" + JoinSegs(p[1..])
  }

  predicate NoSlashIn(p: seq<string>) {
    forall i :: 0 <= i < |p| ==> '/' !in p[i]
  }

  /** Splits `s` at every `/`, keeping empty pieces, as `str::split('/')`. */
  function Split(s: string): (r: seq<string>)
    ensures |r| >= 1
    ensures NoSlashIn(r)
    ensures JoinSegs(r) == s
  {
    if |s| == 0 then [""]
    else
      var rest := Split(s[1..]);
      if s[0] == '/' then
        assert s == "/" + s[1..];
        [""] + rest
      else
        var r := [[s[0]] + rest[0]] + rest[1..];
        PrependToFirst(s[0], rest, r);
        assert s == [s[0]] + s[1..];
        r
  }

  /** Putting a character other than `/` in front of the first piece. */
  lemma PrependToFirst(c: char, rest: seq<string>, r: seq<string>)
    requires c != '/' && |rest| >= 1 && NoSlashIn(rest)
    requires r == [[c] + rest[0]] + rest[1..]
    ensures NoSlashIn(r) && JoinSegs(r) == [c] + JoinSegs(rest)
  {
    assert r[1..] == rest[1..];
    assert |rest| > 1 ==> JoinSegs(rest) == rest[0] + "/" + JoinSegs(rest[1..]);
  }

  lemma SplitNoSlash(a: string)
    requires '/' !in a
    ensures Split(a) == [a]
  {
    var r := Split(a);
  }

  lemma {:induction false} SplitCons(a: string, b: string)
    requires '/' !in a
    ensures Split(a + "/" + b) == [a] + Split(b)
    decreases |a|
  {
    var s := a + "/" + b;
    if |a| == 0 {
      assert s[1..] == b;
    } else {
      assert s[1..] == a[1..] + "/" + b;
      SplitCons(a[1..], b);
      assert [s[0]] + a[1..] == a;
    }
  }

  /** Splitting a joined list of slash-free segments gives the segments back. */
  lemma {:induction false} SplitJoin(p: seq<string>)
    requires |p| >= 1 && NoSlashIn(p)
    ensures Split(JoinSegs(p)) == p
    decreases |p|
  {
    if |p| == 1 {
      SplitNoSlash(p[0]);
    } else {
      SplitJoin(p[1..]);
      SplitCons(p[0], JoinSegs(p[1..]));
      assert [p[0]] + p[1..] == p;
    }
  }

  /** Every character of every segment occurs in the joined text. */
  lemma {:induction false} JoinSegsChar(p: seq<string>, i: nat, j: nat)
    requires i < |p| && j < |p[i]|
    ensures p[i][j] in JoinSegs(p)
    decreases |p|
  {
    if |p| == 1 {
    } else if i == 0 {
      assert JoinSegs(p)[j] == p[0][j];
    } else {
      JoinSegsChar(p[1..], i - 1, j);
      var t := JoinSegs(p[1..]);
      var k :| 0 <= k < |t| && t[k] == p[i][j];
      assert JoinSegs(p)[|p[0]| + 1 + k] == t[k];
    }
  }

  /** A character absent from the joined text is absent from every segment. */
  lemma JoinSegsAvoids(p: seq<string>, c: char)
    requires c !in JoinSegs(p)
    ensures forall i :: 0 <= i < |p| ==> c !in p[i]
  {
    forall i | 0 <= i < |p|
      ensures c !in p[i]
    {
      if c in p[i] {
        var j :| 0 <= j < |p[i]| && p[i][j] == c;
        JoinSegsChar(p, i, j);
      }
    }
  }

  /** Joined text without controls has segments without controls. */
  lemma JoinSegsNoCtl(p: seq<string>)
    requires NoCtl(JoinSegs(p))
    ensures forall i :: 0 <= i < |p| ==> NoCtl(p[i])
  {
    forall i, j | 0 <= i < |p| && 0 <= j < |p[i]|
      ensures !IsC0OrSpace(p[i][j])
    {
      JoinSegsChar(p, i, j);
    }
  }

  /** Rust's `str::trim_ascii_start`. */
  function TrimAsciiStart(s: string): (r: string)
    ensures |r| <= |s| && r == s[|s| - |r|..]
    ensures |r| > 0 ==> !IsAsciiWhitespace(r[0])
  {
    if |s| > 0 && IsAsciiWhitespace(s[0]) then TrimAsciiStart(s[1..]) else s
  }

  /** Strips leading C0 controls and spaces. */
  function TrimC0Start(s: string): (r: string)
    ensures |r| <= |s| && r == s[|s| - |r|..]
    ensures |r| > 0 ==> !IsC0OrSpace(r[0])
  {
    if |s| > 0 && IsC0OrSpace(s[0]) then TrimC0Start(s[1..]) else s
  }

  /** Strips trailing C0 controls and spaces. */
  function TrimC0End(s: string): (r: string)
    ensures |r| <= |s| && r == s[..|r|]
    ensures |r| > 0 ==> !IsC0OrSpace(r[|r| - 1])
  {
    if |s| > 0 && IsC0OrSpace(s[|s| - 1]) then TrimC0End(s[..|s| - 1]) else s
  }

  /** What `TrimAsciiStart` removes is ASCII whitespace, and only that. */
  lemma {:induction false} TrimAsciiStartSpec(s: string)
    ensures var r := TrimAsciiStart(s);
      forall i :: 0 <= i < |s| - |r| ==> IsAsciiWhitespace(s[i])
    decreases |s|
  {
    if |s| > 0 && IsAsciiWhitespace(s[0]) {
      TrimAsciiStartSpec(s[1..]);
    }
  }

  /** What `TrimC0Start` removes is controls and spaces, and only those. */
  lemma {:induction false} TrimC0StartSpec(s: string)
    ensures var r := TrimC0Start(s);
      forall i :: 0 <= i < |s| - |r| ==> IsC0OrSpace(s[i])
    decreases |s|
  {
    if |s| > 0 && IsC0OrSpace(s[0]) {
      TrimC0StartSpec(s[1..]);
    }
  }

  /** What `TrimC0End` removes is controls and spaces, and only those. */
  lemma {:induction false} TrimC0EndSpec(s: string)
    ensures var r := TrimC0End(s);
      forall i :: |r| <= i < |s| ==> IsC0OrSpace(s[i])
    decreases |s|
  {
    if |s| > 0 && IsC0OrSpace(s[|s| - 1]) {
      TrimC0EndSpec(s[..|s| - 1]);
    }
  }

  function HexDigit(n: nat): char
    requires n < 16
  {
    "0123456789ABCDEF"[n]
  }

  /** The URL Standard's treatment of one input character: tab and newline
      vanish, other C0 controls and space are percent-encoded. */
  function EncodeChar(c: char): (r: string)
    ensures NoCtl(r)
    ensures !IsC0OrSpace(c) ==> r == [c]
  {
    if IsTabOrNewline(c) then ""
    else if IsC0OrSpace(c) then ['%', HexDigit(c as int / 16), HexDigit(c as int % 16)]
    else [c]
  }

  function Encode(s: string): (r: string)
    ensures NoCtl(r)
    ensures NoCtl(s) ==> r == s
  {
    if |s| == 0 then ""
    else
      var r := EncodeChar(s[0]) + Encode(s[1..]);
      assert NoCtl(s) ==> NoCtl(s[1..]) && s == [s[0]] + s[1..];
      r
  }

  function LowerChar(c: char): char {
    if 'A' <= c <= 'Z' then (c as int + 32) as char else c
  }

  /** ASCII lower-casing. */
  function Lower(s: string): (r: string)
    ensures |r| == |s|
    ensures forall i :: 0 <= i < |s| ==> r[i] == LowerChar(s[i])
  {
    if |s| == 0 then "" else [LowerChar(s[0])] + Lower(s[1..])
  }

  /** `split_once` with the remainder made optional: the text before the
      first `c`, and the text after it if there is one. */
  function SplitOff(s: string, c: char): (r: (string, Option<string>))
    ensures r.1.Some? ==> s == r.0 + [c] + r.1.value
    ensures r.1.None? ==> r.0 == s
    ensures c !in r.0
  {
    match SplitOnce(s, c)
    case Some(p) => (p.0, Some(p.1))
    case None => (s, None)
  }

  lemma SplitOffAt(a: string, c: char, b: string)
    requires c !in a
    ensures SplitOff(a + [c] + b, c) == (a, Some(b))
  {
    SplitOnceAt(a, c, b);
  }

  /** Text without controls or spaces passes the URL Standard's input
      clean-up unchanged. */
  lemma CleanInputUnchanged(s: string)
    requires NoCtl(s)
    ensures Encode(TrimC0End(TrimC0Start(s))) == s
  {
    var t := TrimC0Start(s);
    assert t == s;
    assert TrimC0End(t) == t;
  }

  /** A text of `n` copies of `x`. */
  function Repeat(x: string, n: nat): (r: seq<string>)
    ensures |r| == n
    ensures forall i :: 0 <= i < n ==> r[i] == x
  {
    if n == 0 then [] else [x] + Repeat(x, n - 1)
  }
}
