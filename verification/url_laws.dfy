/** Laws of the URL model: what parsing guarantees of its output, how dot
    removal composes, and the inverse law of relativisation
    (`base.join(relative(base, u)) == u`). */
module UrlLaws {
  import opened Results
  import opened Strings
  import opened Urls

  // ---------------------------------------------------------------------
  // Parsing texts assembled from clean parts

  lemma JoinSegsPathChars(p: seq<string>)
    requires forall x :: x in p ==> PathChars(x)
    ensures PathChars(JoinSegs(p))
    decreases |p|
  {
    if |p| > 1 {
      JoinSegsPathChars(p[1..]);
      var t := JoinSegs(p[1..]);
      assert p[0] in p;
      assert JoinSegs(p) == p[0] + "/" + t;
    } else if |p| == 1 {
      assert p[0] in p;
    }
  }

  /** Clean text passes the input clean-up unchanged. */
  lemma ParseReferenceOfClean(t: string)
    requires NoCtl(t)
    ensures ParseReference(t) == Decompose(t)
  {
    CleanInputUnchanged(t);
  }

  /** Decomposition of a text whose fragment and query cuts are known and
      whose remaining path has neither a scheme nor an authority. */
  lemma DecomposeRelative(t: string, pq: string, path: string, q: Option<string>, f: Option<string>)
    requires SplitOff(t, '#') == (pq, f)
    requires SplitOff(pq, '?') == (path, q)
    requires SchemeEnd(path).None? && !StartsWith(path, "//")
    ensures Decompose(t) == Reference(None, None, path, q, f)
  {
  }

  lemma CutFragment(pq: string, f: Option<string>)
    requires '#' !in pq
    ensures SplitOff(pq + FragmentString(f), '#') == (pq, f)
  {
    if f.Some? {
      assert pq + FragmentString(f) == pq + ['#'] + f.value;
      SplitOffAt(pq, '#', f.value);
    } else {
      assert pq + FragmentString(f) == pq;
    }
  }

  lemma CutQuery(path: string, q: Option<string>)
    requires '?' !in path
    ensures SplitOff(path + QueryString(q), '?') == (path, q)
  {
    if q.Some? {
      assert path + QueryString(q) == path + ['?'] + q.value;
      SplitOffAt(path, '?', q.value);
    } else {
      assert path + QueryString(q) == path;
    }
  }

  /** A text made of a path part, an optional query and an optional
      fragment, none of which holds a control, a space or a delimiter it
      should not, is read back as exactly those parts. */
  lemma ParseRelativeText(path: string, q: Option<string>, f: Option<string>)
    requires PathChars(path) && SchemeEnd(path).None? && !StartsWith(path, "//")
    requires q.Some? ==> QueryChars(q.value)
    requires f.Some? ==> NoCtl(f.value)
    ensures ParseReference(path + QueryString(q) + FragmentString(f)) == Reference(None, None, path, q, f)
  {
    var pq := path + QueryString(q);
    var t := pq + FragmentString(f);
    assert NoCtl(pq);
    assert NoCtl(t);
    assert '#' !in pq;
    CutFragment(pq, f);
    CutQuery(path, q);
    DecomposeRelative(t, pq, path, q, f);
    ParseReferenceOfClean(t);
  }

  /** The scan for a scheme stops at the first `:` after scheme characters. */
  lemma {:induction false} ScanSchemeChars(t: string, i: nat, n: nat)
    requires 1 <= i <= n < |t| && t[n] == ':'
    requires forall j :: i <= j < n ==> IsSchemeChar(t[j])
    ensures ScanScheme(t, i) == Some(n)
    decreases n - i
  {
    if i < n {
      ScanSchemeChars(t, i + 1, n);
    }
  }

  lemma SplitOffAbsent(s: string, c: char)
    requires c !in s
    ensures SplitOff(s, c) == (s, None)
  {
  }

  /** Lower-casing a lower-case scheme changes nothing. */
  lemma LowerValidScheme(s: string)
    requires ValidScheme(s)
    ensures Lower(s) == s
  {
    var l := Lower(s);
    assert forall i :: 0 <= i < |s| ==> l[i] == s[i];
  }

  /** Text that begins with scheme characters and a `:` is read as that
      scheme followed by an opaque or relative path, whatever the scheme is:
      a path piece such as `a:b` is a URL of scheme `a`. */
  lemma ParseSchemeText(scheme: string, rest: string)
    requires ValidScheme(scheme) && PathChars(rest) && (rest == "" || rest[0] != '/')
    ensures ParseReference(scheme + ":" + rest) == Reference(Some(scheme), None, rest, None, None)
  {
    var t := scheme + ":" + rest;
    SchemeTextFacts(scheme, rest, t);
    ParseReferenceOfClean(t);
    DecomposeUndelimited(t);
    ScanSchemeChars(t, 1, |scheme|);
    LowerValidScheme(scheme);
    SchemeTextSplit(t, scheme, rest);
  }

  /** Joining such text replaces the base altogether: unless the scheme is
      `file`, the result is a cannot-be-a-base URL of that scheme. */
  lemma JoinSchemeText(b: Url, scheme: string, rest: string)
    requires ValidScheme(scheme) && scheme != FileScheme
    requires PathChars(rest) && (rest == "" || rest[0] != '/')
    ensures Join(b, scheme + ":" + rest) == Ok(Url(scheme, None, Opaque(rest), None, None))
  {
    var text := scheme + ":" + rest;
    var r := Reference(Some(scheme), None, rest, None, None);
    ParseSchemeText(scheme, rest);
    JoinOf(b, text, r);
    ResolveSchemeText(b, scheme, rest, r);
  }

  /** `JoinSchemeText` for a text already put together. */
  lemma JoinSchemeTextOf(o: Url, scheme: string, rest: string, s: string)
    requires ValidScheme(scheme) && scheme != FileScheme
    requires PathChars(rest) && (rest == "" || rest[0] != '/')
    requires s == scheme + ":" + rest
    ensures Join(o, s) == Ok(Url(scheme, None, Opaque(rest), None, None))
  {
    JoinSchemeText(o, scheme, rest);
  }

  /** A relative path without query or fragment parses as itself. */
  lemma RelativeTextOf(t: string)
    requires PathChars(t) && SchemeEnd(t).None? && !StartsWith(t, "//")
    ensures ParseReference(t) == Reference(None, None, t, None, None)
  {
    ParseRelativeText(t, None, None);
    assert t + QueryString(None) + FragmentString(None) == t;
  }

  lemma ResolveSchemeText(b: Url, scheme: string, rest: string, r: Reference)
    requires scheme != FileScheme && (rest == "" || rest[0] != '/')
    requires r == Reference(Some(scheme), None, rest, None, None)
    ensures Resolve(Some(b), r) == Ok(Url(scheme, None, Opaque(rest), None, None))
  {
  }

  lemma SchemeTextFacts(scheme: string, rest: string, t: string)
    requires ValidScheme(scheme) && PathChars(rest) && t == scheme + ":" + rest
    ensures PathChars(t) && IsAsciiAlpha(t[0])
    ensures t[|scheme|] == ':' && t[..|scheme|] == scheme && t[|scheme| + 1..] == rest
    ensures forall j :: 1 <= j < |scheme| ==> IsSchemeChar(t[j])
  {
    var n := |scheme|;
    assert forall j :: 0 <= j < n ==> t[j] == scheme[j];
    assert forall j :: n < j < |t| ==> t[j] == rest[j - n - 1];
  }

  /** Text without `#` and `?` is all scheme, authority and path. */
  lemma DecomposeUndelimited(t: string)
    requires '#' !in t && '?' !in t
    ensures Decompose(t) == SplitScheme(t, None, None)
  {
    SplitOffAbsent(t, '#');
    SplitOffAbsent(t, '?');
  }

  lemma SchemeTextSplit(t: string, scheme: string, rest: string)
    requires |scheme| < |t| && SchemeEnd(t) == Some(|scheme|)
    requires t[..|scheme|] == scheme && t[|scheme| + 1..] == rest && Lower(scheme) == scheme
    requires rest == "" || rest[0] != '/'
    ensures SplitScheme(t, None, None) == Reference(Some(scheme), None, rest, None, None)
  {
  }

  /** Whatever the clean-up keeps at the front, text whose first character
      after the leading controls and spaces is `/` has no scheme. */
  lemma LeadingSlashNoScheme(text: string)
    requires TrimC0Start(text) != "" && TrimC0Start(text)[0] == '/'
    ensures ParseReference(text).scheme.None?
  {
    var t := TrimC0Start(text);
    var u := TrimC0End(t);
    assert u != "" && u[0] == '/' by {
      TrimC0EndSpec(t);
      assert !IsC0OrSpace(t[0]);
    }
    var e := Encode(u);
    EncodeFirst(u);
    DecomposeLeadingSlash(e);
  }

  lemma EncodeFirst(u: string)
    requires u != "" && !IsC0OrSpace(u[0])
    ensures Encode(u) != "" && Encode(u)[0] == u[0]
  {
    assert EncodeChar(u[0]) == [u[0]];
  }

  lemma DecomposeLeadingSlash(e: string)
    requires e != "" && e[0] == '/'
    ensures Decompose(e).scheme.None?
  {
    var f := SplitOff(e, '#');
    assert f.0 != "" && f.0[0] == '/' by {
      if f.1.Some? { assert e == f.0 + ['#'] + f.1.value; }
    }
    var q := SplitOff(f.0, '?');
    assert q.0 != "" && q.0[0] == '/' by {
      if q.1.Some? { assert f.0 == q.0 + ['?'] + q.1.value; }
    }
    assert SchemeEnd(q.0).None?;
  }

  /** Leading ASCII whitespace is part of what the clean-up strips: text
      that starts with `/` once its leading ASCII whitespace is gone also
      starts with `/` once its leading controls and spaces are gone. */
  lemma {:induction false} TrimmedSlash(text: string)
    requires TrimAsciiStart(text) != "" && TrimAsciiStart(text)[0] == '/'
    ensures TrimC0Start(text) == TrimAsciiStart(text)
    decreases |text|
  {
    if |text| > 0 && IsAsciiWhitespace(text[0]) {
      TrimmedSlash(text[1..]);
    }
  }

  /** What resolution keeps: the reference's fragment always; for a
      reference without scheme and authority on a hierarchical base, success
      and the base's scheme and host. */
  lemma ResolveShape(base: Option<Url>, r: Reference)
    ensures Resolve(base, r).Ok? ==> Resolve(base, r).value.fragment == r.fragment
    ensures r.scheme.None? && r.authority.None? && base.Some? && base.value.path.Hier?
            ==> var u := Resolve(base, r);
                u.Ok? && u.value.scheme == base.value.scheme && u.value.host == base.value.host && u.value.path.Hier?
  {
  }

  /** `Url::parse` fails for want of a base exactly when the text has no
      scheme, and otherwise keeps the (lower-cased) scheme it read. */
  lemma ParseShape(text: string)
    ensures Parse(text) == Err(RelativeUrlWithoutBase) <==> ParseReference(text).scheme.None?
    ensures Parse(text).Ok? ==> Parse(text).value.scheme == ParseReference(text).scheme.value
  {
    var r := ParseReference(text);
    assert Parse(text) == Resolve(None, r);
    ResolveWithoutBase(r);
  }

  lemma ResolveWithoutBase(r: Reference)
    ensures Resolve(None, r) == Err(RelativeUrlWithoutBase) <==> r.scheme.None?
    ensures Resolve(None, r).Ok? ==> Resolve(None, r).value.scheme == r.scheme.value
  {
  }

  /** Joining text without scheme and authority onto a hierarchical base
      succeeds and stays on the base's scheme and host. */
  lemma JoinShape(base: Url, text: string)
    ensures Join(base, text).Ok? ==> Join(base, text).value.fragment == ParseReference(text).fragment
    ensures ParseReference(text).scheme.None? && ParseReference(text).authority.None? && base.path.Hier?
            ==> var u := Join(base, text);
                u.Ok? && u.value.scheme == base.scheme && u.value.host == base.host && u.value.path.Hier?
  {
    JoinOf(base, text, ParseReference(text));
    ResolveShape(Some(base), ParseReference(text));
  }

  /** Joining `/` goes to the root of a hierarchical base and drops its
      query and fragment; a cannot-be-a-base URL refuses it. */
  lemma JoinRoot(b: Url)
    ensures Join(b, "/") == if b.path.Hier? then Ok(Url(b.scheme, b.host, Hier([""]), None, None))
                            else Err(RelativeUrlWithCannotBeABaseBase)
  {
    var r := Reference(None, None, "/", None, None);
    SlashText();
    JoinOf(b, "/", r);
    ResolveRoot(b, r);
  }

  lemma SlashText()
    ensures ParseReference("/") == Reference(None, None, "/", None, None)
  {
    assert "/" + QueryString(None) + FragmentString(None) == "/";
    ParseRelativeText("/", None, None);
  }

  lemma ResolveRoot(b: Url, r: Reference)
    requires r == Reference(None, None, "/", None, None)
    ensures Resolve(Some(b), r) == if b.path.Hier? then Ok(Url(b.scheme, b.host, Hier([""]), None, None))
                                   else Err(RelativeUrlWithCannotBeABaseBase)
  {
    assert AbsolutePath("/") == [""] by {
      assert "/"[1..] == "";
    }
  }

  /** `Join` is resolution of the parsed reference. */
  lemma JoinOf(b: Url, text: string, r: Reference)
    requires ParseReference(text) == r
    ensures Join(b, text) == Resolve(Some(b), r)
  {
  }

  /** Joining a text whose reference has a relative, non-empty path. */
  lemma JoinRelativePath(b: Url, text: string, r: Reference)
    requires ParseReference(text) == r
    requires b.path.Hier? && r.scheme.None? && r.authority.None?
    requires |r.path| > 0 && r.path[0] != '/'
    ensures Join(b, text)
         == Ok(Url(b.scheme, b.host, Hier(RemoveDots(Dir(b.path.segments) + Split(r.path))), r.query, r.fragment))
  {
    JoinOf(b, text, r);
    ResolveRelativePath(b, r);
  }

  /** Resolution of a reference with a relative, non-empty path. */
  lemma ResolveRelativePath(b: Url, r: Reference)
    requires b.path.Hier? && r.scheme.None? && r.authority.None?
    requires |r.path| > 0 && r.path[0] != '/'
    ensures Resolve(Some(b), r)
         == Ok(Url(b.scheme, b.host, Hier(RemoveDots(Dir(b.path.segments) + Split(r.path))), r.query, r.fragment))
  {
  }

  /** Resolution of a reference with an empty path. */
  lemma ResolveEmptyPath(b: Url, r: Reference)
    requires b.path.Hier? && r.scheme.None? && r.authority.None? && r.path == ""
    ensures Resolve(Some(b), r)
         == Ok(Url(b.scheme, b.host, b.path, if r.query.Some? then r.query else b.query, r.fragment))
  {
  }

  // ---------------------------------------------------------------------
  // Dot removal

  predicate NoDots(p: seq<string>) {
    forall x :: x in p ==> !IsDot(x)
  }

  /** Segments that are not dots are copied through. */
  lemma {:induction false} WalkClean(acc: seq<string>, s: seq<string>, t: seq<string>)
    requires NoDots(s)
    ensures Walk(acc, s + t) == Walk(acc + s, t)
    decreases |s|
  {
    if |s| > 0 {
      assert s[0] in s;
      assert (s + t)[0] == s[0];
      assert (s + t)[1..] == s[1..] + t;
      WalkClean(acc + [s[0]], s[1..], t);
      assert acc + [s[0]] + s[1..] == acc + s;
    } else {
      assert s + t == t;
      assert acc + s == acc;
    }
  }

  /** A `.` that is not last is skipped. */
  lemma WalkDot(acc: seq<string>, t: seq<string>)
    requires |t| >= 1
    ensures Walk(acc, ["."] + t) == Walk(acc, t)
  {
    var rest := ["."] + t;
    assert rest[0] == "." && rest[1..] == t && |rest| > 1;
    assert acc + [] == acc;
  }

  /** `m` copies of `..` that are not last drop `m` accumulated segments. */
  lemma {:induction false} WalkUps(acc: seq<string>, m: nat, t: seq<string>)
    requires m <= |acc| && |t| >= 1
    ensures Walk(acc, Repeat("..", m) + t) == Walk(acc[..|acc| - m], t)
    decreases m
  {
    if m == 0 {
      assert Repeat("..", 0) + t == t;
      assert acc[..|acc|] == acc;
    } else {
      var rest := Repeat("..", m) + t;
      assert rest[0] == "..";
      assert rest[1..] == Repeat("..", m - 1) + t;
      assert |rest| > 1;
      assert Walk(acc, rest) == Walk(acc[..|acc| - 1] + [], rest[1..]);
      assert acc[..|acc| - 1] + [] == acc[..|acc| - 1];
      WalkUps(acc[..|acc| - 1], m - 1, t);
      assert acc[..|acc| - 1][..|acc| - 1 - (m - 1)] == acc[..|acc| - m];
    }
  }

  /** Dot removal yields valid segments when fed clean ones. */
  lemma {:induction false} WalkValid(acc: seq<string>, rest: seq<string>)
    requires forall x :: x in acc ==> ValidSegment(x)
    requires forall x :: x in rest ==> SegmentChars(x)
    ensures forall x :: x in Walk(acc, rest) ==> ValidSegment(x)
    decreases |rest|
  {
    if |rest| > 0 {
      assert rest[0] in rest;
      var tail: seq<string> := if |rest| == 1 then [""] else [];
      assert forall x :: x in tail ==> ValidSegment(x);
      assert forall x :: x in rest[1..] ==> x in rest;
      if rest[0] == ".." {
        var a := if |acc| > 0 then acc[..|acc| - 1] else acc;
        assert forall x :: x in a ==> x in acc;
        WalkValid(a + tail, rest[1..]);
      } else if rest[0] == "." {
        WalkValid(acc + tail, rest[1..]);
      } else {
        WalkValid(acc + [rest[0]], rest[1..]);
      }
    }
  }

  lemma SplitSegmentChars(p: string)
    requires PathChars(p)
    ensures forall x :: x in Split(p) ==> SegmentChars(x)
  {
    var r := Split(p);
    JoinSegsAvoids(r, '?');
    JoinSegsAvoids(r, '#');
    JoinSegsNoCtl(r);
  }

  lemma AbsolutePathValid(p: string)
    requires PathChars(p)
    ensures ValidSegments(AbsolutePath(p))
  {
    if |p| > 0 {
      var s := if p[0] == '/' then p[1..] else p;
      assert PathChars(s);
      SplitSegmentChars(s);
      WalkValid([], Split(s));
    }
  }

  // ---------------------------------------------------------------------
  // Joining the texts relativisation produces

  /** Joining `./` followed by clean pieces walks the base directory, then
      the pieces. */
  lemma JoinDotSlash(b: Url, pieces: seq<string>, q: Option<string>, f: Option<string>)
    requires b.path.Hier? && |pieces| >= 1
    requires forall x :: x in pieces ==> SegmentChars(x)
    requires q.Some? ==> QueryChars(q.value)
    requires f.Some? ==> NoCtl(f.value)
    ensures Join(b, "./" + JoinSegs(pieces) + QueryString(q) + FragmentString(f))
         == Ok(Url(b.scheme, b.host, Hier(RemoveDots(Dir(b.path.segments) + ["."] + pieces)), q, f))
  {
    var p := "./" + JoinSegs(pieces);
    DotSlashClean(pieces);
    DotSlashSplit(pieces);
    ParseRelativeText(p, q, f);
    JoinDotSlashText(b, pieces, q, f, p, p + QueryString(q) + FragmentString(f));
  }

  lemma JoinDotSlashText(b: Url, pieces: seq<string>, q: Option<string>, f: Option<string>, p: string, text: string)
    requires b.path.Hier? && |pieces| >= 1
    requires |p| > 0 && p[0] == '.' && Split(p) == ["."] + pieces
    requires ParseReference(text) == Reference(None, None, p, q, f)
    ensures Join(b, text) == Ok(Url(b.scheme, b.host, Hier(RemoveDots(Dir(b.path.segments) + ["."] + pieces)), q, f))
  {
    JoinRelativePath(b, text, Reference(None, None, p, q, f));
    ConcatAssoc(Dir(b.path.segments), ["."], pieces);
  }

  lemma ConcatAssoc(a: seq<string>, b: seq<string>, c: seq<string>)
    ensures a + (b + c) == a + b + c
  {
  }

  /** The path text `./p1/.../pn` is clean and has no scheme or authority. */
  lemma DotSlashClean(pieces: seq<string>)
    requires |pieces| >= 1
    requires forall x :: x in pieces ==> SegmentChars(x)
    ensures var p := "./" + JoinSegs(pieces); PathChars(p) && SchemeEnd(p).None? && !StartsWith(p, "//")
  {
    JoinSegsPathChars(pieces);
    var j := JoinSegs(pieces);
    DotSlashText(j);
    DotSlashTextClean(j);
  }

  lemma DotSlashTextClean(j: string)
    requires PathChars(j)
    ensures var p := "." + "/" + j; PathChars(p) && SchemeEnd(p).None? && !StartsWith(p, "//")
  {
    var p := "." + "/" + j;
    assert p[0] == '.' && p[1] == '/';
    assert forall i :: 2 <= i < |p| ==> p[i] == j[i - 2];
  }

  /** The path text `./p1/.../pn` splits back into `.` and the pieces. */
  lemma DotSlashSplit(pieces: seq<string>)
    requires |pieces| >= 1
    requires forall x :: x in pieces ==> SegmentChars(x)
    ensures Split("./" + JoinSegs(pieces)) == ["."] + pieces
  {
    SegmentsNoSlash(pieces);
    var j := JoinSegs(pieces);
    DotSlashText(j);
    SplitDotSlash(pieces, j);
  }

  lemma DotSlashText(j: string)
    ensures "./" + j == "." + "/" + j
  {
  }

  lemma SplitDotSlash(pieces: seq<string>, j: string)
    requires |pieces| >= 1 && NoSlashIn(pieces) && j == JoinSegs(pieces)
    ensures Split("." + "/" + j) == ["."] + pieces
  {
    SplitCons(".", j);
    SplitJoin(pieces);
  }

  lemma SegmentsNoSlash(pieces: seq<string>)
    requires forall x :: x in pieces ==> SegmentChars(x)
    ensures NoSlashIn(pieces)
  {
    forall i | 0 <= i < |pieces| ensures '/' !in pieces[i] {
      assert pieces[i] in pieces;
    }
  }

  /** Joining a text with an empty path keeps the base path, and the base
      query unless the text brings its own. */
  lemma JoinEmptyPath(b: Url, q: Option<string>, f: Option<string>)
    requires b.path.Hier?
    requires q.Some? ==> QueryChars(q.value)
    requires f.Some? ==> NoCtl(f.value)
    ensures Join(b, QueryString(q) + FragmentString(f))
         == Ok(Url(b.scheme, b.host, b.path, if q.Some? then q else b.query, f))
  {
    var text := QueryString(q) + FragmentString(f);
    var r := Reference(None, None, "", q, f);
    assert "" + QueryString(q) + FragmentString(f) == text;
    ParseRelativeText("", q, f);
    JoinOf(b, text, r);
    ResolveEmptyPath(b, r);
  }

  lemma ValidDir(segs: seq<string>)
    requires ValidSegments(segs)
    ensures NoDots(Dir(segs)) && forall x :: x in Dir(segs) ==> ValidSegment(x)
    ensures ValidSegment(Last(segs))
  {
    assert forall x :: x in Dir(segs) ==> x in segs;
    assert Last(segs) in segs;
  }

  /** The pieces of a relativisation between well-formed URLs are clean segments. */
  lemma RelativePiecesClean(base: Url, u: Url)
    requires ValidUrl(base) && ValidUrl(u) && base.path.Hier? && u.path.Hier?
    ensures |RelativePieces(base, u)| >= 1
    ensures forall x :: x in RelativePieces(base, u) ==> SegmentChars(x)
  {
    var us := u.path.segments;
    ValidDir(us);
    var bd := DirPieces(base);
    var ud := DirPieces(u);
    var k := CommonPrefix(bd, ud);
    var m := |bd| - k;
    var uf := Last(us);
    var pieces := RelativePieces(base, u);
    assert pieces == Repeat("..", m) + (ud[k..] + [uf]);
    forall x | x in pieces ensures SegmentChars(x) {
      if x in Repeat("..", m) {
        var i :| 0 <= i < m && Repeat("..", m)[i] == x;
      } else if x in ud[k..] {
        var i :| 0 <= i < |ud[k..]| && ud[k..][i] == x;
        assert k >= 1 || i >= 1;
        assert x in ud;
        assert x == "" || x in Dir(us);
      } else {
        assert x == uf;
      }
    }
  }

  /** Dot removal over a clean directory, `.`, `m` ups and clean segments
      keeps all but the last `m` directories, then the segments. */
  lemma WalkRelative(db: seq<string>, m: nat, rest: seq<string>)
    requires NoDots(db) && NoDots(rest) && |rest| >= 1 && m <= |db|
    ensures RemoveDots(db + ["."] + (Repeat("..", m) + rest)) == db[..|db| - m] + rest
  {
    var pieces := Repeat("..", m) + rest;
    assert db + ["."] + pieces == db + (["."] + pieces);
    WalkClean([], db, ["."] + pieces);
    assert [] + db == db;
    WalkDot(db, pieces);
    WalkUps(db, m, rest);
    WalkClean(db[..|db| - m], rest, []);
    assert rest + [] == rest;
  }

  /** Dot removal over the base directory, `.` and the relative pieces
      lands on the target path. */
  lemma RelativePiecesWalk(base: Url, u: Url)
    requires ValidUrl(base) && ValidUrl(u) && base.path.Hier? && u.path.Hier?
    ensures RemoveDots(Dir(base.path.segments) + ["."] + RelativePieces(base, u)) == u.path.segments
  {
    var bs := base.path.segments;
    var us := u.path.segments;
    ValidDir(bs);
    ValidDir(us);
    var bd := DirPieces(base);
    var ud := DirPieces(u);
    var k := CommonPrefix(bd, ud);
    assert k >= 1 by {
      assert bd[0] == ud[0];
    }
    var m := |bd| - k;
    var uf := Last(us);
    var rest := ud[k..] + [uf];
    assert RelativePieces(base, u) == Repeat("..", m) + rest;
    var db := Dir(bs);
    assert db[..|db| - m] == ud[1..k] by {
      assert db == bd[1..];
      assert bd[..k] == ud[..k];
    }
    TailNoDots(Dir(us), k, uf);
    WalkRelative(db, m, rest);
    assert ud[1..k] + rest == Dir(us) + [uf];
  }

  /** What follows the common prefix of a directory list is free of dots
      when the directories and the last segment are. */
  lemma TailNoDots(d: seq<string>, k: nat, uf: string)
    requires NoDots(d) && !IsDot(uf) && 1 <= k <= |d| + 1
    ensures NoDots(([""] + d)[k..] + [uf])
  {
    assert ([""] + d)[k..] == d[k - 1..];
    forall x | x in d[k - 1..] + [uf] ensures !IsDot(x) {
      if x in d[k - 1..] {
        assert x in d;
      }
    }
  }

  /** rust-url's `make_relative` from a root `/` to a one-segment path
      gives the segment alone, whatever characters it holds. */
  lemma MakeRelativeFromRoot(root: Url, u: Url, s: string)
    requires root.path == Hier([""]) && u.path == Hier([s]) && s != ""
    requires root.scheme == u.scheme && root.host == u.host
    requires u.query.None? && u.fragment.None?
    ensures MakeRelative(root, u) == Some(s)
  {
    assert DirPieces(root) == [""] && DirPieces(u) == [""];
    assert CommonPrefix([""], [""]) == 1;
    var bd := DirPieces(root);
    var k := CommonPrefix(bd, DirPieces(u));
    assert k == 1;
    assert Repeat("..", CountUntilEmpty(bd[k..])) + DirPieces(u)[k..] == [];
    assert Accumulate("", []) == "";
    assert Last(root.path.segments) == "" && Last(u.path.segments) == s;
    assert Push("", s) == s;
    assert s + QueryString(None) + FragmentString(None) == s;
  }

  /** The inverse law of relativisation: joining the relative text
      `MakeRelativeFixed(base, u)` onto `base` gives back `u`, for any two
      well-formed hierarchical URLs with the same scheme and host. */
  lemma MakeRelativeFixedInverse(base: Url, u: Url)
    requires ValidUrl(base) && ValidUrl(u)
    requires base.path.Hier? && u.path.Hier?
    requires base.scheme == u.scheme && base.host == u.host
    ensures MakeRelativeFixed(base, u).Some?
    ensures Join(base, MakeRelativeFixed(base, u).value) == Ok(u)
  {
    var text := MakeRelativeFixed(base, u).value;
    if SameResource(base, u) {
      assert text == QueryString(u.query) + FragmentString(u.fragment);
      JoinEmptyPath(base, u.query, u.fragment);
    } else {
      var pieces := RelativePieces(base, u);
      assert text == "./" + JoinSegs(pieces) + QueryString(u.query) + FragmentString(u.fragment);
      RelativePiecesClean(base, u);
      JoinDotSlash(base, pieces, u.query, u.fragment);
      RelativePiecesWalk(base, u);
    }
  }

  /** Under the descendant restriction, `strictly_relative_to` is a left
      inverse of `join`. */
  lemma StrictlyRelativeToInverse(u: Url, prefix: Url)
    requires ValidUrl(u) && ValidUrl(prefix) && IsUnder(u, prefix)
    ensures StrictlyRelativeTo(u, prefix).Some?
    ensures Join(prefix, StrictlyRelativeTo(u, prefix).value) == Ok(u)
  {
    MakeRelativeFixedInverse(prefix, u);
  }

  /** `u` moved from under `from` to under `to`: the part of its path below
      the directory of `from` is put below the directory of `to`. When `u`
      is `from` itself, the result is `to` with `u`'s query and fragment. */
  function Rebase(u: Url, from: Url, to: Url): Url
    requires IsUnder(u, from) && to.path.Hier?
  {
    if SameResource(from, u) then
      Url(to.scheme, to.host, to.path, if u.query.Some? then u.query else to.query, u.fragment)
    else
      Url(to.scheme, to.host,
          Hier(Dir(to.path.segments) + u.path.segments[|Dir(from.path.segments)|..]),
          u.query, u.fragment)
  }

  /** Relativising against one prefix and joining onto another moves the
      URL from one subtree to the other. */
  lemma RebaseJoin(u: Url, from: Url, to: Url)
    requires ValidUrl(u) && ValidUrl(from) && ValidUrl(to) && to.path.Hier?
    requires IsUnder(u, from)
    ensures StrictlyRelativeTo(u, from).Some?
    ensures Join(to, StrictlyRelativeTo(u, from).value) == Ok(Rebase(u, from, to))
  {
    var text := StrictlyRelativeTo(u, from).value;
    if SameResource(from, u) {
      assert text == QueryString(u.query) + FragmentString(u.fragment);
      JoinEmptyPath(to, u.query, u.fragment);
    } else {
      var pieces := RelativePieces(from, u);
      assert text == "./" + JoinSegs(pieces) + QueryString(u.query) + FragmentString(u.fragment);
      RelativePiecesClean(from, u);
      JoinDotSlash(to, pieces, u.query, u.fragment);
      RebaseWalk(u, from, to);
    }
  }

  /** A rebased URL lies under its new prefix. */
  lemma RebaseUnder(u: Url, from: Url, to: Url)
    requires IsUnder(u, from) && to.path.Hier? && |u.path.segments| >= 1
    ensures IsUnder(Rebase(u, from, to), to)
  {
    var r := Rebase(u, from, to);
    if !SameResource(from, u) {
      var dt := Dir(to.path.segments);
      var rest := u.path.segments[|Dir(from.path.segments)|..];
      assert |rest| >= 1 by {
        assert |Dir(from.path.segments)| <= |Dir(u.path.segments)| < |u.path.segments|;
      }
      assert Dir(dt + rest) == dt + Dir(rest);
      assert (dt + Dir(rest))[..|dt|] == dt;
    }
  }

  /** A directory URL without a query: what a mapping side normally is. */
  predicate DirectoryUrl(u: Url) {
    u.path.Hier? && |u.path.segments| >= 1 && Last(u.path.segments) == "" && u.query.None?
  }

  lemma DirLast(segs: seq<string>)
    requires |segs| >= 1
    ensures segs == Dir(segs) + [Last(segs)]
  {
  }

  /** Moving a URL from one directory to another and back gives it back. */
  lemma RebaseBack(u: Url, from: Url, to: Url)
    requires IsUnder(u, from) && DirectoryUrl(from) && DirectoryUrl(to) && |u.path.segments| >= 1
    ensures IsUnder(Rebase(u, from, to), to)
    ensures Rebase(Rebase(u, from, to), to, from) == u
  {
    RebaseUnder(u, from, to);
    if !SameResource(from, u) {
      var df := Dir(from.path.segments);
      var dt := Dir(to.path.segments);
      var us := u.path.segments;
      DirLast(from.path.segments);
      DirLast(to.path.segments);
      DirLast(us);
      RebaseBackPath(us, df, dt, us[|df|..]);
    }
  }

  /** The path step of `RebaseBack`: the part below the directory is kept,
      and is not the bare directory. */
  lemma RebaseBackPath(us: seq<string>, df: seq<string>, dt: seq<string>, rest: seq<string>)
    requires |us| >= 1 && us == Dir(us) + [Last(us)] && IsPrefix(df, Dir(us))
    requires us != df + [""] && rest == us[|df|..]
    ensures us == df + rest && dt + rest != dt + [""] && (dt + rest)[|dt|..] == rest
  {
    assert us[..|df|] == df;
    assert us == us[..|df|] + rest;
    assert rest != [""];
    assert (dt + rest)[|dt|..] == rest;
    assert (dt + [""])[|dt|..] == [""];
  }

  lemma RebaseWalk(u: Url, from: Url, to: Url)
    requires ValidUrl(u) && ValidUrl(to) && to.path.Hier? && IsUnder(u, from)
    ensures RemoveDots(Dir(to.path.segments) + ["."] + RelativePieces(from, u))
         == Dir(to.path.segments) + u.path.segments[|Dir(from.path.segments)|..]
  {
    DescendantPieces(u, from);
    ValidDir(to.path.segments);
    WalkDescend(Dir(to.path.segments), RelativePieces(from, u));
  }

  /** Dot removal over a clean directory, `.` and clean segments drops the `.`. */
  lemma WalkDescend(db: seq<string>, rest: seq<string>)
    requires NoDots(db) && NoDots(rest) && |rest| >= 1
    ensures RemoveDots(db + ["."] + rest) == db + rest
  {
    assert Repeat("..", 0) + rest == rest;
    WalkRelative(db, 0, rest);
    assert db[..|db| - 0] == db;
  }

  /** For a URL under `prefix`, the relative pieces are the segments of the
      URL below the directory of `prefix`, with no `..`. */
  lemma DescendantPieces(u: Url, prefix: Url)
    requires ValidUrl(u) && IsUnder(u, prefix)
    ensures RelativePieces(prefix, u) == u.path.segments[|Dir(prefix.path.segments)|..]
    ensures NoDots(RelativePieces(prefix, u)) && |RelativePieces(prefix, u)| >= 1
  {
    var fs := prefix.path.segments;
    var us := u.path.segments;
    ValidDir(us);
    var bd := DirPieces(prefix);
    var ud := DirPieces(u);
    var k := CommonPrefix(bd, ud);
    assert IsPrefix(bd, ud);
    assert k == |bd|;
    var pieces := RelativePieces(prefix, u);
    var n := |Dir(fs)|;
    assert Repeat("..", 0) == [];
    assert ud[k..] == Dir(us)[n..];
    assert us == Dir(us) + [Last(us)];
    assert pieces == us[n..];
    forall x | x in pieces ensures !IsDot(x) {
      var i :| 0 <= i < |pieces| && pieces[i] == x;
      assert x == us[n + i];
      assert us[n + i] in us;
    }
  }

  // ---------------------------------------------------------------------
  // Parsing yields well-formed URLs

  /** What the decomposition guarantees of each component. */
  predicate CleanReference(r: Reference) {
    && (r.scheme.Some? ==> ValidScheme(r.scheme.value))
    && (r.authority.Some? ==> SegmentChars(r.authority.value))
    && PathChars(r.path)
    && (r.query.Some? ==> QueryChars(r.query.value))
    && (r.fragment.Some? ==> NoCtl(r.fragment.value))
  }

  lemma LowerScheme(s: string, n: nat)
    requires 1 <= n <= |s| && IsAsciiAlpha(s[0])
    requires forall j :: 1 <= j < n ==> IsSchemeChar(s[j])
    ensures ValidScheme(Lower(s[..n]))
  {
    var l := Lower(s[..n]);
    forall i | 0 <= i < n ensures IsSchemeChar(l[i]) && !('A' <= l[i] <= 'Z') {
      assert l[i] == LowerChar(s[i]);
    }
  }

  lemma NoCtlParts(a: string, b: string)
    requires NoCtl(a + b)
    ensures NoCtl(a) && NoCtl(b)
  {
    assert forall i :: 0 <= i < |a| ==> a[i] == (a + b)[i];
    assert forall i :: 0 <= i < |b| ==> b[i] == (a + b)[|a| + i];
  }

  lemma SplitOffClean(s: string, c: char)
    requires NoCtl(s)
    ensures NoCtl(SplitOff(s, c).0) && c !in SplitOff(s, c).0
    ensures SplitOff(s, c).1.Some? ==> NoCtl(SplitOff(s, c).1.value)
  {
    var r := SplitOff(s, c);
    if r.1.Some? {
      NoCtlParts(r.0 + [c], r.1.value);
      NoCtlParts(r.0, [c]);
    }
  }

  lemma HierarchyClean(scheme: Option<string>, hier: string, q: Option<string>, f: Option<string>)
    requires PathChars(hier)
    ensures var r := Hierarchy(scheme, hier, q, f);
      PathChars(r.path) && (r.authority.Some? ==> SegmentChars(r.authority.value))
  {
    var r := Hierarchy(scheme, hier, q, f);
    if r.authority.Some? {
      NoCtlParts("//" + r.authority.value, r.path);
      NoCtlParts("//", r.authority.value);
      assert forall c :: c in r.authority.value ==> c in hier;
      assert forall c :: c in r.path ==> c in hier;
    }
  }

  lemma DecomposeClean(s: string)
    requires NoCtl(s)
    ensures CleanReference(Decompose(s))
  {
    var f := SplitOff(s, '#');
    var q := SplitOff(f.0, '?');
    FrontClean(s, f, q);
    SplitSchemeClean(q.0, q.1, f.1);
  }

  /** Cutting fragment and query off clean text leaves clean parts. */
  lemma FrontClean(s: string, f: (string, Option<string>), q: (string, Option<string>))
    requires NoCtl(s) && f == SplitOff(s, '#') && q == SplitOff(f.0, '?')
    ensures PathChars(q.0)
    ensures q.1.Some? ==> QueryChars(q.1.value)
    ensures f.1.Some? ==> NoCtl(f.1.value)
  {
    SplitOffClean(s, '#');
    SplitOffClean(f.0, '?');
    if q.1.Some? {
      assert forall c :: c in q.1.value ==> c in f.0;
    }
    assert forall c :: c in q.0 ==> c in f.0;
  }

  lemma SplitSchemeClean(body: string, q: Option<string>, f: Option<string>)
    requires PathChars(body)
    requires q.Some? ==> QueryChars(q.value)
    requires f.Some? ==> NoCtl(f.value)
    ensures CleanReference(SplitScheme(body, q, f))
  {
    var colon := SchemeEnd(body);
    if colon.Some? {
      LowerScheme(body, colon.value);
      NoCtlParts(body[..colon.value + 1], body[colon.value + 1..]);
      assert body == body[..colon.value + 1] + body[colon.value + 1..];
    }
    var hier := if colon.Some? then body[colon.value + 1..] else body;
    assert forall c :: c in hier ==> c in body;
    var scheme := if colon.Some? then Some(Lower(body[..colon.value])) else None;
    HierarchyClean(scheme, hier, q, f);
  }

  lemma ParseReferenceClean(text: string)
    ensures CleanReference(ParseReference(text))
  {
    DecomposeClean(Encode(TrimC0End(TrimC0Start(text))));
  }

  lemma ResolveValid(base: Option<Url>, r: Reference)
    requires CleanReference(r)
    requires base.Some? ==> ValidUrl(base.value)
    requires Resolve(base, r).Ok?
    ensures ValidUrl(Resolve(base, r).value)
  {
    AbsolutePathValid(r.path);
    if r.scheme.None? && base.Some? && base.value.path.Hier? && r.authority.None? && r.path != "" && r.path[0] != '/' {
      var segs := base.value.path.segments;
      ValidDir(segs);
      SplitSegmentChars(r.path);
      var all := Dir(segs) + Split(r.path);
      assert forall x :: x in all ==> SegmentChars(x);
      WalkValid([], all);
    }
  }

  /** Whatever `Url::parse` accepts is well-formed. */
  lemma ParseValid(text: string)
    requires Parse(text).Ok?
    ensures ValidUrl(Parse(text).value)
  {
    ParseReferenceClean(text);
    ResolveValid(None, ParseReference(text));
  }

  /** Joining onto a well-formed base yields a well-formed URL. */
  lemma JoinValid(base: Url, text: string)
    requires ValidUrl(base) && Join(base, text).Ok?
    ensures ValidUrl(Join(base, text).value)
  {
    ParseReferenceClean(text);
    ResolveValid(Some(base), ParseReference(text));
  }

  // ---------------------------------------------------------------------
  // Relative texts without the `./` prefix

  /** A path that rust-url's `make_relative` writes back faithfully from the
      root: the root `/` alone, or a path whose first segment is not empty
      and holds no `:`, so that its text is read neither as a scheme nor as
      an authority. */
  predicate PlainPath(segs: seq<string>) {
    segs == [""] || (|segs| >= 1 && segs[0] != "" && ':' !in segs[0])
  }

  /** The scan for a scheme stops without one at a `/` or at the end when
      no `:` comes first. */
  lemma {:induction false} ScanSchemeStops(t: string, i: nat, n: nat)
    requires 1 <= i <= n <= |t| && (n == |t| || t[n] == '/')
    requires forall j :: i <= j < n ==> t[j] != ':'
    ensures ScanScheme(t, i).None?
    decreases n - i
  {
    if i < n && IsSchemeChar(t[i]) {
      ScanSchemeStops(t, i + 1, n);
    }
  }

  /** Joined segments begin with the first one, then `/` or nothing. */
  lemma JoinSegsHead(p: seq<string>)
    requires |p| >= 1
    ensures |JoinSegs(p)| >= |p[0]| && JoinSegs(p)[..|p[0]|] == p[0]
    ensures |JoinSegs(p)| == |p[0]| || JoinSegs(p)[|p[0]|] == '/'
  {
    if |p| > 1 {
      assert JoinSegs(p) == p[0] + "/" + JoinSegs(p[1..]);
    }
  }

  /** The text of a path with a plain first segment has no scheme and no
      authority. */
  lemma PlainText(pieces: seq<string>)
    requires PlainPath(pieces) && pieces != [""]
    requires forall x :: x in pieces ==> SegmentChars(x)
    ensures var p := JoinSegs(pieces); PathChars(p) && SchemeEnd(p).None? && !StartsWith(p, "//")
    ensures |JoinSegs(pieces)| > 0 && JoinSegs(pieces)[0] != '/'
  {
    var p := JoinSegs(pieces);
    var n := |pieces[0]|;
    JoinSegsPathChars(pieces);
    JoinSegsHead(pieces);
    assert pieces[0] in pieces;
    assert p[0] == pieces[0][0];
    forall j | 1 <= j < n
      ensures p[j] != ':'
    {
      assert p[j] == p[..n][j] == pieces[0][j];
    }
    if IsAsciiAlpha(p[0]) {
      ScanSchemeStops(p, 1, n);
    }
  }

  /** Joining clean segments whose first one is plain, without `./` in
      front, walks the base directory and then the segments. */
  lemma JoinPlain(b: Url, pieces: seq<string>, q: Option<string>, f: Option<string>)
    requires b.path.Hier? && PlainPath(pieces) && pieces != [""]
    requires forall x :: x in pieces ==> SegmentChars(x)
    requires q.Some? ==> QueryChars(q.value)
    requires f.Some? ==> NoCtl(f.value)
    ensures Join(b, JoinSegs(pieces) + QueryString(q) + FragmentString(f))
         == Ok(Url(b.scheme, b.host, Hier(RemoveDots(Dir(b.path.segments) + pieces)), q, f))
  {
    var p := JoinSegs(pieces);
    PlainText(pieces);
    SegmentsNoSlash(pieces);
    SplitJoin(pieces);
    ParseRelativeText(p, q, f);
    JoinRelativePath(b, p + QueryString(q) + FragmentString(f), Reference(None, None, p, q, f));
  }

  /** A `.` between a clean directory and further segments is dropped by
      dot removal. */
  lemma DotDropped(d: seq<string>, pieces: seq<string>)
    requires NoDots(d) && |pieces| >= 1
    ensures RemoveDots(d + ["."] + pieces) == RemoveDots(d + pieces)
  {
    assert d + ["."] + pieces == d + (["."] + pieces);
    WalkClean([], d, ["."] + pieces);
    WalkClean([], d, pieces);
    WalkDot([] + d, pieces);
  }

  /** Accumulating onto a nonempty text joins the pieces with `/`. */
  lemma {:induction false} AccumulateJoins(acc: string, ps: seq<string>)
    requires acc != ""
    ensures Accumulate(acc, ps) == if |ps| == 0 then acc else acc + "/" + JoinSegs(ps)
    decreases |ps|
  {
    if |ps| > 0 {
      var next := Push(acc, ps[0]);
      assert next == acc + "/" + ps[0];
      AccumulateJoins(next, ps[1..]);
      if |ps| > 1 {
        assert JoinSegs(ps) == ps[0] + "/" + JoinSegs(ps[1..]);
      }
    }
  }

  /** The directory joined, a `/`, and the file name: the whole path. */
  lemma {:induction false} JoinSegsSnoc(s: seq<string>)
    requires |s| >= 2
    ensures JoinSegs(Dir(s)) + "/" + Last(s) == JoinSegs(s)
    decreases |s|
  {
    if |s| > 2 {
      JoinSegsSnoc(s[1..]);
      assert Dir(s) == [s[0]] + Dir(s[1..]);
      assert Dir(s)[1..] == Dir(s[1..]);
      assert Last(s[1..]) == Last(s);
    } else {
      assert Dir(s) == [s[0]];
    }
  }

  /** rust-url's `make_relative` from a root `/` to a plain path gives the
      path without its leading `/`, then the query and the fragment. */
  lemma MakeRelativeFromPlainRoot(root: Url, u: Url)
    requires root.path == Hier([""]) && u.path.Hier? && PlainPath(u.path.segments)
    requires root.scheme == u.scheme && root.host == u.host
    ensures MakeRelative(root, u) == Some(JoinSegs(u.path.segments) + QueryString(u.query) + FragmentString(u.fragment))
  {
    var us := u.path.segments;
    var bd := DirPieces(root);
    var ud := DirPieces(u);
    assert bd == [""] && ud[0] == "";
    var k := CommonPrefix(bd, ud);
    assert k == 1;
    assert bd[k..] == [];
    assert Repeat("..", CountUntilEmpty(bd[k..])) + ud[k..] == Dir(us);
    var uf := Last(us);
    if |us| == 1 {
      assert Dir(us) == [];
      assert Accumulate("", []) == "";
      assert Push("", uf) == uf == us[0];
    } else {
      var d := Dir(us);
      assert d[0] == us[0];
      AccumulateJoins(us[0], d[1..]);
      assert Accumulate("", d) == Accumulate(us[0], d[1..]);
      if |d| > 1 {
        assert JoinSegs(d) == d[0] + "/" + JoinSegs(d[1..]);
      }
      assert Accumulate("", d) == JoinSegs(d);
      JoinSegsHead(d);
      assert JoinSegs(d) != "";
      assert (if uf == "" then JoinSegs(d) + "/" else Push(JoinSegs(d), uf)) == JoinSegs(d) + "/" + uf;
      JoinSegsSnoc(us);
    }
  }

  /** The corrected relativisation from a root `/` writes `./` and the path
      without its leading `/`, or nothing for the root itself. */
  lemma MakeRelativeFixedFromRoot(root: Url, u: Url)
    requires root.path == Hier([""]) && root.query.None? && u.path.Hier? && |u.path.segments| >= 1
    requires root.scheme == u.scheme && root.host == u.host
    ensures MakeRelativeFixed(root, u)
         == Some((if u.path.segments == [""] then "" else "./" + JoinSegs(u.path.segments))
                 + QueryString(u.query) + FragmentString(u.fragment))
  {
    var us := u.path.segments;
    if us != [""] {
      assert !SameResource(root, u);
      assert DirPieces(root) == [""];
      assert CommonPrefix(DirPieces(root), DirPieces(u)) == 1;
      assert Dir(us) + [Last(us)] == us;
      assert RelativePieces(root, u) == us;
    }
  }

  /** Joining the two relativisations of a plain path from a root leads to
      the same URL from any well-formed hierarchical base. */
  lemma PlainTextsAgree(b: Url, segs: seq<string>, q: Option<string>, f: Option<string>)
    requires ValidUrl(b) && b.path.Hier? && PlainPath(segs)
    requires forall x :: x in segs ==> SegmentChars(x)
    requires q.Some? ==> QueryChars(q.value)
    requires f.Some? ==> NoCtl(f.value)
    ensures Join(b, JoinSegs(segs) + QueryString(q) + FragmentString(f))
         == Join(b, (if segs == [""] then "" else "./" + JoinSegs(segs)) + QueryString(q) + FragmentString(f))
  {
    if segs != [""] {
      JoinPlain(b, segs, q, f);
      JoinDotSlash(b, segs, q, f);
      ValidDir(b.path.segments);
      DotDropped(Dir(b.path.segments), segs);
    }
  }

  // ---------------------------------------------------------------------
  // Text with a scheme

  /** Text with a scheme joins as it parses, whatever the base. */
  lemma JoinWithScheme(b: Url, text: string)
    requires ParseReference(text).scheme.Some?
    ensures Join(b, text) == Parse(text)
  {
    var r := ParseReference(text);
    assert Join(b, text) == Resolve(Some(b), r);
    assert Parse(text) == Resolve(None, r);
  }

  /** Text with a scheme fails on its own only for an empty host. */
  lemma SchemeTextErrors(text: string)
    ensures ParseReference(text).scheme.Some? && Parse(text).Err? ==> Parse(text).error == EmptyHost
  {
    var r := ParseReference(text);
    assert Parse(text) == Resolve(None, r);
  }

  /** A scheme followed by `//` and nothing else reads as that scheme with
      an empty authority and an empty path. */
  lemma SchemeSlashesText(scheme: string)
    requires ValidScheme(scheme)
    ensures ParseReference(scheme + "://") == Reference(Some(scheme), Some(""), "", None, None)
  {
    var t := scheme + ":" + "//";
    assert scheme + "://" == t;
    assert PathChars("//");
    SchemeTextFacts(scheme, "//", t);
    ParseReferenceOfClean(t);
    DecomposeUndelimited(t);
    ScanSchemeChars(t, 1, |scheme|);
    LowerValidScheme(scheme);
    SchemeHierSplit(t, scheme, "//");
    EmptyAuthority(Some(scheme));
  }

  lemma SchemeHierSplit(t: string, scheme: string, rest: string)
    requires |scheme| < |t| && SchemeEnd(t) == Some(|scheme|)
    requires t[..|scheme|] == scheme && t[|scheme| + 1..] == rest && Lower(scheme) == scheme
    ensures SplitScheme(t, None, None) == Hierarchy(Some(scheme), rest, None, None)
  {
  }

  lemma EmptyAuthority(scheme: Option<string>)
    ensures Hierarchy(scheme, "//", None, None) == Reference(scheme, Some(""), "", None, None)
  {
    var r := Hierarchy(scheme, "//", None, None);
    assert StartsWith("//", "//");
    assert |r.authority.value| + |r.path| == 0;
  }

  /** A special scheme other than `file` followed by `//` and nothing else
      has a scheme and still does not parse: the host is empty. */
  lemma EmptyHostText(scheme: string)
    requires ValidScheme(scheme) && IsSpecial(scheme) && scheme != FileScheme
    ensures ParseReference(scheme + "://").scheme == Some(scheme)
    ensures Parse(scheme + "://") == Err(EmptyHost)
  {
    SchemeSlashesText(scheme);
  }

  /** `http://` is one such text. */
  lemma EmptyHostExample()
    ensures ParseReference("http://").scheme == Some("http")
    ensures Parse("http://") == Err(EmptyHost)
  {
    var s := "http";
    assert s + "://" == "http://" by {
      assert |s + "://"| == 7;
      assert forall i | 0 <= i < 7 :: (s + "://")[i] == "http://"[i];
    }
    assert ValidScheme(s) && IsSpecial(s);
    EmptyHostText(s);
  }
}
