/** The URL helpers of `utils/url.rs`: the GET-parameter and fragment
    splitter, and `apply_rooted_base_url`, which resolves a chain of
    subpaths and confines the result of a `file:` base to that base's
    directory by resolving against a sentinel root first. */
module UrlUtils {
  import opened Results
  import opened Strings
  import opened Urls
  import opened UrlLaws

  // ---------------------------------------------------------------------
  // remove_get_params_and_separate_fragment

  /** The text before the first `#`, cut again at its first `?`, and the
      text after the first `#`, if any: the path part is the longest prefix
      free of `#` and `?`, and the fragment is absent exactly when there is
      no `#`. */
  function RemoveGetParamsAndSeparateFragment(url: string): (r: (string, Option<string>))
    ensures '#' !in r.0 && '?' !in r.0
    ensures |r.0| <= |url| && r.0 == url[..|r.0|]
    ensures |r.0| == |url| || url[|r.0|] == '#' || url[|r.0|] == '?'
    ensures r.1.None? <==> '#' !in url
    ensures r.1.Some? ==> var i := |url| - |r.1.value| - 1;
      0 <= i && url[i] == '#' && '#' !in url[..i] && r.1.value == url[i + 1..]
  {
    var f := SplitOff(url, '#');
    var p := SplitOff(f.0, '?');
    FragmentCutAt(url, f);
    PathCutAt(url, f.0, p);
    (p.0, f.1)
  }

  /** Where the first `#` cut leaves the fragment. */
  lemma FragmentCutAt(url: string, f: (string, Option<string>))
    requires f == SplitOff(url, '#')
    ensures |f.0| <= |url| && f.0 == url[..|f.0|]
    ensures |f.0| == |url| || url[|f.0|] == '#'
    ensures f.1.None? <==> '#' !in url
    ensures f.1.Some? ==> var i := |url| - |f.1.value| - 1;
      0 <= i && url[i] == '#' && '#' !in url[..i] && f.1.value == url[i + 1..]
  {
    if f.1.Some? {
      assert url[|f.0|] == '#' && url[..|f.0|] == f.0 && f.1.value == url[|f.0| + 1..];
    }
  }

  /** The `?` cut of the part before `#` is a prefix of the whole text. */
  lemma PathCutAt(url: string, pq: string, p: (string, Option<string>))
    requires |pq| <= |url| && pq == url[..|pq|] && (|pq| == |url| || url[|pq|] == '#')
    requires p == SplitOff(pq, '?')
    ensures |p.0| <= |url| && p.0 == url[..|p.0|]
    ensures |p.0| == |url| || url[|p.0|] == '#' || url[|p.0|] == '?'
  {
    if p.1.Some? {
      assert pq[|p.0|] == '?' && pq[..|p.0|] == p.0;
    }
  }

  /** The splitter in terms of its two cuts. */
  lemma RemoveGetParamsCuts(url: string, pq: string, f: Option<string>, path: string, params: Option<string>)
    requires SplitOff(url, '#') == (pq, f) && SplitOff(pq, '?') == (path, params)
    ensures RemoveGetParamsAndSeparateFragment(url) == (path, f)
  {
  }

  /** A `?` inside the fragment stays there: only the part before `#` loses
      its parameters. */
  lemma QueryAfterFragmentKept(path: string, params: Option<string>, fragment: string)
    requires '#' !in path && '?' !in path
    requires params.Some? ==> '#' !in params.value
    ensures RemoveGetParamsAndSeparateFragment(path + QueryString(params) + "#" + fragment) == (path, Some(fragment))
  {
    var pq := path + QueryString(params);
    CutQuery(path, params);
    NoHashBeforeFragment(path, params);
    FragmentCut(pq, fragment);
    RemoveGetParamsCuts(pq + "#" + fragment, pq, Some(fragment), path, params);
  }

  lemma FragmentCut(pq: string, fragment: string)
    requires '#' !in pq
    ensures SplitOff(pq + "#" + fragment, '#') == (pq, Some(fragment))
  {
    SplitOffAt(pq, '#', fragment);
  }

  lemma NoHashBeforeFragment(path: string, params: Option<string>)
    requires '#' !in path
    requires params.Some? ==> '#' !in params.value
    ensures '#' !in path + QueryString(params)
  {
  }

  /** Without a fragment, everything from the first `?` on is dropped, even
      when more `?` follow. */
  lemma ParamsDropped(path: string, params: Option<string>)
    requires '#' !in path && '?' !in path
    requires params.Some? ==> '#' !in params.value
    ensures RemoveGetParamsAndSeparateFragment(path + QueryString(params)) == (path, None)
  {
    CutQuery(path, params);
    RemoveGetParamsCuts(path + QueryString(params), path + QueryString(params), None, path, params);
  }

  // ---------------------------------------------------------------------
  // apply_rooted_base_url

  /** The reserved host of the confined join. */
  const SentinelHost: string := "secret-lychee-base-url.invalid"

  /** The root `/` of `base`'s scheme on the sentinel host. */
  function SentinelRoot(base: Url): Url {
    Url(base.scheme, Some(SentinelHost), Hier([""]), None, None)
  }

  /** `base.join("/")` with its host replaced by the sentinel. */
  function FakeRoot(base: Url): (r: Result<Url, ParseError>)
    ensures r.Ok? <==> base.path.Hier?
    ensures r.Ok? ==> r.value == SentinelRoot(base)
  {
    JoinRoot(base);
    var root :- Join(base, "/");
    SetHost(root, SentinelHost)
  }

  /** Joins each subpath in turn onto the URL so far; the first failure ends
      the chain. */
  function JoinAll(url: Url, subpaths: seq<string>): Result<Url, ParseError>
    decreases |subpaths|
  {
    if |subpaths| == 0 then Ok(url)
    else
      var next :- Join(url, subpaths[0]);
      JoinAll(next, subpaths[1..])
  }

  /** `apply_rooted_base_url` as written: a `file:` base is replaced by its
      sentinel root for the chain of joins, and the result, relativised to
      that root with rust-url's `make_relative`, is joined back onto the real
      base; a result on another scheme or host is returned as it is. Other
      bases fold the joins directly. */
  function ApplyRootedBaseUrlAsWritten(base: Url, subpaths: seq<string>): Result<Url, ParseError>
  {
    if base.scheme == FileScheme then
      var fake :- FakeRoot(base);
      var url :- JoinAll(fake, subpaths);
      match MakeRelative(fake, url)
      case Some(rel) => Join(base, rel)
      case None => Ok(url)
    else
      JoinAll(base, subpaths)
  }

  /** `apply_rooted_base_url` with the relativisation that cannot be reread
      as a scheme (`MakeRelativeFixed`); the model of lychee's `join_rooted`. */
  function ApplyRootedBaseUrl(base: Url, subpaths: seq<string>): Result<Url, ParseError>
  {
    if base.scheme == FileScheme then
      var fake :- FakeRoot(base);
      var url :- JoinAll(fake, subpaths);
      match MakeRelativeFixed(fake, url)
      case Some(rel) => Join(base, rel)
      case None => Ok(url)
    else
      JoinAll(base, subpaths)
  }

  /** A subpath that can neither change scheme nor host. */
  predicate StaysOnHost(text: string) {
    ParseReference(text).scheme.None? && ParseReference(text).authority.None?
  }

  /** The chain of joins is a fold: joining `a + b` is joining `a`, then `b`. */
  lemma {:induction false} JoinAllAppend(url: Url, a: seq<string>, b: seq<string>)
    ensures JoinAll(url, a + b) == match JoinAll(url, a) case Ok(v) => JoinAll(v, b) case Err(e) => Err(e)
    decreases |a|
  {
    if |a| > 0 {
      assert (a + b)[0] == a[0] && (a + b)[1..] == a[1..] + b;
      match Join(url, a[0])
      case Ok(next) => JoinAllAppend(next, a[1..], b);
      case Err(_) =>
    } else {
      assert a + b == b;
    }
  }

  /** Text with a scheme that fails to parse on its own fails the same way
      at the end of any chain that gets that far: the base does not rescue
      it. */
  lemma SchemeTextFailsChain(base: Url, subpaths: seq<string>, text: string)
    requires ParseReference(text).scheme.Some? && Parse(text).Err?
    requires ApplyRootedBaseUrl(base, subpaths).Ok?
    ensures ApplyRootedBaseUrl(base, subpaths + [text]) == Parse(text)
  {
    var start := if base.scheme == FileScheme then FakeRoot(base).value else base;
    JoinAllAppend(start, subpaths, [text]);
    var v := JoinAll(start, subpaths).value;
    JoinWithScheme(v, text);
    assert JoinAll(v, [text]) == Parse(text);
  }

  /** The first failing join decides the result; later subpaths are not
      looked at. */
  lemma FirstErrorAborts(url: Url, a: seq<string>, s: string, rest: seq<string>, v: Url, e: ParseError)
    requires JoinAll(url, a) == Ok(v) && Join(v, s) == Err(e)
    ensures JoinAll(url, a + [s] + rest) == Err(e)
  {
    var t := [s] + rest;
    assert a + [s] + rest == a + t;
    JoinAllThen(url, a, t, v);
    JoinAllHeadFails(v, t, e);
  }

  /** A chain that gets through `a` to `v` continues from `v`. */
  lemma JoinAllThen(url: Url, a: seq<string>, t: seq<string>, v: Url)
    requires JoinAll(url, a) == Ok(v)
    ensures JoinAll(url, a + t) == JoinAll(v, t)
  {
    JoinAllAppend(url, a, t);
  }

  lemma JoinAllHeadFails(v: Url, t: seq<string>, e: ParseError)
    requires |t| >= 1 && Join(v, t[0]) == Err(e)
    ensures JoinAll(v, t) == Err(e)
  {
  }

  /** Subpaths that stay on the host keep the chain on a hierarchical path
      with the starting scheme and host, and well-formed. */
  lemma {:induction false} JoinAllStays(url: Url, subpaths: seq<string>)
    requires url.path.Hier? && ValidUrl(url)
    requires forall i :: 0 <= i < |subpaths| ==> StaysOnHost(subpaths[i])
    ensures JoinAll(url, subpaths).Ok?
    ensures var v := JoinAll(url, subpaths).value;
      v.scheme == url.scheme && v.host == url.host && v.path.Hier? && ValidUrl(v)
    decreases |subpaths|
  {
    if |subpaths| > 0 {
      assert StaysOnHost(subpaths[0]);
      var next := Join(url, subpaths[0]);
      JoinShape(url, subpaths[0]);
      JoinValid(url, subpaths[0]);
      assert forall i :: 0 <= i < |subpaths[1..]| ==> StaysOnHost(subpaths[1..][i]) by {
        forall i | 0 <= i < |subpaths[1..]| ensures StaysOnHost(subpaths[1..][i]) {
          assert subpaths[1..][i] == subpaths[i + 1];
        }
      }
      JoinAllStays(next.value, subpaths[1..]);
    }
  }

  lemma SentinelHostClean()
    ensures SegmentChars(SentinelHost)
  {
    assert forall i :: 0 <= i < |SentinelHost| ==> 'a' <= SentinelHost[i] <= 'z' || SentinelHost[i] == '-' || SentinelHost[i] == '.';
  }

  /** The sentinel root of a well-formed base is well-formed. */
  lemma FakeRootValid(base: Url)
    requires ValidUrl(base) && base.path.Hier?
    ensures FakeRoot(base).Ok? && ValidUrl(FakeRoot(base).value)
  {
    SentinelHostClean();
    assert ValidSegments([""]) by {
      assert forall x :: x in [""] ==> x == "";
    }
  }

  /** Confinement: on a well-formed `file:` base, subpaths that stay on the
      host resolve to a URL under the base's directory, on the base's scheme
      and host: the path the chain reaches from the root `/` is placed below
      the base's directory. */
  lemma Confinement(base: Url, subpaths: seq<string>)
    requires ValidUrl(base) && base.path.Hier? && base.scheme == FileScheme
    requires forall i :: 0 <= i < |subpaths| ==> StaysOnHost(subpaths[i])
    ensures JoinAll(SentinelRoot(base), subpaths).Ok?
    ensures IsUnder(JoinAll(SentinelRoot(base), subpaths).value, SentinelRoot(base))
    ensures ApplyRootedBaseUrl(base, subpaths)
         == Ok(Rebase(JoinAll(SentinelRoot(base), subpaths).value, SentinelRoot(base), base))
    ensures var r := ApplyRootedBaseUrl(base, subpaths).value;
      IsUnder(r, base) && r.scheme == base.scheme && r.host == base.host
  {
    FakeRootValid(base);
    var fake := SentinelRoot(base);
    JoinAllStays(fake, subpaths);
    var v := JoinAll(fake, subpaths).value;
    assert IsUnder(v, fake) by {
      assert Dir(fake.path.segments) == [];
    }
    assert StrictlyRelativeTo(v, fake) == MakeRelativeFixed(fake, v);
    RebaseJoin(v, fake, base);
    RebaseUnder(v, fake, base);
  }

  /** On a base other than `file:` the subpaths are joined from left to
      right: no subpath joins onto the base, one joins like `Url::join`, and
      a longer list continues from the result of its first part. */
  lemma NonFileFold(base: Url, a: seq<string>, b: seq<string>)
    requires base.scheme != FileScheme
    ensures ApplyRootedBaseUrl(base, []) == Ok(base)
    ensures |a| == 1 ==> ApplyRootedBaseUrl(base, a) == Join(base, a[0])
    ensures ApplyRootedBaseUrl(base, a).Ok? ==>
      ApplyRootedBaseUrl(base, a + b) == JoinAll(ApplyRootedBaseUrl(base, a).value, b)
    ensures ApplyRootedBaseUrl(base, a).Err? ==> ApplyRootedBaseUrl(base, a + b) == ApplyRootedBaseUrl(base, a)
  {
    JoinAllAppend(base, a, b);
    if |a| == 1 {
      match Join(base, a[0])
      case Ok(next) => assert JoinAll(next, a[1..]) == Ok(next);
      case Err(_) =>
    }
  }

  /** On a `file:` base, a chain of joins that leaves the sentinel root's
      scheme or host, or reaches a URL that cannot be a base, is returned as
      it is, in both versions. */
  lemma EscapeKept(base: Url, subpaths: seq<string>, escaped: Url)
    requires base.scheme == FileScheme && base.path.Hier?
    requires JoinAll(SentinelRoot(base), subpaths) == Ok(escaped)
    requires escaped.scheme != base.scheme || escaped.host != Some(SentinelHost) || escaped.CannotBeABase()
    ensures ApplyRootedBaseUrl(base, subpaths) == Ok(escaped)
    ensures ApplyRootedBaseUrlAsWritten(base, subpaths) == Ok(escaped)
  {
    assert MakeRelative(SentinelRoot(base), escaped).None?;
    assert MakeRelativeFixed(SentinelRoot(base), escaped).None?;
  }

  /** The chain of joins from a well-formed URL stays well-formed. */
  lemma {:induction false} JoinAllValid(url: Url, subpaths: seq<string>)
    requires ValidUrl(url) && JoinAll(url, subpaths).Ok?
    ensures ValidUrl(JoinAll(url, subpaths).value)
    decreases |subpaths|
  {
    if |subpaths| > 0 {
      JoinValid(url, subpaths[0]);
      JoinAllValid(Join(url, subpaths[0]).value, subpaths[1..]);
    }
  }

  // ---------------------------------------------------------------------
  // The relativisation step of `apply_rooted_base_url`

  /** As written, a `./scheme:rest` link on a `file:` base comes back as a
      URL on the scheme the link's path happens to begin with: the
      relativised text `scheme:rest` is reread with a scheme when joined
      onto the real base. */
  lemma RootedAsWrittenRereads(base: Url, scheme: string, rest: string, s: string, link: string)
    requires base.scheme == FileScheme && base.path.Hier?
    requires ValidScheme(scheme) && scheme != FileScheme
    requires PathChars(rest) && '/' !in rest
    requires s == scheme + ":" + rest && link == "./" + s
    ensures ApplyRootedBaseUrlAsWritten(base, [link]) == Ok(Url(scheme, None, Opaque(rest), None, None))
  {
    var fake := SentinelRoot(base);
    var w := Url(base.scheme, Some(SentinelHost), Hier([s]), None, None);
    SchemeTextSegment(scheme, rest, s);
    DotSlashOne(fake, s, link, w);
    JoinAllOne(fake, link, w);
    MakeRelativeFromRoot(fake, w, s);
    JoinSchemeTextOf(base, scheme, rest, s);
  }

  /** A piece `scheme:rest` without `/` is one clean segment. */
  lemma SchemeTextSegment(scheme: string, rest: string, s: string)
    requires ValidScheme(scheme) && PathChars(rest) && '/' !in rest
    requires s == scheme + ":" + rest
    ensures SegmentChars(s) && !IsDot(s) && s != ""
  {
    assert s[|scheme|] == ':';
    assert forall j :: 0 <= j < |scheme| ==> s[j] == scheme[j];
    assert forall j :: |scheme| < j < |s| ==> s[j] == rest[j - |scheme| - 1];
    assert s != ".";
    if |s| == 2 {
      assert s[1] == ':';
    }
  }

  /** `./s` joined onto a root `/` gives the one-segment path `s`. */
  lemma DotSlashOne(fake: Url, s: string, link: string, w: Url)
    requires fake.path == Hier([""]) && SegmentChars(s) && !IsDot(s) && link == "./" + s
    requires w == Url(fake.scheme, fake.host, Hier([s]), None, None)
    ensures Join(fake, link) == Ok(w)
  {
    OneSegment(s);
    JoinDotSlash(fake, [s], None, None);
    DotSlashOneText(s, link);
    RemoveDotsOne(s);
  }

  lemma OneSegment(s: string)
    requires SegmentChars(s)
    ensures forall x :: x in [s] ==> SegmentChars(x)
  {
  }

  lemma DotSlashOneText(s: string, link: string)
    requires link == "./" + s
    ensures "./" + JoinSegs([s]) + QueryString(None) + FragmentString(None) == link
  {
    assert JoinSegs([s]) == s;
  }

  lemma RemoveDotsOne(s: string)
    requires !IsDot(s)
    ensures RemoveDots(Dir([""]) + ["."] + [s]) == [s]
  {
    assert Dir([""]) == [];
    WalkDescend([], [s]);
    assert [] + ["."] + [s] == ["."] + [s] && [] + [s] == [s];
  }

  lemma JoinAllOne(o: Url, a: string, w: Url)
    requires Join(o, a) == Ok(w)
    ensures JoinAll(o, [a]) == Ok(w)
  {
    assert [a][0] == a && [a][1..] == [];
  }

  /** `file:///d/page.html` with the link `./a:b`: as written the result is
      the URL `a:b`; the corrected join keeps it under `/d/`. */
  lemma RootedAsWrittenExample(base: Url, link: string)
    requires base == Url(FileScheme, None, Hier(["d", "page.html"]), None, None)
    requires link == "./a:b"
    ensures ApplyRootedBaseUrlAsWritten(base, [link]) == Ok(Url("a", None, Opaque("b"), None, None))
    ensures ApplyRootedBaseUrl(base, [link]).Ok? && IsUnder(ApplyRootedBaseUrl(base, [link]).value, base)
  {
    var s := "a:b";
    RootedExampleText(link, s);
    RootedAsWrittenRereads(base, "a", "b", s, link);
    RootedExampleValid(base);
    RootedExampleStays(link);
    ConfinedOne(base, link);
  }

  /** A single link that stays on the host lands under a well-formed
      `file:` base. */
  lemma ConfinedOne(base: Url, link: string)
    requires ValidUrl(base) && base.path.Hier? && base.scheme == FileScheme && StaysOnHost(link)
    ensures ApplyRootedBaseUrl(base, [link]).Ok? && IsUnder(ApplyRootedBaseUrl(base, [link]).value, base)
  {
    var subs := [link];
    forall i | 0 <= i < |subs|
      ensures StaysOnHost(subs[i])
    {
      assert subs[i] == link;
    }
    Confinement(base, subs);
  }

  lemma RootedExampleText(link: string, s: string)
    requires link == "./a:b" && s == "a:b"
    ensures s == "a" + ":" + "b" && link == "./" + s
    ensures ValidScheme("a") && "a" != FileScheme && PathChars("b") && '/' !in "b"
  {
  }

  lemma RootedExampleValid(base: Url)
    requires base == Url(FileScheme, None, Hier(["d", "page.html"]), None, None)
    ensures ValidUrl(base) && base.path.Hier?
  {
    var segs := base.path.segments;
    assert |segs| == 2 && segs[0] == "d" && segs[1] == "page.html";
    assert ValidSegment(segs[0]) && ValidSegment(segs[1]);
    forall x | x in segs
      ensures ValidSegment(x)
    {
      if x != segs[0] {
        assert x == segs[1];
      }
    }
  }

  lemma RootedExampleStays(link: string)
    requires link == "./a:b"
    ensures StaysOnHost(link)
  {
    assert !IsAsciiAlpha(link[0]);
    assert SchemeEnd(link) == None;
    assert PathChars(link) && !StartsWith(link, "//");
    RelativeTextOf(link);
  }

  /** Where the chain of joins ends on the sentinel root's scheme and host,
      it ends on a plain path. */
  predicate ChainPlain(base: Url, subpaths: seq<string>) {
    var c := JoinAll(SentinelRoot(base), subpaths);
    (c.Ok? && c.value.path.Hier? && c.value.scheme == base.scheme && c.value.host == Some(SentinelHost))
    ==> PlainPath(c.value.path.segments)
  }

  /** The two versions of `apply_rooted_base_url` agree on every
      well-formed base unless the chain of joins ends on the sentinel root
      with a first segment that is empty or holds a `:`. */
  lemma RootedAgrees(base: Url, subpaths: seq<string>)
    requires ValidUrl(base) && ChainPlain(base, subpaths)
    ensures ApplyRootedBaseUrlAsWritten(base, subpaths) == ApplyRootedBaseUrl(base, subpaths)
  {
    if base.scheme == FileScheme && base.path.Hier? {
      var fake := SentinelRoot(base);
      var c := JoinAll(fake, subpaths);
      if c.Err? {
        RootedChainFails(base, subpaths, c.error);
      } else if c.value.path.Hier? && c.value.scheme == base.scheme && c.value.host == Some(SentinelHost) {
        var v := c.value;
        FakeRootValid(base);
        JoinAllValid(fake, subpaths);
        RelativisedAgree(base, fake, v);
        RootedVia(base, subpaths, v, MakeRelative(fake, v).value, MakeRelativeFixed(fake, v).value);
      } else {
        EscapeKept(base, subpaths, c.value);
      }
    }
  }

  /** A failing chain of joins fails both versions alike. */
  lemma RootedChainFails(base: Url, subpaths: seq<string>, e: ParseError)
    requires base.scheme == FileScheme && base.path.Hier?
    requires JoinAll(SentinelRoot(base), subpaths) == Err(e)
    ensures ApplyRootedBaseUrlAsWritten(base, subpaths) == Err(e)
    ensures ApplyRootedBaseUrl(base, subpaths) == Err(e)
  {
  }

  /** Both versions, once the chain of joins and its two relativisations
      are known. */
  lemma RootedVia(base: Url, subpaths: seq<string>, v: Url, a: string, b: string)
    requires base.scheme == FileScheme && base.path.Hier?
    requires JoinAll(SentinelRoot(base), subpaths) == Ok(v)
    requires MakeRelative(SentinelRoot(base), v) == Some(a) && MakeRelativeFixed(SentinelRoot(base), v) == Some(b)
    ensures ApplyRootedBaseUrlAsWritten(base, subpaths) == Join(base, a)
    ensures ApplyRootedBaseUrl(base, subpaths) == Join(base, b)
  {
  }

  /** From the sentinel root to a plain path, both relativisations lead
      from the real base to the same URL. */
  lemma RelativisedAgree(base: Url, fake: Url, v: Url)
    requires ValidUrl(base) && base.path.Hier? && ValidUrl(v) && v.path.Hier? && PlainPath(v.path.segments)
    requires fake == SentinelRoot(base) && v.scheme == fake.scheme && v.host == fake.host
    ensures MakeRelative(fake, v).Some? && MakeRelativeFixed(fake, v).Some?
    ensures Join(base, MakeRelative(fake, v).value) == Join(base, MakeRelativeFixed(fake, v).value)
  {
    MakeRelativeFromPlainRoot(fake, v);
    MakeRelativeFixedFromRoot(fake, v);
    PlainTextsAgree(base, v.path.segments, v.query, v.fragment);
  }
}
