/** The base a source's links are resolved against (`BaseInfo` in
    `base_info.rs`, its draft `SourceBaseInfo` in `base_mapping.rs`; one
    type here): nothing, a `file:` URL without a known root, or an origin
    with a subpath below it. */
module Bases {
  import opened Results
  import opened Strings
  import opened Urls
  import opened UrlLaws
  import opened UrlUtils
  import opened ErrorKinds
  import opened RelativeUris

  datatype BaseInfo =
    /** No base: only links that parse on their own resolve. */
    | NoInfo
    /** A `file:` URL whose root directory is unknown: locally-relative
        links resolve, root-relative ones do not. */
    | NoRoot(url: Url)
    /** An origin (for `file:`, the root directory) and the subpath of the
        source below it. */
    | Full(origin: Url, subpath: string)

  // ---------------------------------------------------------------------
  // Construction (base_info.rs)

  /** The origin of a URL with a hierarchical path: its root `/`. */
  function Origin(u: Url): Url {
    Url(u.scheme, u.host, Hier([""]), None, None)
  }

  /** `split_url_origin_and_path`: the origin is `url.join("/")`, the
      subpath rust-url's `make_relative` from the origin to `url`. Exactly
      the hierarchical URLs are split, at their root; a plain path comes
      out as its text without the leading `/`, then query and fragment. */
  function SplitUrlOriginAndPath(url: Url): (r: Option<(Url, string)>)
    ensures r.Some? <==> url.path.Hier?
    ensures r.Some? ==> r.value.0 == Origin(url)
    ensures url.path.Hier? && PlainPath(url.path.segments) ==>
      r == Some((Origin(url), JoinSegs(url.path.segments) + QueryString(url.query) + FragmentString(url.fragment)))
  {
    JoinRoot(url);
    SplitOfPlain(url);
    match Join(url, "/")
    case Err(_) => None
    case Ok(origin) =>
      match MakeRelative(origin, url)
      case None => None
      case Some(sub) => Some((origin, sub))
  }

  lemma SplitOfPlain(url: Url)
    ensures url.path.Hier? ==> MakeRelative(Origin(url), url).Some?
    ensures url.path.Hier? && PlainPath(url.path.segments) ==>
      MakeRelative(Origin(url), url)
        == Some(JoinSegs(url.path.segments) + QueryString(url.query) + FragmentString(url.fragment))
  {
    if url.path.Hier? && PlainPath(url.path.segments) {
      MakeRelativeFromPlainRoot(Origin(url), url);
    }
  }

  /** `split_url_origin_and_path` with a subpath that joins back to `url`
      (`MakeRelativeFixed` in place of `make_relative`): the same split,
      and for a well-formed URL the origin joined with the subpath is the
      URL. */
  function SplitUrlOriginAndPathFixed(url: Url): (r: Option<(Url, string)>)
    ensures r.Some? <==> url.path.Hier?
    ensures r.Some? ==> r.value.0 == Origin(url)
    ensures r.Some? && ValidUrl(url) ==> Join(r.value.0, r.value.1) == Ok(url)
  {
    JoinRoot(url);
    FixedSplitJoins(url);
    match Join(url, "/")
    case Err(_) => None
    case Ok(origin) =>
      match MakeRelativeFixed(origin, url)
      case None => None
      case Some(sub) => Some((origin, sub))
  }

  lemma FixedSplitJoins(url: Url)
    ensures url.path.Hier? ==> MakeRelativeFixed(Origin(url), url).Some?
    ensures url.path.Hier? && ValidUrl(url) ==>
      Join(Origin(url), MakeRelativeFixed(Origin(url), url).value) == Ok(url)
  {
    if url.path.Hier? && ValidUrl(url) {
      OriginValid(url);
      MakeRelativeFixedInverse(Origin(url), url);
    }
  }

  lemma OriginValid(u: Url)
    requires ValidUrl(u)
    ensures ValidUrl(Origin(u))
  {
    assert ValidSegments([""]) by {
      assert forall x :: x in [""] ==> x == "";
    }
  }

  /** `BaseInfo::from_source_url`: a `file:` URL has no known root; another
      URL is split into origin and subpath when hierarchical and gives no
      base otherwise. */
  function FromSourceUrl(url: Url): (r: BaseInfo)
    ensures url.scheme == FileScheme ==> r == NoRoot(url)
    ensures url.scheme != FileScheme ==> (r.Full? <==> url.path.Hier?) && (r.NoInfo? <==> url.CannotBeABase())
    ensures r.Full? ==> r.origin == Origin(url)
  {
    if url.scheme == FileScheme then NoRoot(url)
    else
      match SplitUrlOriginAndPath(url)
      case Some((origin, path)) => Full(origin, path)
      case None => NoInfo
  }

  /** `BaseInfo::from_source_url` built on the corrected split. */
  function FromSourceUrlFixed(url: Url): (r: BaseInfo)
    ensures url.scheme == FileScheme ==> r == NoRoot(url)
    ensures url.scheme != FileScheme ==> (r.Full? <==> url.path.Hier?) && (r.NoInfo? <==> url.CannotBeABase())
    ensures r.Full? ==> r.origin == Origin(url)
  {
    if url.scheme == FileScheme then NoRoot(url)
    else
      match SplitUrlOriginAndPathFixed(url)
      case Some((origin, path)) => Full(origin, path)
      case None => NoInfo
  }

  const CannotBeABaseReason: string := "The given URL cannot be used as a base URL"

  /** `BaseInfo::from_base_url`: refuses a cannot-be-a-base URL. */
  function FromBaseUrl(url: Url): (r: Result<BaseInfo, ErrorKind>)
    ensures r.Ok? <==> !url.CannotBeABase()
    ensures r.Err? ==> r.error.InvalidBase? && r.error.reason == CannotBeABaseReason
    ensures r.Ok? && url.scheme == FileScheme ==> r.value == NoRoot(url)
  {
    if url.CannotBeABase() then Err(InvalidBase(Serialize(url), CannotBeABaseReason))
    else Ok(FromSourceUrl(url))
  }

  // ---------------------------------------------------------------------
  // Construction (base_mapping.rs)

  /** `SourceBaseInfo::from_source_url`: a `file:` URL has no known root,
      another cannot-be-a-base URL gives no base; otherwise the origin is
      the URL with its path cleared to `/` (query and fragment kept) and
      the subpath is the serialised path without its leading `/`. A path
      without that `/` gives no base; in this model every hierarchical path
      is serialised with a leading `/`, so that branch is never taken. */
  function FromSourceUrlCleared(url: Url): (r: BaseInfo)
    ensures url.scheme == FileScheme ==> r == NoRoot(url)
    ensures url.scheme != FileScheme && url.CannotBeABase() ==> r == NoInfo
    ensures url.scheme != FileScheme && url.path.Hier? ==>
      r == Full(url.(path := Hier([""])), JoinSegs(url.path.segments))
  {
    ClearedSubpath(url);
    if url.scheme == FileScheme then NoRoot(url)
    else
      match ClearPath(url)
      case None => NoInfo
      case Some(origin) =>
        var path := PathString(url);
        if StartsWith(path, "/") then Full(origin, path[1..]) else NoInfo
  }

  /** The serialised hierarchical path is `/` and the joined segments. */
  lemma ClearedSubpath(url: Url)
    ensures url.path.Hier? ==> StartsWith(PathString(url), "/") && PathString(url)[1..] == JoinSegs(url.path.segments)
  {
    if url.path.Hier? {
      var path := PathString(url);
      assert path == "/" + JoinSegs(url.path.segments);
      assert path[..1] == "/";
    }
  }

  /** `SourceBaseInfo::from_source_url` with the subpath written as `./`
      followed by the path, so that its first segment cannot be read as a
      scheme. */
  function FromSourceUrlClearedFixed(url: Url): (r: BaseInfo)
    ensures url.scheme == FileScheme ==> r == NoRoot(url)
    ensures url.scheme != FileScheme && url.CannotBeABase() ==> r == NoInfo
    ensures url.scheme != FileScheme && url.path.Hier? ==>
      r == Full(url.(path := Hier([""])), "./" + JoinSegs(url.path.segments))
  {
    if url.scheme == FileScheme then NoRoot(url)
    else
      match ClearPath(url)
      case None => NoInfo
      case Some(origin) => Full(origin, "./" + JoinSegs(url.path.segments))
  }

  // ---------------------------------------------------------------------
  // Queries

  /** `BaseInfo::to_url`. */
  function ToUrl(b: BaseInfo): Option<Url>
  {
    match b
    case NoInfo => None
    case NoRoot(url) => Some(url)
    case Full(origin, path) => Join(origin, path).ToOption()
  }

  /** `BaseInfo::scheme`. */
  function Scheme(b: BaseInfo): Option<string>
  {
    match b
    case NoInfo => None
    case NoRoot(url) => Some(url.scheme)
    case Full(origin, _) => Some(origin.scheme)
  }

  /** `BaseInfo::is_none`. */
  predicate IsNone(b: BaseInfo) {
    b.NoInfo?
  }

  predicate SupportsRootRelative(b: BaseInfo) {
    b.Full?
  }

  predicate SupportsLocallyRelative(b: BaseInfo) {
    !IsNone(b)
  }

  /** `or_fallback`: the more informative of the two (`Full` over `NoRoot`
      over `None`), `self` on a tie. */
  function OrFallback(self: BaseInfo, fallback: BaseInfo): (r: BaseInfo)
    ensures r == self || r == fallback
    ensures Rank(r) == if Rank(self) >= Rank(fallback) then Rank(self) else Rank(fallback)
    ensures Rank(self) >= Rank(fallback) ==> r == self
  {
    match (self, fallback)
    case (Full(_, _), _) => self
    case (_, Full(_, _)) => fallback
    case (NoRoot(_), _) => self
    case (_, NoRoot(_)) => fallback
    case (NoInfo, NoInfo) => NoInfo
  }

  /** How much a base can resolve: nothing, local links, all links. */
  function Rank(b: BaseInfo): nat {
    match b
    case NoInfo => 0
    case NoRoot(_) => 1
    case Full(_, _) => 2
  }

  /** `is_root_relative`: `/` but not `//` after leading ASCII whitespace. */
  function IsRootRelative(text: string): (r: bool)
    ensures var u := TrimAsciiStart(text);
      r <==> |u| >= 1 && u[0] == '/' && (|u| == 1 || u[1] != '/')
  {
    StartsWithSlashes(TrimAsciiStart(text));
    var t := TrimAsciiStart(text);
    StartsWith(t, "/") && !StartsWith(t, "//")
  }

  // ---------------------------------------------------------------------
  // Resolution

  /** A failed join reported as `ParseUrl` with the link text. */
  function JoinError(r: Result<Url, ParseError>, text: string): Result<Url, ErrorKind>
  {
    match r
    case Ok(u) => Ok(u)
    case Err(e) => Err(ParseUrl(e, text))
  }

  /** `parse_url_text` of `base_mapping.rs`: text that parses on its own is
      returned; otherwise a root-relative link on a base without root is
      refused, a base with a URL resolves the text through
      `apply_rooted_base_url` (after the subpath, for a full base), and no
      base returns the parse error. */
  function ResolveText(b: BaseInfo, text: string): Result<Url, ErrorKind>
  {
    match UriTryFrom(text)
    case Ok(u) => Ok(u)
    case Err(e) =>
      if !e.ParseUrl? then Err(e)
      else
        match b
        case NoRoot(base) =>
          if IsRootRelative(text) then Err(InvalidBaseJoin(text))
          else JoinError(ApplyRootedBaseUrl(base, [text]), text)
        case Full(origin, subpath) => JoinError(ApplyRootedBaseUrl(origin, [subpath, text]), text)
        case NoInfo => Err(e)
  }

  /** The base `parse_url_text` of `base_info.rs` resolves against: a root
      directory, when given, stands in for a `file:` base on root-relative
      text. */
  function EffectiveBase(b: BaseInfo, text: string, rootDir: Option<Url>): BaseInfo
  {
    if rootDir.Some? && Scheme(b) == Some(FileScheme) && IsRootRelative(text) then Full(rootDir.value, "")
    else b
  }

  /** `parse_url_text` of `base_info.rs`. */
  function ParseUrlText(b: BaseInfo, text: string, rootDir: Option<Url>): Result<Url, ErrorKind>
  {
    ResolveText(EffectiveBase(b, text, rootDir), text)
  }

  // ---------------------------------------------------------------------
  // Laws

  /** The two spellings of the root-relative test agree. */
  lemma IsRootRelativeAgrees(text: string)
    ensures IsRootRelative(text) <==> IsRootRelativeLink(text)
  {
    StartsWithSlashes(TrimAsciiStart(text));
  }

  /** Root-relative text has no scheme, so it never parses on its own. */
  lemma RootRelativeNoScheme(text: string)
    requires IsRootRelative(text)
    ensures ParseReference(text).scheme.None?
    ensures UriTryFrom(text) == Err(ParseUrl(RelativeUrlWithoutBase, text))
  {
    var t := TrimAsciiStart(text);
    StartsWithSlashes(t);
    TrimmedSlash(text);
    LeadingSlashNoScheme(text);
  }

  /** How `parse_url_text` treats each base: text that parses on its own
      is returned whatever the base; a failure is always a `ParseUrl` error,
      which an empty base returns as it is, a base without root turns into
      `InvalidBaseJoin` for root-relative text, and a base with a URL
      replaces by the outcome of `apply_rooted_base_url`, the subpath of a
      full base coming first. Root-relative text never parses on its own. */
  lemma ResolveTextSpec(b: BaseInfo, text: string)
    ensures UriTryFrom(text).Ok? ==> ResolveText(b, text) == UriTryFrom(text)
    ensures UriTryFrom(text).Err? ==> ResolveText(b, text) == match b
      case NoInfo => UriTryFrom(text)
      case NoRoot(base) =>
        if IsRootRelative(text) then Err(InvalidBaseJoin(text))
        else JoinError(ApplyRootedBaseUrl(base, [text]), text)
      case Full(origin, subpath) => JoinError(ApplyRootedBaseUrl(origin, [subpath, text]), text)
    ensures IsRootRelative(text) && b.NoRoot? ==> ResolveText(b, text) == Err(InvalidBaseJoin(text))
  {
    var p := UriTryFrom(text);
    ErrorIsParseUrl(text, p);
    if IsRootRelative(text) {
      RootRelativeNoScheme(text);
    }
    ResolveTextOf(b, text, p, IsRootRelative(text));
  }

  /** `ResolveText` in terms of the parse of the text on its own. */
  lemma ResolveTextOf(b: BaseInfo, text: string, p: Result<Url, ErrorKind>, rootRelative: bool)
    requires p == UriTryFrom(text) && rootRelative == IsRootRelative(text)
    ensures ResolveText(b, text) == match p
      case Ok(u) => Ok(u)
      case Err(e) =>
        if !e.ParseUrl? then Err(e)
        else match b
          case NoRoot(base) =>
            if rootRelative then Err(InvalidBaseJoin(text)) else JoinError(ApplyRootedBaseUrl(base, [text]), text)
          case Full(origin, subpath) => JoinError(ApplyRootedBaseUrl(origin, [subpath, text]), text)
          case NoInfo => Err(e)
  {
  }

  lemma ErrorIsParseUrl(text: string, p: Result<Url, ErrorKind>)
    requires p == UriTryFrom(text)
    ensures p.Err? ==> p.error.ParseUrl?
  {
  }

  /** Text that parses on its own resolves to itself, with the scheme it
      names, with or without a root directory, on every base. */
  lemma AbsoluteIgnoresBase(b: BaseInfo, text: string, rootDir: Option<Url>)
    requires Parse(text).Ok?
    ensures ParseUrlText(b, text, rootDir) == Ok(Parse(text).value)
    ensures ParseUrlText(b, text, rootDir).value.scheme == ParseReference(text).scheme.value
  {
    ResolveTextSpec(EffectiveBase(b, text, rootDir), text);
  }

  /** A base on which `apply_rooted_base_url` gets through its own part of
      the chain: the base itself for a base without root, the subpath for a
      full base. */
  predicate Resolvable(b: BaseInfo) {
    match b
    case NoInfo => true
    case NoRoot(base) => ApplyRootedBaseUrl(base, []).Ok?
    case Full(origin, subpath) => ApplyRootedBaseUrl(origin, [subpath]).Ok?
  }

  /** `ResolveText` joins with the corrected `apply_rooted_base_url`; where
      the chain of joins does not end on a first segment that is empty or
      holds a `:`, the join as written gives the same result. */
  lemma ResolveTextAsWritten(b: BaseInfo, text: string)
    requires b.NoRoot? ==> ValidUrl(b.url) && ChainPlain(b.url, [text])
    requires b.Full? ==> ValidUrl(b.origin) && ChainPlain(b.origin, [b.subpath, text])
    ensures UriTryFrom(text).Err? && b.NoRoot? && !IsRootRelative(text) ==>
      ResolveText(b, text) == JoinError(ApplyRootedBaseUrlAsWritten(b.url, [text]), text)
    ensures UriTryFrom(text).Err? && b.Full? ==>
      ResolveText(b, text) == JoinError(ApplyRootedBaseUrlAsWritten(b.origin, [b.subpath, text]), text)
  {
    ResolveTextSpec(b, text);
    match b
    case NoInfo =>
    case NoRoot(base) => RootedAgrees(base, [text]);
    case Full(origin, subpath) => RootedAgrees(origin, [subpath, text]);
  }

  /** Text with a scheme is never root-relative. */
  lemma RootRelativeHasNoScheme(text: string)
    ensures IsRootRelative(text) ==> ParseReference(text).scheme.None?
  {
    if IsRootRelative(text) {
      RootRelativeNoScheme(text);
    }
  }

  /** Text with a scheme resolves as it parses on its own, on every base
      that gets through its own part of the chain: whether the text parses
      (an absolute URL) or not (`http://`, whose host is empty), the base
      plays no part. */
  lemma SchemeTextIgnoresBase(b: BaseInfo, text: string)
    requires ParseReference(text).scheme.Some?
    requires Resolvable(b)
    ensures ResolveText(b, text) == UriTryFrom(text)
  {
    match b
    case NoInfo =>
    case NoRoot(base) => SchemeTextNoRoot(base, text);
    case Full(origin, subpath) => SchemeTextFull(origin, subpath, text);
  }

  /** `http://` fails for its empty host on every such base, not for want
      of a base. */
  lemma EmptyHostOnEveryBase(b: BaseInfo)
    requires Resolvable(b)
    ensures ResolveText(b, "http://") == Err(ParseUrl(EmptyHost, "http://"))
  {
    EmptyHostExample();
    UriTryFromParse("http://");
    SchemeTextIgnoresBase(b, "http://");
  }

  lemma UriTryFromParse(text: string)
    ensures UriTryFrom(text) == JoinError(Parse(text), text)
  {
  }

  lemma SchemeTextNoRoot(base: Url, text: string)
    requires ParseReference(text).scheme.Some?
    requires ApplyRootedBaseUrl(base, []).Ok?
    ensures ResolveText(NoRoot(base), text) == UriTryFrom(text)
  {
    RootRelativeHasNoScheme(text);
    UriTryFromParse(text);
    if Parse(text).Err? {
      SchemeTextFailsChain(base, [], text);
      assert [] + [text] == [text];
    }
  }

  lemma SchemeTextFull(origin: Url, subpath: string, text: string)
    requires ParseReference(text).scheme.Some?
    requires ApplyRootedBaseUrl(origin, [subpath]).Ok?
    ensures ResolveText(Full(origin, subpath), text) == UriTryFrom(text)
  {
    UriTryFromParse(text);
    if Parse(text).Err? {
      SchemeTextFailsChain(origin, [subpath], text);
      assert [subpath] + [text] == [subpath, text];
    }
  }

  /** Without a root directory the two `parse_url_text`s agree; with one, a
      `file:` base resolves root-relative text against the root directory
      and so never refuses it with `InvalidBaseJoin`. */
  lemma RootDirSpec(b: BaseInfo, text: string, rootDir: Option<Url>)
    ensures rootDir.None? ==> ParseUrlText(b, text, rootDir) == ResolveText(b, text)
    ensures rootDir.Some? && Scheme(b) == Some(FileScheme) && IsRootRelative(text)
         ==> ParseUrlText(b, text, rootDir) == JoinError(ApplyRootedBaseUrl(rootDir.value, ["", text]), text)
    ensures rootDir.Some? && Scheme(b) == Some(FileScheme)
         ==> !(ParseUrlText(b, text, rootDir).Err? && ParseUrlText(b, text, rootDir).error.InvalidBaseJoin?)
  {
    if rootDir.Some? && Scheme(b) == Some(FileScheme) {
      if IsRootRelative(text) {
        RootDirRooted(b, text, rootDir.value);
      } else {
        RootDirUnrooted(b, text, rootDir.value);
      }
    }
  }

  /** Root-relative text on a `file:` base with a root directory resolves
      against the root directory. */
  lemma RootDirRooted(b: BaseInfo, text: string, root: Url)
    requires Scheme(b) == Some(FileScheme) && IsRootRelative(text)
    ensures ParseUrlText(b, text, Some(root)) == JoinError(ApplyRootedBaseUrl(root, ["", text]), text)
    ensures !(ParseUrlText(b, text, Some(root)).Err? && ParseUrlText(b, text, Some(root)).error.InvalidBaseJoin?)
  {
    var p := UriTryFrom(text);
    ErrorIsParseUrl(text, p);
    RootRelativeNoScheme(text);
    assert EffectiveBase(b, text, Some(root)) == Full(root, "");
    assert ParseUrlText(b, text, Some(root)) == ResolveText(Full(root, ""), text);
    var r := ApplyRootedBaseUrl(root, ["", text]);
    ResolveFullOf(root, "", text, p, r);
    JoinErrorIsParseUrl(r, text);
  }

  /** Other text on a `file:` base with a root directory resolves against
      the base itself, and is not refused with `InvalidBaseJoin`. */
  lemma RootDirUnrooted(b: BaseInfo, text: string, root: Url)
    requires Scheme(b) == Some(FileScheme) && !IsRootRelative(text)
    ensures ParseUrlText(b, text, Some(root)) == ResolveText(b, text)
    ensures !(ParseUrlText(b, text, Some(root)).Err? && ParseUrlText(b, text, Some(root)).error.InvalidBaseJoin?)
  {
    var p := UriTryFrom(text);
    ErrorIsParseUrl(text, p);
    assert EffectiveBase(b, text, Some(root)) == b;
    ResolveTextOf(b, text, p, false);
    NotInvalidBaseJoin(b, text, p, false);
  }

  /** `ResolveText` on a full base and text that does not parse on its own,
      in terms of the outcome `r` of `apply_rooted_base_url`. */
  lemma ResolveFullOf(origin: Url, subpath: string, text: string, p: Result<Url, ErrorKind>, r: Result<Url, ParseError>)
    requires p == UriTryFrom(text) && p.Err? && p.error.ParseUrl?
    requires r == ApplyRootedBaseUrl(origin, [subpath, text])
    ensures ResolveText(Full(origin, subpath), text) == JoinError(r, text)
  {
  }

  lemma NotInvalidBaseJoin(b: BaseInfo, text: string, p: Result<Url, ErrorKind>, rr: bool)
    requires p == UriTryFrom(text) && (p.Err? ==> p.error.ParseUrl?) && rr == IsRootRelative(text)
    requires !(b.NoRoot? && rr)
    ensures !(ResolveText(b, text).Err? && ResolveText(b, text).error.InvalidBaseJoin?)
  {
    ResolveTextOf(b, text, p, rr);
    if p.Err? {
      match b
      case NoInfo =>
      case NoRoot(base) =>
        JoinErrorIsParseUrl(ApplyRootedBaseUrl(base, [text]), text);
      case Full(origin, subpath) =>
        JoinErrorIsParseUrl(ApplyRootedBaseUrl(origin, [subpath, text]), text);
    }
  }

  lemma JoinErrorIsParseUrl(r: Result<Url, ParseError>, text: string)
    ensures JoinError(r, text).Err? ==> JoinError(r, text).error == ParseUrl(r.error, text)
    ensures r.Ok? ==> JoinError(r, text) == Ok(r.value)
  {
  }

  /** Text that stays on the host does not parse on its own. */
  lemma StaysNoParse(text: string, p: Result<Url, ErrorKind>)
    requires StaysOnHost(text) && p == UriTryFrom(text)
    ensures p == Err(ParseUrl(RelativeUrlWithoutBase, text))
  {
  }

  /** A locally-relative link that stays on the host, resolved against a
      well-formed `file:` base without root, lands under the base's
      directory. */
  lemma NoRootConfined(base: Url, text: string)
    requires ValidUrl(base) && base.path.Hier? && base.scheme == FileScheme
    requires StaysOnHost(text) && !IsRootRelative(text)
    ensures ResolveText(NoRoot(base), text).Ok?
    ensures IsUnder(ResolveText(NoRoot(base), text).value, base)
  {
    var p := UriTryFrom(text);
    StaysNoParse(text, p);
    ResolveTextOf(NoRoot(base), text, p, false);
    var r := ApplyRootedBaseUrl(base, [text]);
    StaysOne(text, [text]);
    ConfinedPair(base, [text], r);
    JoinErrorIsParseUrl(r, text);
  }

  /** A link and a subpath that both stay on the host, resolved against a
      well-formed `file:` origin, land under the origin. */
  lemma FullConfined(origin: Url, subpath: string, text: string)
    requires ValidUrl(origin) && origin.path.Hier? && origin.scheme == FileScheme
    requires StaysOnHost(subpath) && StaysOnHost(text)
    ensures ResolveText(Full(origin, subpath), text).Ok?
    ensures IsUnder(ResolveText(Full(origin, subpath), text).value, origin)
  {
    var p := UriTryFrom(text);
    StaysNoParse(text, p);
    var r := ApplyRootedBaseUrl(origin, [subpath, text]);
    StaysPair(subpath, text, [subpath, text]);
    ConfinedPair(origin, [subpath, text], r);
    ResolveFullOf(origin, subpath, text, p, r);
    JoinErrorIsParseUrl(r, text);
  }

  lemma ConfinedPair(origin: Url, subs: seq<string>, r: Result<Url, ParseError>)
    requires ValidUrl(origin) && origin.path.Hier? && origin.scheme == FileScheme
    requires forall i :: 0 <= i < |subs| ==> StaysOnHost(subs[i])
    requires r == ApplyRootedBaseUrl(origin, subs)
    ensures r.Ok? && IsUnder(r.value, origin)
  {
    Confinement(origin, subs);
  }

  lemma StaysPair(a: string, b: string, subs: seq<string>)
    requires StaysOnHost(a) && StaysOnHost(b) && subs == [a, b]
    ensures forall i :: 0 <= i < |subs| ==> StaysOnHost(subs[i])
  {
    EveryOfPair(StaysOnHost, a, b, subs);
  }

  lemma StaysOne(a: string, subs: seq<string>)
    requires StaysOnHost(a) && subs == [a]
    ensures forall i :: 0 <= i < |subs| ==> StaysOnHost(subs[i])
  {
    EveryOfOne(StaysOnHost, a, subs);
  }

  lemma EveryOfOne(p: string -> bool, a: string, subs: seq<string>)
    requires p(a) && subs == [a]
    ensures forall i :: 0 <= i < |subs| ==> p(subs[i])
  {
  }

  lemma EveryOfPair(p: string -> bool, a: string, b: string, subs: seq<string>)
    requires p(a) && p(b) && subs == [a, b]
    ensures forall i :: 0 <= i < |subs| ==> p(subs[i])
  {
  }

  /** With a root directory, a root-relative link that stays on the host
      lands under the root directory, for any `file:` base. */
  lemma RootDirConfined(b: BaseInfo, text: string, root: Url)
    requires Scheme(b) == Some(FileScheme)
    requires ValidUrl(root) && root.path.Hier? && root.scheme == FileScheme
    requires IsRootRelative(text) && StaysOnHost(text)
    ensures ParseUrlText(b, text, Some(root)).Ok?
    ensures IsUnder(ParseUrlText(b, text, Some(root)).value, root)
  {
    EmptyStaysOnHost();
    assert EffectiveBase(b, text, Some(root)) == Full(root, "");
    FullConfined(root, "", text);
  }

  lemma EmptyStaysOnHost()
    ensures StaysOnHost("")
  {
    ParseRelativeText("", None, None);
    assert "" + QueryString(None) + FragmentString(None) == "";
  }

  // ---------------------------------------------------------------------
  // Construction laws

  /** `to_url` undoes `from_source_url` for a `file:` URL and for a URL
      whose path is plain; another URL that cannot be a base gives no URL. */
  lemma FromSourceUrlRoundTrip(u: Url)
    requires ValidUrl(u)
    ensures u.scheme == FileScheme || (u.path.Hier? && PlainPath(u.path.segments)) ==> ToUrl(FromSourceUrl(u)) == Some(u)
    ensures u.scheme != FileScheme && u.CannotBeABase() ==> ToUrl(FromSourceUrl(u)).None?
  {
    if u.scheme != FileScheme && u.path.Hier? && PlainPath(u.path.segments) {
      PlainJoinsBack(u);
    }
  }

  /** The text of a plain path, with query and fragment, joins back onto
      the URL's origin. */
  lemma PlainJoinsBack(u: Url)
    requires ValidUrl(u) && u.path.Hier? && PlainPath(u.path.segments)
    ensures Join(Origin(u), JoinSegs(u.path.segments) + QueryString(u.query) + FragmentString(u.fragment)) == Ok(u)
  {
    var segs := u.path.segments;
    if segs == [""] {
      assert JoinSegs(segs) + QueryString(u.query) + FragmentString(u.fragment)
          == QueryString(u.query) + FragmentString(u.fragment);
      JoinEmptyPath(Origin(u), u.query, u.fragment);
    } else {
      JoinPlain(Origin(u), segs, u.query, u.fragment);
      PlainSegmentsKept(segs);
    }
  }

  /** Valid segments walked from the root come out as they are. */
  lemma PlainSegmentsKept(segs: seq<string>)
    requires ValidSegments(segs)
    ensures RemoveDots(Dir([""]) + segs) == segs
  {
    assert Dir([""]) + segs == segs;
    WalkClean([], segs, []);
    assert segs + [] == segs && [] + segs == segs;
  }

  /** With the corrected split, `to_url` undoes `from_source_url` exactly
      for `file:` and hierarchical URLs. */
  lemma FromSourceUrlFixedRoundTrip(u: Url)
    requires ValidUrl(u)
    ensures ToUrl(FromSourceUrlFixed(u)) == Some(u) <==> u.scheme == FileScheme || u.path.Hier?
  {
    if u.scheme != FileScheme && u.path.Hier? {
      FixedSplitJoins(u);
      FixedHierRoundTrip(u, MakeRelativeFixed(Origin(u), u).value);
    }
  }

  lemma FixedHierRoundTrip(u: Url, sub: string)
    requires u.scheme != FileScheme && u.path.Hier?
    requires MakeRelativeFixed(Origin(u), u) == Some(sub) && Join(Origin(u), sub) == Ok(u)
    ensures ToUrl(FromSourceUrlFixed(u)) == Some(u)
  {
    FixedSplit(u, sub);
  }

  /** With the corrected split, a hierarchical web URL's base resolves
      every link by joining it onto the URL. */
  lemma FromSourceUrlFixedResolves(u: Url, text: string)
    requires ValidUrl(u) && u.scheme != FileScheme && u.path.Hier?
    ensures ResolveText(FromSourceUrlFixed(u), text) == JoinError(Join(u, text), text)
  {
    FixedSplitJoins(u);
    var sub := MakeRelativeFixed(Origin(u), u).value;
    FixedSplit(u, sub);
    ResolveViaSubpath(Origin(u), sub, u, text, UriTryFrom(text));
  }

  /** As written, a web URL with a plain path gives a base that resolves
      every link by joining it onto the URL. */
  lemma FromSourceUrlResolves(u: Url, text: string)
    requires ValidUrl(u) && u.scheme != FileScheme && u.path.Hier? && PlainPath(u.path.segments)
    ensures ResolveText(FromSourceUrl(u), text) == JoinError(Join(u, text), text)
  {
    var sub := JoinSegs(u.path.segments) + QueryString(u.query) + FragmentString(u.fragment);
    PlainSplit(u, sub);
    PlainJoinsBack(u);
    ResolveViaSubpath(Origin(u), sub, u, text, UriTryFrom(text));
  }

  /** On a web URL with a plain path, the split as written and the
      corrected split give bases that stand for the same URL and resolve
      every link alike. */
  lemma FromSourceUrlAgrees(u: Url, text: string)
    requires ValidUrl(u) && u.scheme != FileScheme && u.path.Hier? && PlainPath(u.path.segments)
    ensures ToUrl(FromSourceUrl(u)) == ToUrl(FromSourceUrlFixed(u)) == Some(u)
    ensures ResolveText(FromSourceUrl(u), text) == ResolveText(FromSourceUrlFixed(u), text)
  {
    FromSourceUrlRoundTrip(u);
    FromSourceUrlFixedRoundTrip(u);
    FromSourceUrlResolves(u, text);
    FromSourceUrlFixedResolves(u, text);
  }

  lemma FixedSplit(u: Url, sub: string)
    requires u.scheme != FileScheme && u.path.Hier? && MakeRelativeFixed(Origin(u), u) == Some(sub)
    ensures FromSourceUrlFixed(u) == Full(Origin(u), sub)
  {
    JoinRoot(u);
  }

  lemma PlainSplit(u: Url, sub: string)
    requires u.scheme != FileScheme && u.path.Hier? && PlainPath(u.path.segments)
    requires sub == JoinSegs(u.path.segments) + QueryString(u.query) + FragmentString(u.fragment)
    ensures FromSourceUrl(u) == Full(Origin(u), sub)
  {
  }

  /** `from_base_url` accepts exactly the URLs that can be a base; the base
      it builds gives back a `file:` URL and a URL whose path is plain. */
  lemma FromBaseUrlSpec(u: Url)
    requires ValidUrl(u)
    ensures FromBaseUrl(u).Ok? <==> u.path.Hier?
    ensures FromBaseUrl(u).Err? ==> FromBaseUrl(u).error == InvalidBase(Serialize(u), CannotBeABaseReason)
    ensures FromBaseUrl(u).Ok? && (u.scheme == FileScheme || PlainPath(u.path.segments)) ==>
      ToUrl(FromBaseUrl(u).value) == Some(u)
  {
    FromSourceUrlRoundTrip(u);
  }

  /** The queries agree with each other: a base has a scheme exactly when
      it is not empty, only a base that is not empty has a URL, and a base
      that supports root-relative links supports local ones. */
  lemma QueriesAgree(b: BaseInfo)
    ensures Scheme(b).None? <==> IsNone(b)
    ensures ToUrl(b).Some? ==> !IsNone(b)
    ensures SupportsRootRelative(b) ==> SupportsLocallyRelative(b)
  {
  }

  /** A base that is not empty has a URL on its own scheme, provided that a
      full base's origin is hierarchical and its subpath stays on the
      host. */
  lemma ToUrlAgrees(b: BaseInfo)
    requires b.Full? ==> b.origin.path.Hier? && StaysOnHost(b.subpath)
    ensures ToUrl(b).None? <==> IsNone(b)
    ensures ToUrl(b).Some? ==> ToUrl(b).value.scheme == Scheme(b).value
  {
    if b.Full? {
      JoinShape(b.origin, b.subpath);
    }
  }

  /** The base `or_fallback` keeps can resolve what either of the two
      could. */
  lemma OrFallbackSupports(a: BaseInfo, b: BaseInfo)
    ensures var r := OrFallback(a, b);
      && (SupportsRootRelative(r) <==> SupportsRootRelative(a) || SupportsRootRelative(b))
      && (SupportsLocallyRelative(r) <==> SupportsLocallyRelative(a) || SupportsLocallyRelative(b))
  {
  }

  /** Falling back is associative, and an empty base is its identity. */
  lemma OrFallbackAssociative(a: BaseInfo, b: BaseInfo, c: BaseInfo)
    ensures OrFallback(OrFallback(a, b), c) == OrFallback(a, OrFallback(b, c))
    ensures OrFallback(a, NoInfo) == a && OrFallback(NoInfo, a) == a
  {
  }

  // ---------------------------------------------------------------------
  // The subpath of `split_url_origin_and_path`

  /** As written, a URL whose one path segment looks like `scheme:rest` is
      split into a subpath that joins back onto the origin as a URL on
      another scheme. */
  lemma SplitAsWrittenRereads(u: Url, scheme: string, rest: string)
    requires u.path == Hier([scheme + ":" + rest]) && u.query.None? && u.fragment.None?
    requires ValidScheme(scheme) && scheme != FileScheme
    requires PathChars(rest) && (rest == "" || rest[0] != '/')
    ensures SplitUrlOriginAndPath(u) == Some((Origin(u), scheme + ":" + rest))
    ensures ToUrl(Full(Origin(u), scheme + ":" + rest)) == Some(Url(scheme, None, Opaque(rest), None, None))
  {
    var s := scheme + ":" + rest;
    assert |s| > 0;
    SplitAsWrittenOf(u, s);
    ToUrlOfSchemeText(Origin(u), scheme, rest, s);
  }

  lemma ToUrlOfSchemeText(o: Url, scheme: string, rest: string, s: string)
    requires ValidScheme(scheme) && scheme != FileScheme
    requires PathChars(rest) && (rest == "" || rest[0] != '/')
    requires s == scheme + ":" + rest
    ensures ToUrl(Full(o, s)) == Some(Url(scheme, None, Opaque(rest), None, None))
  {
    JoinSchemeText(o, scheme, rest);
  }

  /** As written, a URL with one nonempty path segment is split into its
      origin and that segment. */
  lemma SplitAsWrittenOf(u: Url, s: string)
    requires u.path == Hier([s]) && s != "" && u.query.None? && u.fragment.None?
    ensures SplitUrlOriginAndPath(u) == Some((Origin(u), s))
  {
    JoinRoot(u);
    MakeRelativeFromRoot(Origin(u), u, s);
  }

  // ---------------------------------------------------------------------
  // The subpath of `SourceBaseInfo::from_source_url`

  /** A URL without query and fragment: what a base built from it stands
      for. */
  function Stripped(u: Url): Url {
    u.(query := None, fragment := None)
  }

  /** On a web source whose path is plain (and that has no query when its
      path is the root `/`), the base as written stands for the source URL
      without query and fragment, and resolves every link as the corrected
      base does: by joining it onto that URL. */
  lemma FromSourceUrlClearedSpec(u: Url, text: string)
    requires ValidUrl(u) && u.path.Hier? && u.scheme != FileScheme
    requires PlainPath(u.path.segments) && (u.path.segments == [""] ==> u.query.None?)
    ensures ToUrl(FromSourceUrlCleared(u)) == Some(Stripped(u))
    ensures ResolveText(FromSourceUrlCleared(u), text) == JoinError(Join(Stripped(u), text), text)
    ensures ResolveText(FromSourceUrlCleared(u), text) == ResolveText(FromSourceUrlClearedFixed(u), text)
  {
    var o := u.(path := Hier([""]));
    ClearedPlainJoin(u, o);
    ResolveViaSubpath(o, JoinSegs(u.path.segments), Stripped(u), text, UriTryFrom(text));
    FromSourceUrlClearedFixedSpec(u, text);
  }

  /** The subpath as written joins back onto the cleared URL when the path
      is plain. */
  lemma ClearedPlainJoin(u: Url, o: Url)
    requires ValidUrl(u) && u.path.Hier? && PlainPath(u.path.segments)
    requires u.path.segments == [""] ==> u.query.None?
    requires o == u.(path := Hier([""]))
    ensures Join(o, JoinSegs(u.path.segments)) == Ok(Stripped(u))
  {
    var segs := u.path.segments;
    if segs == [""] {
      assert JoinSegs(segs) == "" == QueryString(None) + FragmentString(None);
      JoinEmptyPath(o, None, None);
    } else {
      JoinPlain(o, segs, None, None);
      NoSuffix(JoinSegs(segs));
      PlainSegmentsKept(segs);
    }
  }

  /** Resolving against the corrected base is joining onto the source URL
      without its query and fragment, for every link; the base stands for
      that URL. */
  lemma FromSourceUrlClearedFixedSpec(u: Url, text: string)
    requires ValidUrl(u) && u.path.Hier? && u.scheme != FileScheme
    ensures FromSourceUrlClearedFixed(u) == Full(u.(path := Hier([""])), "./" + JoinSegs(u.path.segments))
    ensures ToUrl(FromSourceUrlClearedFixed(u)) == Some(Stripped(u))
    ensures ResolveText(FromSourceUrlClearedFixed(u), text) == JoinError(Join(Stripped(u), text), text)
  {
    var o := u.(path := Hier([""]));
    var sub := "./" + JoinSegs(u.path.segments);
    assert FromSourceUrlClearedFixed(u) == Full(o, sub);
    ClearedJoin(u, o, sub);
    ResolveViaSubpath(o, sub, Stripped(u), text, UriTryFrom(text));
  }

  /** On a full base whose subpath joins to `w`, resolving is joining onto
      `w`. */
  lemma ResolveViaSubpath(o: Url, sub: string, w: Url, text: string, p: Result<Url, ErrorKind>)
    requires o.scheme != FileScheme && Join(o, sub) == Ok(w) && p == UriTryFrom(text)
    ensures ResolveText(Full(o, sub), text) == JoinError(Join(w, text), text)
  {
    ErrorIsParseUrl(text, p);
    if p.Ok? {
      JoinWithScheme(w, text);
      ResolveTextOf(Full(o, sub), text, p, IsRootRelative(text));
    } else {
      JoinAllTwo(o, sub, text, w);
      var r := ApplyRootedBaseUrl(o, [sub, text]);
      assert r == JoinAll(o, [sub, text]);
      ResolveFullOf(o, sub, text, p, r);
    }
  }

  /** The corrected subpath joins back onto the cleared URL. */
  lemma ClearedJoin(u: Url, o: Url, sub: string)
    requires ValidUrl(u) && u.path.Hier?
    requires o == u.(path := Hier([""])) && sub == "./" + JoinSegs(u.path.segments)
    ensures Join(o, sub) == Ok(Stripped(u))
  {
    var segs := u.path.segments;
    ValidDescend(segs);
    JoinDotSlash(o, segs, None, None);
    NoSuffix(sub);
    assert Dir(o.path.segments) == [];
  }

  lemma NoSuffix(s: string)
    ensures s + QueryString(None) + FragmentString(None) == s
  {
  }

  lemma ValidDescend(segs: seq<string>)
    requires ValidSegments(segs)
    ensures forall x :: x in segs ==> SegmentChars(x)
    ensures RemoveDots([] + ["."] + segs) == segs
  {
    WalkDescend([], segs);
    assert [] + segs == segs;
  }

  /** As written, a source URL whose path begins with a segment that looks
      like `scheme:rest` gives a base on which every relative link with a
      path fails: the subpath is reread as a URL on another scheme, which
      cannot be a base. */
  lemma ClearedAsWrittenRereads(u: Url, scheme: string, rest: string, text: string)
    requires u.path.Hier? && u.scheme != FileScheme
    requires JoinSegs(u.path.segments) == scheme + ":" + rest
    requires ValidScheme(scheme) && scheme != FileScheme
    requires PathChars(rest) && (rest == "" || rest[0] != '/')
    requires StaysOnHost(text) && ParseReference(text).path != ""
    ensures FromSourceUrlCleared(u) == Full(u.(path := Hier([""])), scheme + ":" + rest)
    ensures ResolveText(FromSourceUrlCleared(u), text) == Err(ParseUrl(RelativeUrlWithCannotBeABaseBase, text))
  {
    var o := u.(path := Hier([""]));
    var sub := scheme + ":" + rest;
    var v := Url(scheme, None, Opaque(rest), None, None);
    JoinSchemeTextOf(o, scheme, rest, sub);
    JoinOpaqueFails(v, text);
    JoinAllTwo(o, sub, text, v);
    var r := ApplyRootedBaseUrl(o, [sub, text]);
    assert r == JoinAll(o, [sub, text]);
    var p := UriTryFrom(text);
    StaysNoParse(text, p);
    ResolveFullOf(o, sub, text, p, r);
  }

  /** A link with a path, joined onto a cannot-be-a-base URL, fails. */
  lemma JoinOpaqueFails(v: Url, text: string)
    requires v.path.Opaque? && StaysOnHost(text) && ParseReference(text).path != ""
    ensures Join(v, text) == Err(RelativeUrlWithCannotBeABaseBase)
  {
    var r := ParseReference(text);
    assert Join(v, text) == Resolve(Some(v), r);
  }

  /** A chain of two joins is the second join applied to the first. */
  lemma JoinAllTwo(o: Url, a: string, b: string, w: Url)
    requires Join(o, a) == Ok(w)
    ensures JoinAll(o, [a, b]) == Join(w, b)
  {
    assert [a, b][0] == a && [a, b][1..] == [b];
    assert [b][0] == b && [b][1..] == [];
    match Join(w, b)
    case Ok(x) => assert JoinAll(x, []) == Ok(x);
    case Err(_) =>
  }

  // ---------------------------------------------------------------------
  // Examples

  /** `https://a.com/a:b`: as written, the base built from it stands for
      `a:b`; with the corrected split it stands for the URL itself. */
  lemma SplitAsWrittenExample()
    ensures var u := Url("https", Some("a.com"), Hier(["a:b"]), None, None);
      && SplitUrlOriginAndPath(u) == Some((Origin(u), "a:b"))
      && ToUrl(FromSourceUrl(u)) == Some(Url("a", None, Opaque("b"), None, None))
      && ToUrl(FromSourceUrlFixed(u)) == Some(u)
  {
    var u := Url("https", Some("a.com"), Hier(["a:b"]), None, None);
    ExampleText();
    SplitAsWrittenRereads(u, "a", "b");
    ExampleValid(u);
    FromSourceUrlFixedRoundTrip(u);
  }

  lemma ExampleText()
    ensures "a" + ":" + "b" == "a:b"
    ensures ValidScheme("a") && "a" != FileScheme && PathChars("b")
  {
  }

  lemma ExampleValid(u: Url)
    requires u == Url("https", Some("a.com"), Hier(["a:b"]), None, None)
    ensures ValidUrl(u)
  {
    assert ValidScheme("https");
    assert forall x :: x in ["a:b"] ==> x == "a:b";
    assert ValidSegment("a:b");
  }

  /** `https://example.com/a:b/page.html` with the link `x.html`: as
      written the link fails; with the corrected subpath it resolves next
      to the page. */
  lemma ClearedAsWrittenExample(u: Url, t: string)
    requires u == Url("https", Some("example.com"), Hier(["a:b", "page.html"]), None, None)
    requires t == "x.html"
    ensures ResolveText(FromSourceUrlCleared(u), t) == Err(ParseUrl(RelativeUrlWithCannotBeABaseBase, t))
    ensures ResolveText(FromSourceUrlClearedFixed(u), t)
         == Ok(Url("https", Some("example.com"), Hier(["a:b", "x.html"]), None, None))
  {
    ClearedExampleText(u);
    XHtmlText(t);
    ClearedAsWrittenRereads(u, "a", "b/page.html", t);
    ClearedExampleValid(u);
    FromSourceUrlClearedFixedSpec(u, t);
    XHtmlJoin(Stripped(u), t);
  }

  lemma ClearedExampleText(u: Url)
    requires u == Url("https", Some("example.com"), Hier(["a:b", "page.html"]), None, None)
    ensures JoinSegs(u.path.segments) == "a" + ":" + "b/page.html"
    ensures ValidScheme("a") && "a" != FileScheme && PathChars("b/page.html")
  {
    assert JoinSegs(["page.html"]) == "page.html";
    assert ["a:b", "page.html"][1..] == ["page.html"];
  }

  lemma ClearedExampleValid(u: Url)
    requires u == Url("https", Some("example.com"), Hier(["a:b", "page.html"]), None, None)
    ensures ValidUrl(u)
  {
    var segs := u.path.segments;
    assert |segs| == 2;
    SegmentOk(segs[0], "a:b");
    SegmentOk(segs[1], "page.html");
    forall x | x in segs
      ensures ValidSegment(x)
    {
      if x != segs[0] {
        assert x == segs[1];
      }
    }
  }

  lemma SegmentOk(x: string, lit: string)
    requires x == lit && (lit == "a:b" || lit == "page.html" || lit == "x.html")
    ensures ValidSegment(x)
  {
  }

  /** `x.html` is a relative path without query or fragment. */
  lemma XHtmlText(t: string)
    requires t == "x.html"
    ensures ParseReference(t) == Reference(None, None, t, None, None)
    ensures StaysOnHost(t) && ParseReference(t).path != ""
  {
    assert |t| == 6 && t[1] == '.' && t[2] == 'h' && t[3] == 't' && t[4] == 'm' && t[5] == 'l';
    assert ScanScheme(t, 6) == None;
    assert ScanScheme(t, 5) == None;
    assert ScanScheme(t, 4) == None;
    assert ScanScheme(t, 3) == None;
    assert ScanScheme(t, 2) == None;
    assert ScanScheme(t, 1) == None;
    assert SchemeEnd(t) == None;
    assert PathChars(t) && !StartsWith(t, "//");
    RelativeTextOf(t);
  }

  lemma XHtmlJoin(b: Url, t: string)
    requires b == Url("https", Some("example.com"), Hier(["a:b", "page.html"]), None, None)
    requires t == "x.html"
    ensures Join(b, t) == Ok(Url("https", Some("example.com"), Hier(["a:b", "x.html"]), None, None))
  {
    XHtmlText(t);
    JoinRelativePath(b, t, Reference(None, None, t, None, None));
    var segs := Dir(b.path.segments) + Split(t);
    XHtmlSegments(b.path.segments, t, segs);
    WalkClean([], segs, []);
    assert segs + [] == segs && [] + segs == segs;
  }

  lemma XHtmlSegments(bs: seq<string>, t: string, segs: seq<string>)
    requires bs == ["a:b", "page.html"] && t == "x.html" && segs == Dir(bs) + Split(t)
    ensures segs == ["a:b", "x.html"] && NoDots(segs)
  {
    XHtmlSplit(t);
    assert Dir(bs) == [bs[0]];
    assert segs == [bs[0], t];
    SegmentOk(bs[0], "a:b");
    SegmentOk(t, "x.html");
    forall x | x in segs
      ensures !IsDot(x)
    {
      if x != bs[0] {
        assert x == t;
      }
    }
  }

  lemma XHtmlSplit(t: string)
    requires t == "x.html"
    ensures Split(t) == [t]
  {
    assert '/' !in t;
    SplitNoSlash(t);
  }
}
