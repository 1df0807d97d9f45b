/** Preparing the base of one input source and resolving the links found in
    it (`prepare_source_base_info` and `parse_url_with_base_info` in
    `base_mapping.rs`). */
module Resolution {
  import opened Results
  import opened Strings
  import opened Urls
  import opened UrlLaws
  import opened ErrorKinds
  import opened Mappings
  import opened Bases

  /** The root directory and the optional base URL given together, after
      their conversion to URLs (`Base::to_url`); each conversion is an input
      here and may have failed. */
  datatype RootAndBase = RootAndBase(root: Result<Url, ErrorKind>, base: Option<Result<Url, ErrorKind>>)

  /** `prepare_source_base_info`: `source` is the source's own URL (`None`
      for standard input and strings), `rootAndBase` the root directory and
      base URL options, `fallback` the fallback base. Errors come in the
      order root, base, fallback, mappings, source; without any, the
      mappings are the options' one pair, and a source without a URL gets
      the fallback base or none. */
  function PrepareSourceBaseInfo(
    source: Result<Option<Url>, ErrorKind>,
    rootAndBase: Option<RootAndBase>,
    fallback: Option<Result<Url, ErrorKind>>): (r: Result<(BaseInfo, UrlMappings), ErrorKind>)
    ensures rootAndBase.Some? && rootAndBase.value.root.Err? ==> r == Err(rootAndBase.value.root.error)
    ensures (rootAndBase.Some? && rootAndBase.value.root.Ok? && rootAndBase.value.base.Some? &&
             rootAndBase.value.base.value.Err?) ==> r == Err(rootAndBase.value.base.value.error)
    ensures OptionsConverted(rootAndBase) && fallback.Some? && fallback.value.Err? ==> r == Err(fallback.value.error)
    ensures OptionsConverted(rootAndBase) && FallbackConverted(fallback) && New(PairsOf(rootAndBase)).Err? ==>
            r == Err(New(PairsOf(rootAndBase)).error)
    ensures (OptionsConverted(rootAndBase) && FallbackConverted(fallback) && New(PairsOf(rootAndBase)).Ok? &&
             source.Err?) ==> r == Err(source.error)
    ensures r.Ok? <==> OptionsConverted(rootAndBase) && FallbackConverted(fallback)
                       && New(PairsOf(rootAndBase)).Ok? && source.Ok?
    ensures r.Ok? ==> r.value.1 == UrlMappings(PairsOf(rootAndBase))
    ensures r.Ok? && source.value.None? ==> r.value.0 == FallbackInfo(fallback)
  {
    var pairs :- (match rootAndBase
      case None => Ok([])
      case Some(RootAndBase(rootUrl, baseUrl)) =>
        var root :- rootUrl;
        var base :- (match baseUrl case None => Ok(root) case Some(b) => b);
        Ok([Pair(root, base)]));
    var fallbackInfo :- (match fallback
      case None => Ok(NoInfo)
      case Some(f) =>
        var u :- f;
        Ok(Full(u, "")));
    var mappings :- New(pairs);
    var sourceUrl :- source;
    var info := match sourceUrl
      case None => NoInfo
      case Some(s) =>
        match MapToOldUrl(mappings, s)
        case Some((remote, subpath)) => Full(remote, subpath)
        case None => FromSourceUrlCleared(s);
    Ok((OrFallback(info, fallbackInfo), mappings))
  }

  /** `parse_url_with_base_info`: the link text resolved against the base, a
      remote result moved to its local counterpart when a mapping matches
      (kept as it is when that join fails), and a trailing empty segment
      dropped from a `file:` URL. */
  function ParseUrlWithBaseInfo(b: BaseInfo, m: UrlMappings, text: string): Result<Url, ErrorKind>
  {
    var url :- ResolveText(b, text);
    Ok(MapAndClean(m, url))
  }

  /** What `parse_url_with_base_info` does to a resolved URL: move it by the
      first matching mapping when the join succeeds, then drop one trailing
      empty segment of a `file:` URL. */
  function MapAndClean(m: UrlMappings, url: Url): Url
  {
    var mapped := match MapToNewUrl(m, url)
      case Some((local, subpath)) => Join(local, subpath).ToOption()
      case None => None;
    var url' := if mapped.Some? then mapped.value else url;
    if url'.scheme == FileScheme then PopIfEmpty(url') else url'
  }

  // ---------------------------------------------------------------------
  // Reference definitions

  /** Both options converted without error. */
  predicate OptionsConverted(rb: Option<RootAndBase>) {
    rb.Some? ==> rb.value.root.Ok? && (rb.value.base.Some? ==> rb.value.base.value.Ok?)
  }

  predicate FallbackConverted(fallback: Option<Result<Url, ErrorKind>>) {
    fallback.Some? ==> fallback.value.Ok?
  }

  /** The single mapping the options describe: the root directory against
      the base URL, or against itself when no base is given. */
  function PairsOf(rb: Option<RootAndBase>): seq<Pair>
    requires OptionsConverted(rb)
  {
    if rb.None? then []
    else
      var root := rb.value.root.value;
      [Pair(root, if rb.value.base.Some? then rb.value.base.value.value else root)]
  }

  /** The base to fall back on: the fallback URL with an empty subpath. */
  function FallbackInfo(fallback: Option<Result<Url, ErrorKind>>): BaseInfo
    requires FallbackConverted(fallback)
  {
    if fallback.Some? then Full(fallback.value.value, "") else NoInfo
  }

  /** The URL a link gets before the `file:` clean-up: its resolution, or
      where a mapping moves it. */
  function Moved(m: UrlMappings, url: Url): Url
  {
    var mv := MapToNewUrl(m, url);
    if mv.Some? && Join(mv.value.0, mv.value.1).Ok? then Join(mv.value.0, mv.value.1).value else url
  }

  // ---------------------------------------------------------------------
  // Laws of `prepare_source_base_info`

  /** A root directory without a base URL is its own base: the one mapping
      pairs it with itself, which never conflicts. */
  lemma RootIsItsOwnBase(source: Option<Url>, root: Url, fallback: Option<Result<Url, ErrorKind>>)
    requires FallbackConverted(fallback)
    ensures var r := PrepareSourceBaseInfo(Ok(source), Some(RootAndBase(Ok(root), None)), fallback);
      r.Ok? && r.value.1 == UrlMappings([Pair(root, root)])
  {
    ConflictingSpec(Pair(root, root));
  }

  /** A fallback base makes every source's base a full one; the fallback
      itself is used exactly when the source alone gives no full base. */
  lemma FallbackGivesFull(source: Option<Url>, rb: Option<RootAndBase>, f: Url)
    requires OptionsConverted(rb) && New(PairsOf(rb)).Ok?
    ensures var r := PrepareSourceBaseInfo(Ok(source), rb, Some(Ok(f)));
      && r.Ok? && r.value.0.Full?
      && (r.value.0 == Full(f, "") <== !PrepareSourceBaseInfo(Ok(source), rb, None).value.0.Full?)
      && (PrepareSourceBaseInfo(Ok(source), rb, None).value.0.Full? ==>
            r.value.0 == PrepareSourceBaseInfo(Ok(source), rb, None).value.0)
  {
  }

  /** A local source below the root directory takes the base URL as its
      base: the base stands for the source moved from the root to the base
      URL. */
  lemma LocalSourceUnderRoot(s: Url, root: Url, base: Url, fallback: Option<Result<Url, ErrorKind>>)
    requires ValidPair(Pair(root, base)) && !Conflicting(Pair(root, base))
    requires ValidUrl(s) && IsUnder(s, root) && FallbackConverted(fallback)
    ensures var r := PrepareSourceBaseInfo(Ok(Some(s)), Some(RootAndBase(Ok(root), Some(Ok(base)))), fallback);
      && r.Ok? && r.value.0 == Full(base, StrictlyRelativeTo(s, root).value)
      && ToUrl(r.value.0) == Some(Rebase(s, root, base))
  {
    var p := Pair(root, base);
    var sub := StrictlyRelativeTo(s, root).value;
    SinglePairMatch(p, s, Left);
    PrepareMatched(s, Some(RootAndBase(Ok(root), Some(Ok(base)))), fallback, base, sub);
    MapUrlJoinAt(p, s, Left, base, sub);
  }

  /** A source the mappings match takes the matched remote URL and its
      subpath as its base, whatever the fallback. */
  lemma PrepareMatched(s: Url, rb: Option<RootAndBase>, fallback: Option<Result<Url, ErrorKind>>, remote: Url, sub: string)
    requires OptionsConverted(rb) && FallbackConverted(fallback) && New(PairsOf(rb)).Ok?
    requires MapToOldUrl(UrlMappings(PairsOf(rb)), s) == Some((remote, sub))
    ensures PrepareSourceBaseInfo(Ok(Some(s)), rb, fallback) == Ok((Full(remote, sub), UrlMappings(PairsOf(rb))))
  {
  }

  /** With a single pair, a URL under its `side` URL is matched by it. */
  lemma SinglePairMatch(p: Pair, url: Url, side: Side)
    requires IsUnder(url, Matched(p, side))
    ensures MapUrl(UrlMappings([p]), url, side) == Some((Other(p, side), StrictlyRelativeTo(url, Matched(p, side)).value))
  {
    MapUrlFirst(UrlMappings([p]), url, side, 0);
  }

  /** A web source that no mapping matches is its own base, whatever the
      fallback: when its path is plain (and it has no query at the root
      `/`), links resolve against its URL without query and fragment, as
      with the corrected base. */
  lemma RemoteSourceUnmapped(s: Url, rb: Option<RootAndBase>, fallback: Option<Result<Url, ErrorKind>>, text: string)
    requires OptionsConverted(rb) && FallbackConverted(fallback) && New(PairsOf(rb)).Ok?
    requires ValidUrl(s) && s.path.Hier? && s.scheme != FileScheme
    requires MapToOldUrl(UrlMappings(PairsOf(rb)), s).None?
    ensures var r := PrepareSourceBaseInfo(Ok(Some(s)), rb, fallback);
      && r.Ok? && r.value.0 == FromSourceUrlCleared(s)
      && r.value.0 == Full(s.(path := Hier([""])), JoinSegs(s.path.segments))
    ensures PlainPath(s.path.segments) && (s.path.segments == [""] ==> s.query.None?) ==>
      var b := PrepareSourceBaseInfo(Ok(Some(s)), rb, fallback).value.0;
      && ToUrl(b) == Some(Stripped(s))
      && ResolveText(b, text) == JoinError(Join(Stripped(s), text), text)
      && ResolveText(b, text) == ResolveText(FromSourceUrlClearedFixed(s), text)
  {
    if PlainPath(s.path.segments) && (s.path.segments == [""] ==> s.query.None?) {
      FromSourceUrlClearedSpec(s, text);
    }
  }

  /** A local file that no mapping matches has no root: its base is the file
      itself, unless a fallback base is given. */
  lemma LocalSourceUnmapped(s: Url, rb: Option<RootAndBase>, fallback: Option<Result<Url, ErrorKind>>)
    requires OptionsConverted(rb) && FallbackConverted(fallback) && New(PairsOf(rb)).Ok?
    requires s.scheme == FileScheme && MapToOldUrl(UrlMappings(PairsOf(rb)), s).None?
    ensures var r := PrepareSourceBaseInfo(Ok(Some(s)), rb, fallback);
      && r.Ok?
      && (fallback.None? ==> r.value.0 == NoRoot(s))
      && (fallback.Some? ==> r.value.0 == Full(fallback.value.value, ""))
  {
  }

  // ---------------------------------------------------------------------
  // Laws of `parse_url_with_base_info`

  /** Only the resolution of the text can fail, and its error is passed on
      unchanged; a success is the moved URL, cleaned up for `file:`. */
  lemma ParseErrors(b: BaseInfo, m: UrlMappings, text: string)
    ensures var r := ParseUrlWithBaseInfo(b, m, text);
      && (r.Ok? <==> ResolveText(b, text).Ok?)
      && (r.Err? ==> r == Err(ResolveText(b, text).error))
      && (r.Ok? ==> r.value == PopIfFile(Moved(m, ResolveText(b, text).value)))
  {
    ParseOf(b, m, text, ResolveText(b, text));
  }

  /** `ParseUrlWithBaseInfo` in terms of the resolution `res` of the text. */
  lemma ParseOf(b: BaseInfo, m: UrlMappings, text: string, res: Result<Url, ErrorKind>)
    requires res == ResolveText(b, text)
    ensures ParseUrlWithBaseInfo(b, m, text)
         == if res.Ok? then Ok(PopIfFile(Moved(m, res.value))) else Err(res.error)
  {
    if res.Ok? {
      MapAndCleanIsMoved(m, res.value);
    }
  }

  /** The mapping step agrees with `Moved` followed by the clean-up. */
  lemma MapAndCleanIsMoved(m: UrlMappings, url: Url)
    ensures MapAndClean(m, url) == PopIfFile(Moved(m, url))
  {
  }

  /** A resolved URL that no mapping matches is returned as it is, except
      that a `file:` URL loses one trailing empty segment. */
  lemma ParseUnmapped(b: BaseInfo, m: UrlMappings, text: string, u: Url)
    requires ResolveText(b, text) == Ok(u) && MapToNewUrl(m, u).None?
    ensures var r := ParseUrlWithBaseInfo(b, m, text);
      && r.Ok? && r.value.scheme == u.scheme && r.value.host == u.host
      && r.value.query == u.query && r.value.fragment == u.fragment
      && (u.scheme != FileScheme ==> r == Ok(u))
      && (r.value != u <==> u.scheme == FileScheme && u.path.Hier? && |u.path.segments| >= 2
                            && Last(u.path.segments) == "")
  {
  }

  /** A resolved URL under a mapped remote base is checked at the local
      counterpart: the mapping's join always succeeds and lands under the
      local URL. */
  lemma ParseMapped(b: BaseInfo, m: UrlMappings, text: string, u: Url)
    requires ValidPairs(m) && ResolveText(b, text) == Ok(u) && ValidUrl(u)
    requires MapToNewUrl(m, u).Some?
    ensures var (local, subpath) := MapToNewUrl(m, u).value;
      && Join(local, subpath).Ok? && IsUnder(Join(local, subpath).value, local)
      && ParseUrlWithBaseInfo(b, m, text) == Ok(PopIfFile(Join(local, subpath).value))
  {
    MapUrlJoin(m, u, Right);
  }

  /** The `file:` clean-up step on its own. */
  function PopIfFile(u: Url): Url {
    if u.scheme == FileScheme then PopIfEmpty(u) else u
  }

  /** With the one pair of a root directory and a base URL, a link that
      resolves below the base URL is checked at the same place below the
      root directory. */
  lemma RemoteLinkCheckedLocally(b: BaseInfo, root: Url, base: Url, text: string, u: Url)
    requires ValidPair(Pair(root, base)) && ResolveText(b, text) == Ok(u) && ValidUrl(u)
    requires IsUnder(u, base)
    ensures ParseUrlWithBaseInfo(b, UrlMappings([Pair(root, base)]), text) == Ok(PopIfFile(Rebase(u, base, root)))
    ensures IsUnder(Rebase(u, base, root), root)
  {
    var p := Pair(root, base);
    var m := UrlMappings([p]);
    var sub := StrictlyRelativeTo(u, base).value;
    SinglePairMatch(p, u, Right);
    MapUrlJoinAt(p, u, Right, root, sub);
    ParseMovedTo(b, m, text, u, root, sub, Rebase(u, base, root));
  }

  /** A resolved URL that the mappings move to `w` comes out as `w`,
      cleaned up for `file:`. */
  lemma ParseMovedTo(b: BaseInfo, m: UrlMappings, text: string, u: Url, local: Url, sub: string, w: Url)
    requires ResolveText(b, text) == Ok(u) && MapToNewUrl(m, u) == Some((local, sub)) && Join(local, sub) == Ok(w)
    ensures ParseUrlWithBaseInfo(b, m, text) == Ok(PopIfFile(w))
  {
  }
}
