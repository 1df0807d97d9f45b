/** An abstract model of the URL type the resolution engine works on
    (`url::Url`, re-exported by reqwest) and of the few operations it uses:
    parsing with and without a base, `set_host`, `path_segments_mut`,
    `make_relative`, serialisation.

    Parsing follows the URL Standard's input clean-up (trim C0 controls and
    spaces, drop tabs and newlines, percent-encode the other controls), then
    the reference decomposition of appendix B of RFC 3986, then relative
    resolution as in section 5.2 of RFC 3986 with the URL Standard's
    segment-wise removal of `.` and `..`. */
module Urls {
  import opened Results
  import opened Strings

  /** The `url::ParseError` kinds this model can produce. */
  datatype ParseError =
    | EmptyHost
    | RelativeUrlWithoutBase
    | RelativeUrlWithCannotBeABaseBase
    | SetHostOnCannotBeABaseUrl

  /** A hierarchical path, as its `/`-separated segments (`/a/b/` is
      `["a", "b", ""]`, `/` is `[""]`), or the opaque path of a
      cannot-be-a-base URL such as `mailto:x` or `data:...`. */
  datatype Path = Hier(segments: seq<string>) | Opaque(text: string)

  /** A URL. The host string carries the port, if any. */
  datatype Url = Url(
    scheme: string,
    host: Option<string>,
    path: Path,
    query: Option<string>,
    fragment: Option<string>)
  {
    /** `Url::cannot_be_a_base`. */
    predicate CannotBeABase() {
      path.Opaque?
    }
  }

  /** The five components of a reference, as split by appendix B of RFC 3986. */
  datatype Reference = Reference(
    scheme: Option<string>,
    authority: Option<string>,
    path: string,
    query: Option<string>,
    fragment: Option<string>)

  const FileScheme: string := "file"

  /** Schemes the URL Standard calls special. */
  predicate IsSpecial(scheme: string) {
    scheme in {"http", "https", "ws", "wss", "ftp", "file"}
  }

  predicate IsSchemeChar(c: char) {
    IsAsciiAlpha(c) || IsAsciiDigit(c) || c == '+' || c == '-' || c == '.'
  }

  predicate IsDot(s: string) {
    s == "." || s == ".."
  }

  function ScanScheme(s: string, i: nat): (r: Option<nat>)
    requires 1 <= i <= |s|
    ensures r.Some? ==> i <= r.value < |s| && s[r.value] == ':'
    ensures r.Some? ==> forall j :: i <= j < r.value ==> IsSchemeChar(s[j])
    decreases |s| - i
  {
    if i == |s| then None
    else if s[i] == ':' then Some(i)
    else if IsSchemeChar(s[i]) then ScanScheme(s, i + 1)
    else None
  }

  /** Position of the `:` that ends a scheme at the start of `s`, if any. */
  function SchemeEnd(s: string): (r: Option<nat>)
    ensures r.Some? ==> 1 <= r.value < |s| && s[r.value] == ':' && IsAsciiAlpha(s[0])
    ensures r.Some? ==> forall j :: 1 <= j < r.value ==> IsSchemeChar(s[j])
  {
    if |s| > 0 && IsAsciiAlpha(s[0]) then ScanScheme(s, 1) else None
  }

  /** Appendix B of RFC 3986: split off the fragment at the first `#`, the
      query at the first `?`, a leading scheme, and an authority introduced
      by `//`. */
  function Decompose(s: string): Reference
  {
    var f := SplitOff(s, '#');
    var q := SplitOff(f.0, '?');
    SplitScheme(q.0, q.1, f.1)
  }

  /** The scheme, if any, of the text before query and fragment, then the
      authority and path of the rest. */
  function SplitScheme(body: string, query: Option<string>, fragment: Option<string>): Reference
  {
    var colon := SchemeEnd(body);
    var scheme := if colon.Some? then Some(Lower(body[..colon.value])) else None;
    var hier := if colon.Some? then body[colon.value + 1..] else body;
    Hierarchy(scheme, hier, query, fragment)
  }

  /** The authority and path of what follows the scheme: an authority is
      introduced by `//` and runs up to the next `/`. */
  function Hierarchy(scheme: Option<string>, hier: string, query: Option<string>, fragment: Option<string>): (r: Reference)
    ensures r.scheme == scheme && r.query == query && r.fragment == fragment
    ensures r.authority.None? <==> !StartsWith(hier, "//")
    ensures r.authority.None? ==> r.path == hier
    ensures r.authority.Some? ==> hier == "//" + r.authority.value + r.path
    ensures r.authority.Some? ==> '/' !in r.authority.value && (r.path == "" || r.path[0] == '/')
  {
    if StartsWith(hier, "//") then
      var rest := hier[2..];
      var slash := FindFirst(rest, '/');
      var authority := if slash.Some? then rest[..slash.value] else rest;
      var path := if slash.Some? then rest[slash.value..] else "";
      assert hier == "//" + rest;
      assert rest == authority + path;
      Reference(scheme, Some(authority), path, query, fragment)
    else
      Reference(scheme, None, hier, query, fragment)
  }

  /** The reference a link text denotes, after the URL Standard's clean-up. */
  function ParseReference(text: string): Reference
  {
    Decompose(Encode(TrimC0End(TrimC0Start(text))))
  }

  /** Segment-wise dot removal (section 5.2.4 of RFC 3986, in the URL
      Standard's form): `..` drops the previous segment, `.` is skipped, and
      either one in last position leaves an empty final segment. */
  function Walk(acc: seq<string>, rest: seq<string>): (r: seq<string>)
    ensures |acc| + |rest| > 0 ==> |r| > 0
    decreases |rest|
  {
    if |rest| == 0 then acc
    else
      var tail := if |rest| == 1 then [""] else [];
      if rest[0] == ".." then
        Walk((if |acc| > 0 then acc[..|acc| - 1] else acc) + tail, rest[1..])
      else if rest[0] == "." then
        Walk(acc + tail, rest[1..])
      else
        Walk(acc + [rest[0]], rest[1..])
  }

  function RemoveDots(segs: seq<string>): seq<string>
  {
    Walk([], segs)
  }

  /** All segments but the last: the "directory" of a path. */
  function Dir(segs: seq<string>): seq<string>
  {
    if |segs| == 0 then [] else segs[..|segs| - 1]
  }

  /** The last segment: the "file name" of a path. */
  function Last(segs: seq<string>): string
  {
    if |segs| == 0 then "" else segs[|segs| - 1]
  }

  /** The segments of a path text that starts at the root. */
  function AbsolutePath(p: string): seq<string>
  {
    if |p| == 0 then [""]
    else if p[0] == '/' then RemoveDots(Split(p[1..]))
    else RemoveDots(Split(p))
  }

  /** A URL with an authority; special schemes other than `file` refuse an
      empty host, and `file` maps an empty host to no host. */
  function WithAuthority(scheme: string, authority: string, r: Reference): Result<Url, ParseError>
  {
    if authority == "" && IsSpecial(scheme) && scheme != FileScheme then Err(EmptyHost)
    else
      var host := if authority == "" && scheme == FileScheme then None else Some(authority);
      Ok(Url(scheme, host, Hier(AbsolutePath(r.path)), r.query, r.fragment))
  }

  /** Resolution of a reference against an optional base (section 5.2.2 of
      RFC 3986; a base with an opaque path accepts only a fragment). */
  function Resolve(base: Option<Url>, r: Reference): Result<Url, ParseError>
  {
    if r.scheme.Some? then
      var s := r.scheme.value;
      if r.authority.Some? then WithAuthority(s, r.authority.value, r)
      else if s == FileScheme || StartsWith(r.path, "/") then
        Ok(Url(s, None, Hier(AbsolutePath(r.path)), r.query, r.fragment))
      else
        Ok(Url(s, None, Opaque(r.path), r.query, r.fragment))
    else if base.None? then Err(RelativeUrlWithoutBase)
    else
      var b := base.value;
      match b.path
      case Opaque(_) =>
        if r.authority.None? && r.path == "" && r.query.None? && r.fragment.Some? then
          Ok(b.(fragment := r.fragment))
        else
          Err(RelativeUrlWithCannotBeABaseBase)
      case Hier(segs) =>
        if r.authority.Some? then WithAuthority(b.scheme, r.authority.value, r)
        else if r.path == "" then
          Ok(Url(b.scheme, b.host, b.path, if r.query.Some? then r.query else b.query, r.fragment))
        else if r.path[0] == '/' then
          Ok(Url(b.scheme, b.host, Hier(AbsolutePath(r.path)), r.query, r.fragment))
        else
          Ok(Url(b.scheme, b.host, Hier(RemoveDots(Dir(segs) + Split(r.path))), r.query, r.fragment))
  }

  /** `Url::parse`: text without a scheme never parses on its own; text
      with one usually does, but may still fail, for instance on the empty
      host of `http://`. */
  function Parse(text: string): Result<Url, ParseError>
  {
    Resolve(None, ParseReference(text))
  }

  /** `Url::join`. */
  function Join(base: Url, text: string): Result<Url, ParseError>
  {
    var r := ParseReference(text);
    Resolve(Some(base), r)
  }

  /** `Url::set_host(Some(host))`. */
  function SetHost(u: Url, host: string): (r: Result<Url, ParseError>)
    ensures r.Ok? <==> !u.CannotBeABase()
    ensures r.Ok? ==> r.value == u.(host := Some(host))
  {
    if u.CannotBeABase() then Err(SetHostOnCannotBeABaseUrl) else Ok(u.(host := Some(host)))
  }

  /** `Url::path`: the serialised path. */
  function PathString(u: Url): string
  {
    match u.path
    case Hier(segs) => "/" + JoinSegs(segs)
    case Opaque(t) => t
  }

  function QueryString(q: Option<string>): string
  {
    if q.Some? then "?" + q.value else ""
  }

  function FragmentString(f: Option<string>): string
  {
    if f.Some? then "#" + f.value else ""
  }

  /** `Url::to_string`. */
  function Serialize(u: Url): string
  {
    var authority :=
      if u.host.Some? then "//" + u.host.value
      else if u.scheme == FileScheme && u.path.Hier? then "//"
      else "";
    u.scheme + ":" + authority + PathString(u) + QueryString(u.query) + FragmentString(u.fragment)
  }

  /** `path_segments_mut().clear()`: the path becomes `/`; refused for a
      cannot-be-a-base URL. */
  function ClearPath(u: Url): (r: Option<Url>)
    ensures r.Some? <==> !u.CannotBeABase()
    ensures r.Some? ==> r.value.path == Hier([""]) && r.value == u.(path := r.value.path)
  {
    if u.CannotBeABase() then None else Some(u.(path := Hier([""])))
  }

  /** `path_segments_mut().pop_if_empty()`, with the error of a
      cannot-be-a-base URL ignored as the caller does: drops a final empty
      segment unless it is the only one. */
  function PopIfEmpty(u: Url): (r: Url)
    ensures r.scheme == u.scheme && r.host == u.host && r.query == u.query && r.fragment == u.fragment
    ensures r != u <==> u.path.Hier? && |u.path.segments| >= 2 && Last(u.path.segments) == ""
    ensures r != u ==> r.path == Hier(Dir(u.path.segments))
  {
    match u.path
    case Hier(segs) =>
      if |segs| >= 2 && Last(segs) == "" then
        assert |Dir(segs)| < |segs|;
        u.(path := Hier(Dir(segs)))
      else u
    case Opaque(_) => u
  }

  /** Longest common prefix length of two segment lists. */
  function CommonPrefix(a: seq<string>, b: seq<string>): (k: nat)
    ensures k <= |a| && k <= |b| && a[..k] == b[..k]
    ensures k < |a| && k < |b| ==> a[k] != b[k]
  {
    if |a| == 0 || |b| == 0 || a[0] != b[0] then 0
    else
      var k := CommonPrefix(a[1..], b[1..]);
      assert a[..k + 1] == [a[0]] + a[1..][..k];
      assert b[..k + 1] == [b[0]] + b[1..][..k];
      k + 1
  }

  /** How many segments precede the first empty one. */
  function CountUntilEmpty(segs: seq<string>): (n: nat)
    ensures n <= |segs|
    ensures forall i :: 0 <= i < n ==> segs[i] != ""
    ensures n < |segs| ==> segs[n] == ""
  {
    if |segs| == 0 || segs[0] == "" then 0 else 1 + CountUntilEmpty(segs[1..])
  }

  /** Appends `piece` to `acc` with a `/`, except that nothing separates a
      piece from an empty accumulator. */
  function Push(acc: string, piece: string): string
  {
    if acc == "" then piece else acc + "/" + piece
  }

  function Accumulate(acc: string, pieces: seq<string>): string
    decreases |pieces|
  {
    if |pieces| == 0 then acc else Accumulate(Push(acc, pieces[0]), pieces[1..])
  }

  /** The directory pieces `make_relative` compares: an empty piece for the
      leading `/` followed by all but the file name. */
  function DirPieces(u: Url): seq<string>
    requires u.path.Hier?
  {
    [""] + Dir(u.path.segments)
  }

  /** `Url::make_relative` as rust-url 2.x writes it: skip the common
      directory prefix, emit `..` for each remaining base directory up to
      the first empty one, then the remaining directories of `url` and its
      file name, each appended by `Push`; then query and fragment of `url`.
      A first piece that contains `:` and a leading empty piece are emitted
      as they are. A target with an opaque path is refused here. */
  function MakeRelative(base: Url, url: Url): Option<string>
  {
    if base.CannotBeABase() || url.CannotBeABase() then None
    else if base.scheme != url.scheme || base.host != url.host then None
    else
      var bd := DirPieces(base);
      var ud := DirPieces(url);
      var k := CommonPrefix(bd, ud);
      var rel := Accumulate("", Repeat("..", CountUntilEmpty(bd[k..])) + ud[k..]);
      var bf := Last(base.path.segments);
      var uf := Last(url.path.segments);
      var rel :=
        if rel != "" || bf != uf then
          (if uf == "" then rel + "/" else Push(rel, uf))
        else rel;
      Some(rel + QueryString(url.query) + FragmentString(url.fragment))
  }

  /** The path pieces `MakeRelativeFixed` emits: one `..` per unmatched base
      directory, then the unmatched directories and the file name of `url`. */
  function RelativePieces(base: Url, url: Url): seq<string>
    requires base.path.Hier? && url.path.Hier?
  {
    var bd := DirPieces(base);
    var ud := DirPieces(url);
    var k := CommonPrefix(bd, ud);
    Repeat("..", |bd| - k) + ud[k..] + [Last(url.path.segments)]
  }

  /** True when `url` is `base` up to fragment: same directories, same file
      name, and a query that joining an empty path would reproduce. */
  predicate SameResource(base: Url, url: Url)
    requires base.path.Hier? && url.path.Hier?
  {
    base.path == url.path && (url.query.Some? || base.query.None?)
  }

  /** `make_relative` with its two defects removed: the path part is written
      as `./` followed by all pieces joined with `/`, so that no piece can be
      read as a scheme or an authority and empty pieces survive; it is left
      empty only when `url` is `base` up to fragment. */
  function MakeRelativeFixed(base: Url, url: Url): Option<string>
  {
    if base.CannotBeABase() || url.CannotBeABase() then None
    else if base.scheme != url.scheme || base.host != url.host then None
    else
      var pathText := if SameResource(base, url) then "" else "./" + JoinSegs(RelativePieces(base, url));
      Some(pathText + QueryString(url.query) + FragmentString(url.fragment))
  }

  predicate IsPrefix(a: seq<string>, b: seq<string>) {
    |a| <= |b| && b[..|a|] == a
  }

  /** `url` lies under `prefix`: same scheme and host, and the directory of
      `prefix` is a leading part of the directory of `url`. */
  predicate IsUnder(url: Url, prefix: Url) {
    && url.path.Hier? && prefix.path.Hier?
    && url.scheme == prefix.scheme && url.host == prefix.host
    && IsPrefix(Dir(prefix.path.segments), Dir(url.path.segments))
  }

  /** lychee's `strictly_relative_to` (and its draft name `strip_prefix`):
      the relative text leading from `prefix` to `url`, only for URLs under
      `prefix`. */
  function StrictlyRelativeTo(url: Url, prefix: Url): (r: Option<string>)
    ensures r.Some? <==> IsUnder(url, prefix)
  {
    if IsUnder(url, prefix) then MakeRelativeFixed(prefix, url) else None
  }

  // Well-formedness of parsed URLs: what the parser guarantees of its output.

  predicate PathChars(s: string) {
    NoCtl(s) && '?' !in s && '#' !in s
  }

  predicate SegmentChars(s: string) {
    PathChars(s) && '/' !in s
  }

  predicate ValidSegment(s: string) {
    SegmentChars(s) && !IsDot(s)
  }

  predicate QueryChars(s: string) {
    NoCtl(s) && '#' !in s
  }

  predicate ValidScheme(s: string) {
    && |s| > 0 && IsAsciiAlpha(s[0])
    && (forall i :: 0 <= i < |s| ==> IsSchemeChar(s[i]) && !('A' <= s[i] <= 'Z'))
  }

  predicate ValidSegments(segs: seq<string>) {
    |segs| >= 1 && forall x :: x in segs ==> ValidSegment(x)
  }

  predicate ValidPath(p: Path) {
    match p
    case Hier(segs) => ValidSegments(segs)
    case Opaque(t) => PathChars(t) && !StartsWith(t, "/")
  }

  /** What every URL the parser produces satisfies. */
  predicate ValidUrl(u: Url) {
    && ValidScheme(u.scheme)
    && (u.host.Some? ==> SegmentChars(u.host.value))
    && ValidPath(u.path)
    && (u.query.Some? ==> QueryChars(u.query.value))
    && (u.fragment.Some? ==> NoCtl(u.fragment.value))
  }
}
