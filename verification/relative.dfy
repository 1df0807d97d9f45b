/** Link text that does not parse on its own, sorted by how it is relative:
    scheme-relative (`//host/...`), root-relative (`/path`) or relative to
    the current document (`path`). */
module RelativeUris {
  import opened Results
  import opened Strings
  import opened Urls
  import opened UrlLaws
  import opened ErrorKinds

  /** The three kinds of relative link; each carries the link text with its
      leading ASCII whitespace removed. */
  datatype RelativeUri =
    | RootRel(text: string)
    | SchemeRel(text: string)
    | LocalRel(text: string)

  /** What `parse_url_or_relative` yields on success: a URL that parsed on
      its own (`Left`) or a classified relative link (`Right`). */
  datatype Parsed = Absolute(url: Url) | Relative(rel: RelativeUri)

  /** `RelativeUri::link_text`. */
  function LinkText(r: RelativeUri): string
  {
    match r
    case RootRel(x) => x
    case SchemeRel(x) => x
    case LocalRel(x) => x
  }

  /** `is_scheme_relative_link`: `//` after leading ASCII whitespace. */
  predicate IsSchemeRelativeLink(text: string)
  {
    StartsWith(TrimAsciiStart(text), "//")
  }

  /** `is_root_relative_link`: `/` after leading ASCII whitespace, and not
      scheme-relative. */
  predicate IsRootRelativeLink(text: string)
  {
    !IsSchemeRelativeLink(text) && StartsWith(TrimAsciiStart(text), "/")
  }

  /** The classification `parse_url_or_relative` applies to text that has
      no scheme, in terms of the first two characters once leading ASCII
      whitespace is gone; every variant carries the text back. */
  function Classify(text: string): (r: RelativeUri)
    ensures var u := TrimAsciiStart(text);
      && (r.SchemeRel? <==> |u| >= 2 && u[0] == '/' && u[1] == '/')
      && (r.RootRel? <==> |u| >= 1 && u[0] == '/' && (|u| == 1 || u[1] != '/'))
      && (r.LocalRel? <==> |u| == 0 || u[0] != '/')
    ensures LinkText(r) == text
  {
    StartsWithSlashes(TrimAsciiStart(text));
    if IsSchemeRelativeLink(text) then SchemeRel(text)
    else if IsRootRelativeLink(text) then RootRel(text)
    else LocalRel(text)
  }

  /** `parse_url_or_relative`: leading ASCII whitespace is trimmed; text
      that parses is a URL; text refused only for want of a base is
      classified; any other parse error is returned as it is. */
  function ParseUrlOrRelative(text: string): Result<Parsed, ErrorKind>
  {
    var t := TrimAsciiStart(text);
    match UriTryFrom(t)
    case Ok(u) => Ok(Absolute(u))
    case Err(e) =>
      if e.ParseUrl? && e.error == RelativeUrlWithoutBase then Ok(Relative(Classify(t)))
      else Err(e)
  }

  /** A link is never both scheme-relative and root-relative. */
  lemma Exclusive(text: string)
    ensures !(IsRootRelativeLink(text) && IsSchemeRelativeLink(text))
  {
  }

  lemma StartsWithSlashes(t: string)
    ensures StartsWith(t, "//") <==> |t| >= 2 && t[0] == '/' && t[1] == '/'
    ensures StartsWith(t, "/") <==> |t| >= 1 && t[0] == '/'
  {
    if |t| >= 2 {
      assert t[..2] == [t[0], t[1]];
    }
    if |t| >= 1 {
      assert t[..1] == [t[0]];
    }
  }

  /** Trimming is idempotent: the trimmed text is what the variants carry. */
  lemma TrimAsciiStartIdempotent(text: string)
    ensures TrimAsciiStart(TrimAsciiStart(text)) == TrimAsciiStart(text)
  {
    var t := TrimAsciiStart(text);
    assert |t| > 0 ==> !IsAsciiWhitespace(t[0]);
  }

  /** The outcomes of `parse_url_or_relative`: the trimmed text parses and
      is returned, or it is refused for want of a base and is classified
      with the trimmed text as its link text, or the parser's other error is
      returned, carrying the trimmed text. */
  lemma ParseUrlOrRelativeSpec(text: string)
    ensures var t := TrimAsciiStart(text);
      var r := ParseUrlOrRelative(text);
      && (r.Ok? && r.value.Absolute? <==> Parse(t).Ok?)
      && (r.Ok? && r.value.Absolute? ==> r.value.url == Parse(t).value)
      && (r.Ok? && r.value.Relative? <==> Parse(t) == Err(RelativeUrlWithoutBase))
      && (r.Ok? && r.value.Relative? ==> r.value.rel == Classify(t) && LinkText(r.value.rel) == t)
      && (r.Err? <==> Parse(t).Err? && Parse(t).error != RelativeUrlWithoutBase)
      && (r.Err? ==> r.error == ParseUrl(Parse(t).error, t))
  {
    var t := TrimAsciiStart(text);
    OutcomeOf(text, t, Parse(t));
    LinkTextClassify(t);
  }

  lemma LinkTextClassify(t: string)
    ensures LinkText(Classify(t)) == t
  {
  }

  lemma OutcomeOf(text: string, t: string, p: Result<Url, ParseError>)
    requires t == TrimAsciiStart(text) && p == Parse(t)
    ensures ParseUrlOrRelative(text)
         == match p
            case Ok(u) => Ok(Absolute(u))
            case Err(e) => if e == RelativeUrlWithoutBase then Ok(Relative(Classify(t))) else Err(ParseUrl(e, t))
  {
  }

  /** Text is classified exactly when, once trimmed, it has no scheme. */
  lemma RelativeIffNoScheme(text: string)
    ensures var r := ParseUrlOrRelative(text);
      r.Ok? && r.value.Relative? <==> ParseReference(TrimAsciiStart(text)).scheme.None?
  {
    var t := TrimAsciiStart(text);
    OutcomeOf(text, t, Parse(t));
    ParseShape(t);
  }

  /** Root-relative and scheme-relative links have no scheme, so they are
      always classified rather than parsed, and never as local links. */
  lemma LeadingSlashClassified(text: string)
    requires StartsWith(TrimAsciiStart(text), "/")
    ensures var r := ParseUrlOrRelative(text);
      r.Ok? && r.value.Relative? && !r.value.rel.LocalRel?
  {
    var t := TrimAsciiStart(text);
    StartsWithSlashes(t);
    TrimmedSlash(t);
    LeadingSlashNoScheme(t);
    RelativeIffNoScheme(text);
    ParseUrlOrRelativeSpec(text);
    TrimAsciiStartIdempotent(text);
    SlashNotLocal(t, TrimAsciiStart(t));
  }

  lemma SlashNotLocal(t: string, u: string)
    requires u == TrimAsciiStart(t) && u == t && |t| >= 1 && t[0] == '/'
    ensures !Classify(t).LocalRel?
  {
  }
}
