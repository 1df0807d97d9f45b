/** The error kinds of the resolution engine (lychee's `ErrorKind`, the
    variants this engine produces), and `Uri::try_from`, the parse of link
    text on its own that every entry point starts with. */
module ErrorKinds {
  import opened Results
  import opened Strings
  import opened Urls
  import opened UrlLaws

  datatype ErrorKind =
    /** The text did not parse; carries the parser's error and the text. */
    | ParseUrl(error: ParseError, text: string)
    /** A URL was refused as a base; carries the URL and the reason. */
    | InvalidBase(base: string, reason: string)
    /** A root-relative link met a base without a root. */
    | InvalidBaseJoin(text: string)
    /** A failure of a conversion outside this model (a path or an input
        source that does not become a URL). */
    | Conversion(reason: string)

  /** `Uri::try_from(&str)`: `Url::parse`, with a failure reported as
      `ParseUrl` together with the text. Link text fails with
      `RelativeUrlWithoutBase` exactly when it has no scheme, and a URL it
      parses to has the scheme the text starts with. */
  function UriTryFrom(text: string): (r: Result<Url, ErrorKind>)
    ensures r.Err? ==> r.error.ParseUrl? && r.error.text == text
    ensures r == Err(ParseUrl(RelativeUrlWithoutBase, text)) <==> ParseReference(text).scheme.None?
    ensures r.Ok? ==> ParseReference(text).scheme == Some(r.value.scheme)
  {
    ParseShape(text);
    match Parse(text)
    case Ok(u) => Ok(u)
    case Err(e) => Err(ParseUrl(e, text))
  }
}
