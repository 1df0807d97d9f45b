# lychee link resolution, modelled in Dafny

This project models the part of lychee that turns the raw text of a link
into a fully-qualified URL. It covers these pieces:

- **Classifying relative link text.** Text is scheme-relative `//host/...`,
  root-relative `/path` or locally relative (`lychee-lib/src/types/uri/relative.rs`).
- **The rooted join `apply_rooted_base_url`.** It folds `Url::join` over a
  list of subpaths. For a `file:` base it folds against a root `/`
  on a sentinel host, then moves the result below the real base, so that
  `..` cannot climb out of it (`lychee-lib/src/utils/url.rs`).
- **The base of a source.** This is the three-variant `BaseInfo`:
  - `NoInfo`: no base;
  - `NoRoot(url)`: a `file:` URL whose root directory is unknown;
  - `Full(origin, subpath)`: an origin and a subpath below it.

  The model covers its constructors, its queries, `or_fallback`, and both
  versions of `parse_url_text` (`lychee-lib/src/types/base_info.rs` and
  `lychee-lib/src/types/base_mapping.rs`). Those two files hold two drafts
  of one enum; it is modelled once.
- **URL mappings.** These are pairs of a local root directory and the remote
  base it stands for, looked up in either direction
  (`lychee-lib/src/types/url_mapping.rs`, and its copy in `base_mapping.rs`).
- **Orchestration.** `prepare_source_base_info` builds the base and mappings
  of one input source. `parse_url_with_base_info` resolves a link against
  them, moves remote results to their local copy, and drops a trailing
  empty segment from `file:` URLs.
- **`remove_get_params_and_separate_fragment`.** It splits a link into a path
  without parameters and a fragment.

## The URL model

A `Url` (module `Urls`) has:

- a scheme;
- an optional host;
- a path: either hierarchical (a sequence of segments, written `/a/b`) or
  opaque (the rest of a cannot-be-a-base URL such as `mailto:x`);
- an optional query;
- an optional fragment.

Parsing works in two steps:

1. The URL Standard's clean-up: leading and trailing C0 controls and spaces
   are trimmed, tabs and newlines are removed, and other controls are
   percent-encoded.
2. The decomposition of Appendix B of RFC 3986.

`Url::join` is the resolution of section 5.2.2 of RFC 3986. Dot segments
are removed segment by segment, as the URL Standard does (section 5.2.4 of
RFC 3986). A base with an opaque path accepts only a fragment.

Text without a scheme never parses on its own; the error is
`RelativeUrlWithoutBase`. Text with a scheme usually parses, but not always:
a special scheme other than `file` refuses an empty host, so `http://` fails
with `EmptyHost` (`UrlLaws.EmptyHostExample`).

The repository does not show rust-url, lychee's `Uri::try_from`, or
lychee's `ReqwestUrlExt` extension methods. The model defines them at
segment level, and these definitions are assumptions:

- **`Uri::try_from`** (`ErrorKinds.UriTryFrom`) is `Url::parse` of the text
  as given, with a failure reported as `ParseUrl` carrying that text.

- **`make_relative`** (`UrlLaws`, `Urls.MakeRelative`) follows rust-url 2.x:
  1. skip the common directory prefix;
  2. emit one `..` per remaining base directory;
  3. emit the remaining directories;
  4. emit the file name;
  5. append the query and the fragment.
- **`strictly_relative_to`** (named `strip_prefix` in `base_mapping.rs`) is
  `Urls.StrictlyRelativeTo`. It is defined only for URLs under the prefix
  (same scheme and host, and the prefix's directory leads the URL's
  directory). Its text is `./` followed by the relative path, then the
  query and fragment. This is `Urls.MakeRelativeFixed`, which joins back to
  the URL (`UrlLaws.MakeRelativeFixedInverse`).
- **`join_rooted`** is `UrlUtils.ApplyRootedBaseUrl`, the corrected
  `apply_rooted_base_url` of the third finding below. `Bases.ResolveText`,
  and through it `Bases.ParseUrlText` and
  `Resolution.ParseUrlWithBaseInfo`, join with it.
  `UrlUtils.RootedAgrees` shows that it agrees with the code as written
  (`UrlUtils.ApplyRootedBaseUrlAsWritten`) unless the chain of joins ends on
  the sentinel host with a first segment that is empty or holds a `:`.
  `Bases.ResolveTextAsWritten` carries that agreement over to
  `parse_url_text`.

### As written and corrected

The three findings below each have two versions in the model.

- **The constructors follow the code as written.** These are
  `Bases.SplitUrlOriginAndPath`, `Bases.FromSourceUrl`,
  `Bases.FromBaseUrl` and `Bases.FromSourceUrlCleared`.
  `Resolution.PrepareSourceBaseInfo` builds its base with
  `Bases.FromSourceUrlCleared`.
- **Their corrected twins end in `Fixed`.** Lemmas such as
  `Bases.FromSourceUrlAgrees` and `Bases.FromSourceUrlClearedSpec` show
  that both versions give the same base on a *plain* path: `/` alone, or
  a path whose first segment is neither empty nor holds a `:`.
- **`join_rooted` is the exception.** It is used in its corrected form, as
  described above.

The source's `Base::to_url` and `ResolvedInputSource::to_url` are parameters
of the model: a URL, or an error, supplied by the caller.

### Where the code and its documentation disagree (the model follows the code)

- **`url_mapping.rs:51-56` vs `url_mapping.rs:57-73`.** The doc comments say
  `map_to_new_url` matches the left (old) URLs and returns the right one.
  The code matches the right URL and returns the left one, and
  `map_to_old_url` does the reverse.
  - `prepare_source_base_info` builds each pair as (root directory, base URL).
  - So `map_to_old_url` takes a local source to the remote base.
  - `map_to_new_url` takes a resolved remote link back to the local root.
- **`base_mapping.rs:70-94`.** The doc comment says every cannot-be-a-base
  URL gives no base. In the code a `file:` URL is checked first and always
  gives `NoRoot`. `base_info.rs:72-88` is the same.
- **`parse_url_text` (both drafts).** It resolves against the base after
  *any* `ParseUrl` error, not only after `RelativeUrlWithoutBase`. The two
  readings differ on text that has a scheme and still fails, such as
  `http://`. The model follows the code. `Bases.SchemeTextIgnoresBase`
  shows the difference does not show in the result when the base's own
  part of the chain succeeds: such text comes back with its own parse
  error (`Bases.EmptyHostOnEveryBase`). On a base whose own join fails,
  that join's error is returned instead.
- **`UrlMappings::new`.** It compares the two sides within each pair only.
  Two pairs that nest across each other are accepted.

## Model

| member | source | states |
|---|---|---|
| RelativeUris.Exclusive | lychee-lib/src/types/uri/relative.rs:24-30 | no text is both root-relative and scheme-relative |
| RelativeUris.Classify | lychee-lib/src/types/uri/relative.rs:24-45 | after leading ASCII whitespace: `//` is scheme-relative, `/` not followed by `/` is root-relative, anything else (the empty text included) is local; every variant carries the text back |
| RelativeUris.ParseUrlOrRelativeSpec | lychee-lib/src/types/uri/relative.rs:32-49 | the trimmed text parses and is returned, or only for want of a base it is classified with the trimmed text as link text, or any other parse error comes back carrying the trimmed text; each outcome exactly when the parser gives it |
| RelativeUris.RelativeIffNoScheme | lychee-lib/src/types/uri/relative.rs:35-46 | text is classified exactly when, once trimmed, it has no scheme |
| RelativeUris.LeadingSlashClassified | lychee-lib/src/types/uri/relative.rs:38-45 | text starting with `/` is always classified, never as a local link |
| ErrorKinds.UriTryFrom | lychee-lib/src/types/uri/relative.rs:35-38 | link text fails with `RelativeUrlWithoutBase` exactly when it has no scheme; every failure is `ParseUrl` carrying the text; a parsed URL keeps the text's scheme |
| UrlUtils.RemoveGetParamsAndSeparateFragment | lychee-lib/src/utils/url.rs:11-21 | the path is the longest prefix free of `#` and `?`; the fragment is everything after the first `#`, absent exactly when there is no `#` |
| Strings.SplitOnce | lychee-lib/src/utils/url.rs:12-19 | `split_once` cuts at the first separator: the part before holds none of it, and nothing comes back exactly when the separator is absent |
| UrlUtils.FragmentCut | lychee-lib/src/utils/url.rs:12-15 | text with no `#` before the first `#` is the path part; everything after that `#`, further `#` included, is the fragment |
| UrlUtils.QueryAfterFragmentKept | lychee-lib/src/utils/url.rs:11-21 | a `?` after the `#` stays in the fragment; the parameters before it are dropped |
| UrlUtils.ParamsDropped | lychee-lib/src/utils/url.rs:16-19 | without a fragment, everything from the first `?` on is dropped, however many `?` follow |
| UrlUtils.FakeRoot | lychee-lib/src/utils/url.rs:37-44 | the sentinel root exists exactly for a base with a hierarchical path and is `/` on the host `secret-lychee-base-url.invalid` |
| Urls.SetHost | lychee-lib/src/utils/url.rs:40 | setting the host fails exactly on a cannot-be-a-base URL and otherwise changes the host alone |
| UrlUtils.JoinAllAppend | lychee-lib/src/utils/url.rs:46-49 | the chain of joins is a fold: joining `a + b` is joining `a`, then `b` from its result |
| UrlUtils.FirstErrorAborts | lychee-lib/src/utils/url.rs:47-49 | the first failing join's error is the result; later subpaths are not looked at |
| UrlUtils.NonFileFold | lychee-lib/src/utils/url.rs:37-53 | on a non-`file:` base no subpath gives the base, one subpath is `Url::join`, and a longer list continues from its first part's result |
| UrlUtils.Confinement | lychee-lib/src/utils/url.rs:23-56 | corrected: on a `file:` base, subpaths that keep scheme and host land under the base's directory, at the place the chain reaches from `/` |
| UrlUtils.RootedAgrees | lychee-lib/src/utils/url.rs:51-52 | on a well-formed base the versions as written and corrected agree unless the chain ends on the sentinel host with a first segment that is empty or holds a `:` |
| UrlLaws.MakeRelativeFromPlainRoot | lychee-lib/src/utils/url.rs:51 | from the root `/`, `make_relative` writes a plain path as its segments joined by `/`, then query and fragment |
| UrlUtils.EscapeKept | lychee-lib/src/utils/url.rs:51-54 | in both versions, a chain that leaves the sentinel's scheme or host, or becomes cannot-be-a-base, is returned as it is |
| UrlUtils.RootedAsWrittenRereads | lychee-lib/src/utils/url.rs:51-52 | as written, the link `./scheme:rest` on a `file:` base comes back as the URL `scheme:rest` |
| UrlUtils.RootedAsWrittenExample | lychee-lib/src/utils/url.rs:51-52 | `./a:b` on `file:///d/page.html` gives `a:b` as written and a URL under `/d/` when corrected |
| UrlLaws.MakeRelativeFixedInverse | lychee-lib/src/types/base_info.rs:46-52 | the relative text from a base to a URL on the same scheme and host joins back to that URL |
| UrlLaws.StrictlyRelativeToInverse | lychee-lib/src/types/url_mapping.rs:51-56 | the subpath of a URL under a prefix joins back onto the prefix to give the URL |
| UrlLaws.RebaseBack | lychee-lib/src/types/url_mapping.rs:6-18 | moving a URL from one directory to another and back gives it again |
| Mappings.New | lychee-lib/src/types/url_mapping.rs:31-49 | succeeds, keeping the pairs, exactly when no pair conflicts; otherwise fails with `InvalidBase`, and some pair conflicts while none before it does |
| Mappings.FirstConflict | lychee-lib/src/types/url_mapping.rs:33-40 | the `find` scan: the first index whose pair conflicts, none before it conflicting; nothing exactly when no pair conflicts |
| Mappings.NewRefusesFirst | lychee-lib/src/types/url_mapping.rs:42-46 | the refusal names the first conflicting pair: its left URL, and the root-dir message naming its right URL |
| Mappings.ConflictingSpec | lychee-lib/src/types/url_mapping.rs:33-40 | a pair conflicts exactly when its sides differ and one is strictly relative to the other; a pair of equal sides is accepted |
| Mappings.MapUrl | lychee-lib/src/types/url_mapping.rs:57-73 | nothing exactly when the URL lies under no pair's matched side; otherwise the other side of the first pair, in list order, that it lies under |
| Mappings.FirstUnder | lychee-lib/src/types/url_mapping.rs:57-73 | the `find_map` scan: the first index whose matched side the URL lies under, none before it; nothing exactly when no pair matches |
| Mappings.MapUrlFirst | lychee-lib/src/types/url_mapping.rs:57-73 | the first matching pair gives its other side and the URL's subpath below its matched side |
| Urls.StrictlyRelativeTo | lychee-lib/src/types/url_mapping.rs:37-38 | a subpath exists exactly when the URL lies under the prefix |
| Mappings.MapUrlJoin | lychee-lib/src/types/base_mapping.rs:280-284 | joining a match's subpath onto the returned URL always succeeds and lands under that URL |
| Mappings.MapUrlJoinAt | lychee-lib/src/types/url_mapping.rs:57-73 | applying a match moves the URL from under the matched side to the same place under the other side |
| Mappings.MapRoundTrip | lychee-lib/src/types/url_mapping.rs:6-18 | for directory pairs, mapping a remote URL to local and back gives the remote URL again |
| Bases.SplitUrlOriginAndPath | lychee-lib/src/types/base_info.rs:90-94 | as written: a split exists exactly for a hierarchical path, with the URL's root `/` as origin; on a plain path the subpath is the path without its leading `/`, then query and fragment |
| Bases.SplitUrlOriginAndPathFixed | lychee-lib/src/types/base_info.rs:90-94 | corrected: a split exists exactly for a hierarchical path, with the URL's root `/` as origin, and the subpath joins back onto the origin to give the URL |
| Bases.FromSourceUrl | lychee-lib/src/types/base_info.rs:78-88 | as written: a `file:` URL gives `NoRoot`; any other URL gives a full base exactly when hierarchical, whose origin is its root `/`, and `None` exactly when it cannot be a base |
| Bases.FromSourceUrlFixed | lychee-lib/src/types/base_info.rs:78-88 | corrected: the same three cases, built on the corrected split |
| Bases.FromSourceUrlRoundTrip | lychee-lib/src/types/base_info.rs:46-94 | as written: `to_url` gives back a `file:` URL and a URL with a plain path; a non-`file:` URL that cannot be a base gives nothing |
| Bases.FromSourceUrlFixedRoundTrip | lychee-lib/src/types/base_info.rs:46-94 | corrected: `to_url` gives back the source URL exactly when it is `file:` or hierarchical |
| Bases.FromSourceUrlFixedResolves | lychee-lib/src/types/base_info.rs:46-94 | corrected: on a hierarchical web source every link resolves as if joined onto the source URL |
| Bases.FromSourceUrlResolves | lychee-lib/src/types/base_info.rs:46-94 | as written: on a web source with a plain path every link resolves as if joined onto the source URL |
| Bases.FromSourceUrlAgrees | lychee-lib/src/types/base_info.rs:78-94 | on a web source with a plain path the two versions give back the same URL and resolve every link alike |
| Bases.FromBaseUrl | lychee-lib/src/types/base_info.rs:102-111 | fails exactly on cannot-be-a-base URLs, with `InvalidBase` and the fixed reason; a `file:` URL gives `NoRoot` |
| Bases.FromBaseUrlSpec | lychee-lib/src/types/base_info.rs:102-111 | as written: success exactly for a hierarchical path, the failure carrying the URL and the fixed reason; on success the base gives back a `file:` URL or one with a plain path |
| Bases.QueriesAgree | lychee-lib/src/types/base_info.rs:133-173 | a base has a scheme exactly when it is not `None`; a base with a URL is not `None`; root-relative support implies local support |
| Bases.ToUrlAgrees | lychee-lib/src/types/base_info.rs:133-173 | when a full base's origin is hierarchical and its subpath stays on the host, the base has a URL exactly when it is not `None`, and on the base's scheme |
| Bases.OrFallback | lychee-lib/src/types/base_info.rs:175-189 | the result is one of the two and the more informative (Full over NoRoot over None), `self` on a tie |
| Bases.OrFallbackSupports | lychee-lib/src/types/base_info.rs:175-189 | the result supports root-relative and local links exactly when either input does |
| Bases.OrFallbackAssociative | lychee-lib/src/types/base_mapping.rs:104-118 | falling back is associative and `None` is its identity on both sides |
| Bases.IsRootRelative | lychee-lib/src/types/base_mapping.rs:122-125 | after leading ASCII whitespace, the text starts with `/` and either ends there or goes on with something other than `/` |
| Bases.IsRootRelativeAgrees | lychee-lib/src/types/base_mapping.rs:122-125 | `is_root_relative` agrees with `is_root_relative_link` on every text |
| Bases.RootRelativeNoScheme | lychee-lib/src/types/base_info.rs:193-196 | root-relative text has no scheme and fails on its own with `RelativeUrlWithoutBase` |
| Bases.ResolveTextSpec | lychee-lib/src/types/base_mapping.rs:135-154 | with the corrected `join_rooted`: parsing text is returned on every base; otherwise `None` gives the parse error, `NoRoot` refuses root-relative text with `InvalidBaseJoin` and otherwise joins, `Full` joins after its subpath |
| Bases.ResolveTextAsWritten | lychee-lib/src/types/base_mapping.rs:135-154 | where the chain of joins ends on a plain path, resolving with `join_rooted` as written gives the same result |
| Bases.SchemeTextIgnoresBase | lychee-lib/src/types/base_mapping.rs:135-154 | text with a scheme resolves as it parses on its own, failure included, on every base that gets through its own part of the chain |
| Bases.EmptyHostOnEveryBase | lychee-lib/src/types/base_mapping.rs:135-154 | `http://` fails with `EmptyHost` on every such base, not for want of a base |
| UrlLaws.SchemeTextErrors | lychee-lib/src/types/base_mapping.rs:136-138 | with this parser, text with a scheme fails on its own only for an empty host (rust-url refuses more, such as an invalid port) |
| UrlLaws.EmptyHostText | lychee-lib/src/types/base_mapping.rs:136-138 | a special scheme other than `file` followed by `//` has a scheme and fails with `EmptyHost` |
| UrlUtils.SchemeTextFailsChain | lychee-lib/src/utils/url.rs:46-49 | text with a scheme that fails on its own fails the same way at the end of any chain that gets that far |
| Bases.AbsoluteIgnoresBase | lychee-lib/src/types/base_info.rs:216-217 | text that parses on its own is returned unchanged, on every base, with or without a root directory |
| Bases.RootDirSpec | lychee-lib/src/types/base_info.rs:206-232 | without a root directory both drafts agree; with one, root-relative text on a `file:` base resolves against it and no `file:` base gives `InvalidBaseJoin` |
| Bases.RootDirConfined | lychee-lib/src/types/base_info.rs:209-227 | with the corrected `join_rooted` and a root directory, root-relative text that stays on the host lands under the root directory |
| Bases.NoRootConfined | lychee-lib/src/types/base_mapping.rs:144-146 | with the corrected `join_rooted`, on a base without root, local text that stays on the host lands under the base's directory |
| Bases.FullConfined | lychee-lib/src/types/base_mapping.rs:147-149 | with the corrected `join_rooted`, on a full `file:` base, subpath and text that stay on the host land under the origin |
| Bases.FromSourceUrlCleared | lychee-lib/src/types/base_mapping.rs:76-94 | as written: `file:` gives `NoRoot`, other cannot-be-a-base URLs give no base, and a hierarchical URL gives the origin with path `/` and its path without the leading `/` as subpath |
| Bases.FromSourceUrlClearedFixed | lychee-lib/src/types/base_mapping.rs:76-94 | corrected: the same cases, with `./` before the subpath |
| Bases.FromSourceUrlClearedSpec | lychee-lib/src/types/base_mapping.rs:46-94 | as written, on a plain path (and no query when the path is `/` alone): the base stands for the URL without query and fragment, and every link resolves as if joined onto it, as with the corrected version |
| Urls.ClearPath | lychee-lib/src/types/base_mapping.rs:82-85 | clearing the segments fails exactly on a cannot-be-a-base URL and otherwise leaves the path `/` and the rest unchanged |
| Bases.FromSourceUrlClearedFixedSpec | lychee-lib/src/types/base_mapping.rs:46-94 | corrected: the base of a hierarchical web URL stands for the URL without query and fragment; every link resolves as if joined onto it |
| Bases.SplitAsWrittenRereads | lychee-lib/src/types/base_info.rs:90-94 | as written, a one-segment path `scheme:rest` splits into a subpath that joins back as the URL `scheme:rest` |
| Bases.SplitAsWrittenExample | lychee-lib/src/types/base_info.rs:90-94 | `https://a.com/a:b` does not round-trip as written, and does when corrected |
| Bases.ClearedAsWrittenRereads | lychee-lib/src/types/base_mapping.rs:87-92 | as written, a web source whose path starts with `scheme:rest` fails every relative link with `RelativeUrlWithCannotBeABaseBase` |
| Bases.ClearedAsWrittenExample | lychee-lib/src/types/base_mapping.rs:87-92 | `x.html` on `https://example.com/a:b/page.html` fails as written and resolves to `https://example.com/a:b/x.html` when corrected |
| Resolution.PrepareSourceBaseInfo | lychee-lib/src/types/base_mapping.rs:238-271 | errors come in the order root, base, fallback, mappings, source, each passed on unchanged; it succeeds exactly when none occurs, with the mappings being the one pair (root, base); a source without a URL gets the fallback alone |
| Resolution.RootIsItsOwnBase | lychee-lib/src/types/base_mapping.rs:243-251 | a root without a base URL is paired with itself, and that pair is always accepted |
| Resolution.FallbackGivesFull | lychee-lib/src/types/base_mapping.rs:253-268 | with a fallback every base is full; the fallback is used exactly when the source alone gives no full base |
| Resolution.LocalSourceUnderRoot | lychee-lib/src/types/base_mapping.rs:260-264 | a source under the root directory gets the base URL and its subpath, standing for the source moved from the root to the base URL |
| Resolution.RemoteSourceUnmapped | lychee-lib/src/types/base_mapping.rs:260-268 | as written, an unmatched web source is its own base, whatever the fallback; on a plain path links resolve against it without query and fragment, as with the corrected constructor |
| Resolution.LocalSourceUnmapped | lychee-lib/src/types/base_mapping.rs:260-268 | an unmatched `file:` source has no root unless a fallback is given, which then replaces it |
| Resolution.ParseErrors | lychee-lib/src/types/base_mapping.rs:273-295 | only resolution can fail, and its error is passed on; success is the mapped URL, with the `file:` clean-up |
| Resolution.ParseUnmapped | lychee-lib/src/types/base_mapping.rs:278-292 | an unmatched URL keeps scheme, host, query and fragment, and changes only when it is `file:` with a trailing empty segment |
| Urls.PopIfEmpty | lychee-lib/src/types/base_mapping.rs:286-292 | only a hierarchical path of two or more segments ending in an empty one changes, losing that segment; scheme, host, query and fragment stay |
| Resolution.ParseMapped | lychee-lib/src/types/base_mapping.rs:280-284 | a URL under a mapped remote base moves under the local URL, and the join always succeeds |
| Resolution.RemoteLinkCheckedLocally | lychee-lib/src/types/base_mapping.rs:273-295 | with the pair (root, base), a link that resolves below the base URL is checked at the same place below the root directory |

## Left out

- **I/O and side effects.**
  - The `println!` in `apply_rooted_base_url` is left out; the function is
    modelled as pure.
  - `find_links` is left out: it wraps the external `linkify` crate.
- **Filesystem and platform conversions.** `BaseInfo::from_path`,
  `BaseInfo::to_path`, `Url::from_directory_path`, `Url::to_file_path`,
  `Base::to_url` and `ResolvedInputSource::to_url` are left out. The
  results of the last two are parameters (a URL or an error).
- **`TryFrom<&str> for BaseInfo` and `parse_url_or_path`.** They depend on
  the filesystem-path fallback above.
- **Parts of the URL Standard.** These are not modelled:
  - special-scheme quirks (backslashes, `http:foo`);
  - host parsing, IDNA and ports (the host is one string);
  - percent-encoding beyond controls and spaces;
  - Windows drive letters;
  - the exact error of a malformed absolute URL;
  - the empty path of a non-special URL with an authority: `foo://h` is
    read as `foo://h/`, because a hierarchical path here always holds at
    least one segment.

  With this parser, text with a scheme fails on its own only for an empty
  host on a special scheme other than `file`.
- **`Urls.MakeRelative`** models rust-url's `make_relative` from its
  published behaviour, since its source is not part of this model. It is
  stated only through the findings below and
  `UrlLaws.MakeRelativeFromPlainRoot`.
- **`Urls.StrictlyRelativeTo`** is a definition assumed for lychee's unseen
  extension method. The lemmas hold for that definition only.
- **Promises kept only on plain paths.** A plain path is `/` alone, or
  a path whose first segment is neither empty nor holds a `:`. The members
  in the next four lines follow the code as written, so they promise less
  than its documentation.
- Bases.FromSourceUrlRoundTrip: the round trip is promised only for
  `file:` URLs and plain paths. As written, another first segment is
  reread by `to_url` (first finding). `Bases.FromSourceUrlFixedRoundTrip`
  states the full if-and-only-if for the corrected version.
- Bases.FromBaseUrlSpec: the same limit, for the same reason.
- Bases.FromSourceUrlClearedSpec: links are promised to resolve as if
  joined onto the source only on a plain path. When the path is `/`
  alone, the source must also have no query, because joining the empty
  subpath keeps the origin's query. Other paths are the second finding.
- Resolution.RemoteSourceUnmapped: its resolution clauses carry the same
  two conditions, because it builds its base with
  `Bases.FromSourceUrlCleared`.
- **The empty path of a non-special URL.** The next two lines say what
  reading `foo://h` as `foo://h/` costs.
- Bases.FromSourceUrlCleared: the branch of `base_mapping.rs:87-90` that
  gives no base for a path without a leading `/` is not modelled. Only a
  non-special URL with an authority and an empty path, such as `foo://h`,
  takes it; the model reads that URL as `foo://h/` and gives a full base.
- Resolution.RemoteSourceUnmapped: for the same reason, a source such as
  `foo://h` is its own full base here. The code gives no base, or the
  fallback when one is given.
- **`join_rooted` as written is not what resolution uses.** The next four
  lines say what this costs.
- Bases.ResolveText: it joins with the corrected `apply_rooted_base_url`.
  Agreement with the code as written is promised only where the chain
  ends on a plain path (`Bases.ResolveTextAsWritten`).
- Bases.NoRootConfined: holds of the corrected join only. As written, a
  link such as `./a:b` leaves the base (third finding).
- Bases.FullConfined: the same, for a subpath and a link.
- Bases.RootDirConfined: the same, for root-relative text under a root
  directory.
- **`serde` derives.** The commented-out tests in `base_info.rs` and
  `base_mapping.rs` are left out too: they call functions that do not exist.
- **`lychee-bin/src/merger_macro.rs`** is configuration plumbing, not
  resolution.

## Findings

| source | as written | input that shows it | evidently intended | confidence | as-written member | corrected member |
|---|---|---|---|---|---|---|
| lychee-lib/src/types/base_info.rs:90-94 | `split_url_origin_and_path` takes the subpath from `make_relative`, which writes a first segment `a:b` bare; joined back by `to_url` it is read as scheme `a` | `https://a.com/a:b`: `to_url(from_source_url(u))` gives `a:b`, not `u` | the documented round trip `${origin}/${path}` == the source URL | not executed | Bases.SplitUrlOriginAndPath, Bases.SplitAsWrittenExample | Bases.SplitUrlOriginAndPathFixed, Bases.FromSourceUrlFixedRoundTrip |
| lychee-lib/src/types/base_mapping.rs:87-92 | `SourceBaseInfo::from_source_url` uses the path minus its leading `/` as the subpath, so a first segment `a:b` becomes a scheme when `join_rooted` applies it | source `https://example.com/a:b/page.html`, link `x.html`: `Err(ParseUrl(RelativeUrlWithCannotBeABaseBase, "x.html"))` | `https://example.com/a:b/x.html` | not executed | Bases.FromSourceUrlCleared, Bases.ClearedAsWrittenExample | Bases.FromSourceUrlClearedFixed, Bases.FromSourceUrlClearedFixedSpec |
| lychee-lib/src/utils/url.rs:51-52 | `base.join(&relative_to_base)` rereads `make_relative`'s text, whose first segment may look like a scheme | base `file:///d/page.html`, link `./a:b`: result `a:b`, outside the base | a URL under `file:///d/` | not executed | UrlUtils.ApplyRootedBaseUrlAsWritten, UrlUtils.RootedAsWrittenExample | UrlUtils.ApplyRootedBaseUrl, UrlUtils.Confinement |
