/** URL mappings: an ordered list of URL pairs, applied in either direction
    by prefix match. The left URL of a pair is the local root directory and
    the right URL the remote base it stands for. */
module Mappings {
  import opened Results
  import opened Strings
  import opened Urls
  import opened UrlLaws
  import opened ErrorKinds

  datatype Pair = Pair(left: Url, right: Url)

  datatype UrlMappings = UrlMappings(pairs: seq<Pair>)

  /** Which side of a pair a URL is matched against. */
  datatype Side = Left | Right

  function Matched(p: Pair, side: Side): Url {
    if side == Left then p.left else p.right
  }

  function Other(p: Pair, side: Side): Url {
    if side == Left then p.right else p.left
  }

  /** A pair whose two sides differ and one of which is relative to (lies
      under) the other. */
  predicate Conflicting(p: Pair) {
    p.left != p.right && (IsUnder(p.left, p.right) || IsUnder(p.right, p.left))
  }

  /** Index of the first conflicting pair. */
  function FirstConflict(pairs: seq<Pair>, from: nat): (r: Option<nat>)
    requires from <= |pairs|
    ensures r.Some? ==> from <= r.value < |pairs| && Conflicting(pairs[r.value])
    ensures r.Some? ==> forall j :: from <= j < r.value ==> !Conflicting(pairs[j])
    ensures r.None? ==> forall j :: from <= j < |pairs| ==> !Conflicting(pairs[j])
    decreases |pairs| - from
  {
    if from == |pairs| then None
    else if Conflicting(pairs[from]) then Some(from)
    else FirstConflict(pairs, from + 1)
  }

  function ConflictReason(root: Url): string {
    "base cannot be parent or child of root-dir " + Serialize(root)
  }

  /** `i` is the first pair whose sides nest. */
  predicate FirstConflicting(pairs: seq<Pair>, i: int) {
    0 <= i < |pairs| && Conflicting(pairs[i]) && forall j :: 0 <= j < i ==> !Conflicting(pairs[j])
  }

  /** `UrlMappings::new`: the list is kept exactly when no pair's sides
      nest; otherwise the first such pair is refused with `InvalidBase`
      (its message is given by `NewRefusesFirst`). */
  function New(pairs: seq<Pair>): (r: Result<UrlMappings, ErrorKind>)
    ensures r.Ok? <==> forall i :: 0 <= i < |pairs| ==> !Conflicting(pairs[i])
    ensures r.Ok? ==> r.value.pairs == pairs
    ensures r.Err? ==> r.error.InvalidBase? && exists i :: FirstConflicting(pairs, i)
  {
    match FirstConflict(pairs, 0)
    case None => Ok(UrlMappings(pairs))
    case Some(i) =>
      assert FirstConflicting(pairs, i);
      Err(InvalidBase(Serialize(pairs[i].left), ConflictReason(pairs[i].right)))
  }

  /** The refusal names the first conflicting pair: its left URL, and its
      right URL in the reason. */
  lemma NewRefusesFirst(pairs: seq<Pair>, i: int)
    requires FirstConflicting(pairs, i)
    ensures New(pairs) == Err(InvalidBase(Serialize(pairs[i].left), ConflictReason(pairs[i].right)))
  {
    var k := FirstConflict(pairs, 0).value;
    assert !(k < i) && !(i < k);
  }

  /** The check `new` makes of each pair: the sides differ and one of them
      is strictly relative to the other. A pair of equal URLs is accepted. */
  lemma ConflictingSpec(p: Pair)
    ensures Conflicting(p) <==> (
      && p.left != p.right
      && (StrictlyRelativeTo(p.left, p.right).Some? || StrictlyRelativeTo(p.right, p.left).Some?))
    ensures p.left == p.right ==> New([p]) == Ok(UrlMappings([p]))
  {
  }

  /** Index of the first pair whose `side` URL `url` lies under. */
  function FirstUnder(pairs: seq<Pair>, url: Url, side: Side, from: nat): (r: Option<nat>)
    requires from <= |pairs|
    ensures r.Some? ==> from <= r.value < |pairs| && IsUnder(url, Matched(pairs[r.value], side))
    ensures r.Some? ==> forall j :: from <= j < r.value ==> !IsUnder(url, Matched(pairs[j], side))
    ensures r.None? ==> forall j :: from <= j < |pairs| ==> !IsUnder(url, Matched(pairs[j], side))
    decreases |pairs| - from
  {
    if from == |pairs| then None
    else if StrictlyRelativeTo(url, Matched(pairs[from], side)).Some? then Some(from)
    else FirstUnder(pairs, url, side, from + 1)
  }

  /** `i` is the first pair whose `side` URL `url` lies under. */
  predicate FirstMatch(pairs: seq<Pair>, url: Url, side: Side, i: int) {
    0 <= i < |pairs| && IsUnder(url, Matched(pairs[i], side))
    && forall j :: 0 <= j < i ==> !IsUnder(url, Matched(pairs[j], side))
  }

  /** `find_map` over the pairs: nothing when `url` lies under no pair's
      `side` URL, else the other URL of the first pair it lies under (the
      subpath is given by `MapUrlFirst`). */
  function MapUrl(m: UrlMappings, url: Url, side: Side): (r: Option<(Url, string)>)
    ensures r.None? <==> forall j :: 0 <= j < |m.pairs| ==> !IsUnder(url, Matched(m.pairs[j], side))
    ensures r.Some? ==> exists i :: FirstMatch(m.pairs, url, side, i) && r.value.0 == Other(m.pairs[i], side)
  {
    match FirstUnder(m.pairs, url, side, 0)
    case None => None
    case Some(i) => Some((Other(m.pairs[i], side), StrictlyRelativeTo(url, Matched(m.pairs[i], side)).value))
  }

  /** The match of the first pair `url` lies under: that pair's other URL
      and the subpath of `url` below its matched URL. */
  lemma MapUrlFirst(m: UrlMappings, url: Url, side: Side, i: int)
    requires FirstMatch(m.pairs, url, side, i)
    ensures MapUrl(m, url, side) == Some((Other(m.pairs[i], side), StrictlyRelativeTo(url, Matched(m.pairs[i], side)).value))
  {
    var o := FirstUnder(m.pairs, url, side, 0);
    assert o.Some?;
    assert o.value == i by { assert !(o.value < i) && !(i < o.value); }
  }

  /** `map_to_new_url`: matches the right (remote) URLs and gives the left
      (local) URL of the first match. */
  function MapToNewUrl(m: UrlMappings, url: Url): Option<(Url, string)>
  {
    MapUrl(m, url, Right)
  }

  /** `map_to_old_url`: matches the left (local) URLs and gives the right
      (remote) URL of the first match. */
  function MapToOldUrl(m: UrlMappings, url: Url): Option<(Url, string)>
  {
    MapUrl(m, url, Left)
  }

  /** Well-formed mappings: every URL is one the parser can produce, with a
      hierarchical path. */
  predicate ValidPairs(m: UrlMappings) {
    forall j :: 0 <= j < |m.pairs| ==> ValidPair(m.pairs[j])
  }

  predicate ValidPair(p: Pair) {
    ValidUrl(p.left) && ValidUrl(p.right) && p.left.path.Hier? && p.right.path.Hier?
  }

  /** A match is applied by joining the subpath onto the URL returned: the
      join succeeds and lands under that URL. */
  lemma MapUrlJoin(m: UrlMappings, url: Url, side: Side)
    requires ValidPairs(m) && ValidUrl(url) && MapUrl(m, url, side).Some?
    ensures var (target, sub) := MapUrl(m, url, side).value;
      Join(target, sub).Ok? && IsUnder(Join(target, sub).value, target)
  {
    var (target, sub) := MapUrl(m, url, side).value;
    var i := FirstUnder(m.pairs, url, side, 0).value;
    MapUrlFirst(m, url, side, i);
    MapUrlJoinAt(m.pairs[i], url, side, target, sub);
  }

  /** Applying the match of pair `p`: the URL is moved from under the
      matched side to under the other side. */
  lemma MapUrlJoinAt(p: Pair, url: Url, side: Side, target: Url, sub: string)
    requires ValidPair(p) && ValidUrl(url) && IsUnder(url, Matched(p, side))
    requires target == Other(p, side) && sub == StrictlyRelativeTo(url, Matched(p, side)).value
    ensures Join(target, sub) == Ok(Rebase(url, Matched(p, side), target))
    ensures IsUnder(Rebase(url, Matched(p, side), target), target)
  {
    RebaseJoin(url, Matched(p, side), target);
    RebaseUnder(url, Matched(p, side), target);
  }

  /** For one pair of directories, mapping a remote URL to its local
      counterpart and mapping that back gives the remote URL again. */
  lemma MapRoundTrip(p: Pair, url: Url)
    requires ValidPair(p) && DirectoryUrl(p.left) && DirectoryUrl(p.right)
    requires ValidUrl(url) && IsUnder(url, p.right)
    ensures var m := UrlMappings([p]);
      && MapToNewUrl(m, url).Some? && MapToNewUrl(m, url).value.0 == p.left
      && Join(p.left, MapToNewUrl(m, url).value.1).Ok?
      && var local := Join(p.left, MapToNewUrl(m, url).value.1).value;
        && MapToOldUrl(m, local).Some? && MapToOldUrl(m, local).value.0 == p.right
        && Join(p.right, MapToOldUrl(m, local).value.1) == Ok(url)
  {
    var m := UrlMappings([p]);
    var sub := StrictlyRelativeTo(url, p.right).value;
    MapUrlFirst(m, url, Right, 0);
    MapUrlJoinAt(p, url, Right, p.left, sub);
    var local := Rebase(url, p.right, p.left);
    JoinValid(p.left, sub);
    assert ValidUrl(local);
    var sub2 := StrictlyRelativeTo(local, p.left).value;
    MapUrlFirst(m, local, Left, 0);
    MapUrlJoinAt(p, local, Left, p.right, sub2);
    RebaseBack(url, p.right, p.left);
  }
}
