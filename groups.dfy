/** The entities of the side panel's store and the pure changes its operations make to
    the ordered list of groups. */
module Groups {
  import opened Options
  import opened JsText
  import Decimal
  import Seqs

  /** The fixed capacity of a group. */
  const MaxUrlsPerGroup: nat := 10

  /** A saved link. `addedAt` is the ISO timestamp text of its creation. */
  datatype UrlEntry = UrlEntry(id: string, title: string, url: string, addedAt: string)

  /** A named, ordered list of links. `isExpanded` is `None` when a stored group record
      has no such property (JSON holds whatever was saved). */
  datatype Group = Group(id: string, name: string, urls: seq<UrlEntry>, createdAt: string, isExpanded: Option<bool>)

  /** Why adding a link is refused. */
  datatype Rejection = MissingField | GroupNotFound | GroupFull

  /** Every group holds at most `MaxUrlsPerGroup` links. */
  predicate WithinCapacity(groups: seq<Group>)
  {
    forall i :: 0 <= i < |groups| ==> |groups[i].urls| <= MaxUrlsPerGroup
  }

  /** The number of links over all groups. */
  function TotalUrls(groups: seq<Group>): nat
  {
    if groups == [] then 0 else |groups[0].urls| + TotalUrls(groups[1..])
  }

  /** `'group_' + Date.now()`. */
  function GroupId(now: nat): string
  {
    "group_" + Decimal.Show(now)
  }

  /** `'url_' + Date.now()`. */
  function UrlId(now: nat): string
  {
    "url_" + Decimal.Show(now)
  }

  /** Ids made at different milliseconds differ, and a group id is never a link id: the only
      collision is two creations in the same millisecond. Generated ids are never empty. */
  lemma IdsDistinct(a: nat, b: nat)
    ensures GroupId(a) == GroupId(b) <==> a == b
    ensures UrlId(a) == UrlId(b) <==> a == b
    ensures GroupId(a) != UrlId(b)
    ensures GroupId(a) != [] && UrlId(a) != []
  {
    assert GroupId(a)[6..] == Decimal.Show(a) && GroupId(b)[6..] == Decimal.Show(b);
    assert UrlId(a)[4..] == Decimal.Show(a) && UrlId(b)[4..] == Decimal.Show(b);
    assert GroupId(a)[0] == 'g' && UrlId(b)[0] == 'u';
    Decimal.ShowInjective(a, b);
  }

  /** `groups.find(g => g.id === id)`, as the index of the first group with that id. */
  function FindGroup(groups: seq<Group>, id: string): (r: Option<nat>)
    ensures r.Some? ==> r.value < |groups| && groups[r.value].id == id
    ensures r.Some? ==> forall j :: 0 <= j < r.value ==> groups[j].id != id
    ensures r.None? <==> forall j :: 0 <= j < |groups| ==> groups[j].id != id
  {
    if groups == [] then None
    else if groups[0].id == id then Some(0)
    else match FindGroup(groups[1..], id)
      case None => None
      case Some(i) => Some(i + 1)
  }

  /** `createGroup`: the list after creating a group from the raw name field, or `None` when
      the trimmed name is empty. The new group goes at the end, with the trimmed name, the id
      made from `now`, no links, and expanded. */
  function CreatedGroups(groups: seq<Group>, nameField: string, now: nat, createdAt: string): (r: Option<seq<Group>>)
    ensures r.None? <==> AllWhiteSpace(nameField)
    ensures r.Some? ==> |r.value| == |groups| + 1 && r.value[..|groups|] == groups
    ensures r.Some? ==>
      var g := r.value[|groups|];
      && g.id == GroupId(now) && g.name == Trim(nameField) && g.urls == []
      && g.createdAt == createdAt && g.isExpanded == Some(true)
    ensures r.Some? ==> (WithinCapacity(groups) ==> WithinCapacity(r.value))
  {
    var name := Trim(nameField);
    if name == [] then None
    else
      var gs := groups + [Group(GroupId(now), name, [], createdAt, Some(true))];
      assert gs[..|groups|] == groups;
      Some(gs)
  }

  /** A created group's name is non-empty, and trimming it again changes nothing. */
  lemma CreatedNameIsTrimmed(groups: seq<Group>, nameField: string, now: nat, createdAt: string)
    requires CreatedGroups(groups, nameField, now, createdAt).Some?
    ensures var g := CreatedGroups(groups, nameField, now, createdAt).value[|groups|];
      g.name != [] && Trim(g.name) == g.name
  {
    TrimIdempotent(nameField);
  }

  /** The list with `entry` pushed onto the links of the group at `i`; nothing else changes. */
  function WithLinkAppended(groups: seq<Group>, i: nat, entry: UrlEntry): (r: seq<Group>)
    requires i < |groups|
    ensures |r| == |groups|
    ensures r[i] == groups[i].(urls := groups[i].urls + [entry])
    ensures forall j :: 0 <= j < |groups| && j != i ==> r[j] == groups[j]
    ensures |groups[i].urls| < MaxUrlsPerGroup ==> (WithinCapacity(groups) ==> WithinCapacity(r))
  {
    groups[i := groups[i].(urls := groups[i].urls + [entry])]
  }

  /** `saveUrl`'s change to the list: the raw title and url fields are trimmed, `targetId` is
      the resolved group id, `entryId` and `addedAt` the new link's id and timestamp. Refused
      (in this order) when a trimmed field or the id is empty, when no group has the id, and
      when the first group with the id is full; otherwise the new link goes at the end of that
      group's links and nothing else changes. */
  function AddedUrl(groups: seq<Group>, targetId: string, titleField: string, urlField: string,
                    entryId: string, addedAt: string): (r: Result<seq<Group>, Rejection>)
    ensures r == Err(MissingField) <==> Trim(titleField) == [] || Trim(urlField) == [] || targetId == []
    ensures r == Err(GroupNotFound) <==>
      && Trim(titleField) != [] && Trim(urlField) != [] && targetId != []
      && forall j :: 0 <= j < |groups| ==> groups[j].id != targetId
    ensures r == Err(GroupFull) <==>
      && Trim(titleField) != [] && Trim(urlField) != [] && targetId != []
      && FindGroup(groups, targetId).Some?
      && |groups[FindGroup(groups, targetId).value].urls| >= MaxUrlsPerGroup
    ensures r.Ok? ==>
      && FindGroup(groups, targetId).Some?
      && |groups[FindGroup(groups, targetId).value].urls| < MaxUrlsPerGroup
      && r.value == WithLinkAppended(groups, FindGroup(groups, targetId).value,
                                     UrlEntry(entryId, Trim(titleField), Trim(urlField), addedAt))
  {
    var title := Trim(titleField);
    var url := Trim(urlField);
    if title == [] || url == [] || targetId == [] then Err(MissingField)
    else match FindGroup(groups, targetId)
      case None => Err(GroupNotFound)
      case Some(i) =>
        if |groups[i].urls| >= MaxUrlsPerGroup then Err(GroupFull)
        else Ok(WithLinkAppended(groups, i, UrlEntry(entryId, title, url, addedAt)))
  }

  /** Replacing one group changes the total by the difference of the two link counts. */
  lemma {:induction false} TotalUrlsUpdate(groups: seq<Group>, i: nat, g: Group)
    requires i < |groups|
    ensures TotalUrls(groups[i := g]) + |groups[i].urls| == TotalUrls(groups) + |g.urls|
  {
    if i > 0 {
      assert groups[i := g][1..] == groups[1..][i - 1 := g];
      TotalUrlsUpdate(groups[1..], i - 1, g);
    }
  }

  /** A successful add stores exactly one more link. */
  lemma AddedUrlAddsOne(groups: seq<Group>, targetId: string, titleField: string, urlField: string,
                        entryId: string, addedAt: string)
    requires AddedUrl(groups, targetId, titleField, urlField, entryId, addedAt).Ok?
    ensures TotalUrls(AddedUrl(groups, targetId, titleField, urlField, entryId, addedAt).value) == TotalUrls(groups) + 1
  {
    var i := FindGroup(groups, targetId).value;
    var r := AddedUrl(groups, targetId, titleField, urlField, entryId, addedAt).value;
    assert r == groups[i := r[i]];
    TotalUrlsUpdate(groups, i, r[i]);
  }

  /** Within capacity, the list holds at most ten links per group. */
  lemma {:induction false} TotalUrlsBound(groups: seq<Group>)
    requires WithinCapacity(groups)
    ensures TotalUrls(groups) <= MaxUrlsPerGroup * |groups|
  {
    if groups != [] {
      assert WithinCapacity(groups[1..]) by {
        forall j | 0 <= j < |groups| - 1 ensures |groups[1..][j].urls| <= MaxUrlsPerGroup {
          assert groups[1..][j] == groups[j + 1];
        }
      }
      TotalUrlsBound(groups[1..]);
    }
  }

  /** The predicate `deleteGroup` filters with: `g => g.id !== id`. */
  function GroupKept(id: string): Group -> bool
  {
    (g: Group) => g.id != id
  }

  /** `deleteGroup`'s change: `groups.filter(g => g.id !== id)`. */
  function RemovedGroup(groups: seq<Group>, id: string): (r: seq<Group>)
    ensures forall k :: 0 <= k < |r| ==> r[k].id != id && r[k] in groups
    ensures forall k :: 0 <= k < |groups| && groups[k].id != id ==> groups[k] in r
    ensures forall g :: multiset(r)[g] == if g.id != id then multiset(groups)[g] else 0
    ensures Seqs.IsSubsequence(r, groups)
    ensures (forall k :: 0 <= k < |groups| ==> groups[k].id != id) ==> r == groups
    ensures WithinCapacity(groups) ==> WithinCapacity(r)
  {
    Seqs.FilterIsSubsequence(groups, GroupKept(id));
    Seqs.FilterKeepsAll(groups, GroupKept(id));
    Seqs.FilterCounts(groups, GroupKept(id));
    Seqs.Filter(groups, GroupKept(id))
  }

  /** The predicate `deleteUrl` filters with: `u => u.id !== urlId`. */
  function LinkKept(urlId: string): UrlEntry -> bool
  {
    (u: UrlEntry) => u.id != urlId
  }

  /** `group.urls.filter(u => u.id !== urlId)`: the links without the id, in their order;
      with no such link, the list unchanged. */
  function WithoutLink(urls: seq<UrlEntry>, urlId: string): (r: seq<UrlEntry>)
    ensures forall k :: 0 <= k < |r| ==> r[k].id != urlId && r[k] in urls
    ensures forall k :: 0 <= k < |urls| && urls[k].id != urlId ==> urls[k] in r
    ensures forall u :: multiset(r)[u] == if u.id != urlId then multiset(urls)[u] else 0
    ensures Seqs.IsSubsequence(r, urls)
    ensures (forall k :: 0 <= k < |urls| ==> urls[k].id != urlId) ==> r == urls
    ensures |r| <= |urls|
  {
    Seqs.FilterIsSubsequence(urls, LinkKept(urlId));
    Seqs.FilterKeepsAll(urls, LinkKept(urlId));
    Seqs.FilterCounts(urls, LinkKept(urlId));
    Seqs.Filter(urls, LinkKept(urlId))
  }

  /** `deleteUrl`'s change: in the first group with `groupId`, keep only the links whose id is
      not `urlId`; `None` (nothing changes) when no group has `groupId`. */
  function RemovedUrl(groups: seq<Group>, groupId: string, urlId: string): (r: Option<seq<Group>>)
    ensures r.None? <==> forall j :: 0 <= j < |groups| ==> groups[j].id != groupId
    ensures match FindGroup(groups, groupId)
      case None => true
      case Some(i) =>
        && r.Some? && |r.value| == |groups|
        && r.value[i] == groups[i].(urls := WithoutLink(groups[i].urls, urlId))
        && forall j :: 0 <= j < |groups| && j != i ==> r.value[j] == groups[j]
    ensures r.Some? ==> (WithinCapacity(groups) ==> WithinCapacity(r.value))
  {
    match FindGroup(groups, groupId)
    case None => None
    case Some(i) => Some(groups[i := groups[i].(urls := WithoutLink(groups[i].urls, urlId))])
  }

  /** `group.isExpanded = !group.isExpanded`: a missing flag is falsy, so it becomes `true`. */
  function Toggled(g: Group): (r: Group)
    ensures r.id == g.id && r.name == g.name && r.urls == g.urls && r.createdAt == g.createdAt
    ensures r.isExpanded.Some?
    ensures g.isExpanded.Some? ==> r.isExpanded.value != g.isExpanded.value
  {
    g.(isExpanded := Some(!(g.isExpanded == Some(true))))
  }

  /** Flipping a set flag twice restores the group. */
  lemma ToggledTwice(g: Group)
    requires g.isExpanded.Some?
    ensures Toggled(Toggled(g)) == g
  {
  }
}
