/** The content handlers of the server over an in-memory store that holds one
    table per kind. Ids are issued from a counter as decimal strings, which
    stands for the database's generated keys; timestamps are integers. */
module Content {
  import opened Base
  import opened Text
  import opened Order
  import opened Tables
  import Users

  datatype ContentItem = ContentItem(
    id: string,
    title: string,
    slug: string,
    content: Option<string>,
    language: string,
    translationGroupId: Option<string>,
    status: Status,
    authorId: string,
    createdAt: int,
    updatedAt: int)

  function CreatedAt(x: ContentItem): int { x.createdAt }
  function UpdatedAt(x: ContentItem): int { x.updatedAt }

  /** The fields `createContent` takes from the request body (None: field absent). */
  datatype CreateBody = CreateBody(
    title: Option<string>,
    slug: Option<string>,
    content: Option<string>,
    language: Option<string>,
    translationGroupId: Option<string>,
    status: Option<string>)

  /** The fields `updateContent` takes from the request body (None: field absent). */
  datatype UpdateBody = UpdateBody(
    title: Option<string>,
    slug: Option<string>,
    content: Option<string>,
    status: Option<string>,
    language: Option<string>)

  const Unauthorized := "Unauthorized"
  const CreateFailed := "Failed to create content"
  const NotFound := "Content not found"
  const ListFailed := "Failed to fetch content list"
  const UpdateFailed := "Update failed"
  const DeleteFailed := "Delete failed"
  const Deleted := "Content deleted successfully"

  /** The status a new item is stored with: the supplied one, or DRAFT when it is falsy. */
  function CreateStatus(body: CreateBody): Option<Status> {
    ParseStatus(OrElse(body.status, "DRAFT"))
  }

  /** What the database demands of a new row, author aside: a title, a slug and
      a status of the enum. */
  predicate WellFormed(body: CreateBody) {
    body.title.Some? && body.slug.Some? && CreateStatus(body).Some?
  }

  /** The row `createContent` asks the database to store. */
  function NewItem(id: string, authorId: string, body: CreateBody, now: int): (x: ContentItem)
    requires WellFormed(body)
    ensures x.id == id && x.authorId == authorId
    ensures x.title == body.title.value && x.slug == body.slug.value && x.content == body.content
    ensures x.translationGroupId == body.translationGroupId
    ensures !Truthy(body.language) ==> x.language == "en"
    ensures Truthy(body.language) ==> x.language == body.language.value
    ensures !Truthy(body.status) ==> x.status == DRAFT
    ensures Truthy(body.status) ==> StatusName(x.status) == body.status.value
    ensures x.createdAt == now && x.updatedAt == now
  {
    ContentItem(id, body.title.value, body.slug.value, body.content, OrElse(body.language, "en"),
                body.translationGroupId, CreateStatus(body).value, authorId, now, now)
  }

  /** The status an update would store, when it is valid. */
  predicate UpdateStatusValid(body: UpdateBody) {
    body.status.None? || ParseStatus(body.status.value).Some?
  }

  /** The row after `update({ data: { title, slug, content, status, language } })`:
      a supplied field replaces the stored one, an absent one leaves it. */
  function Patch(x: ContentItem, body: UpdateBody, now: int): (y: ContentItem)
    requires UpdateStatusValid(body)
    ensures y.id == x.id && y.authorId == x.authorId
    ensures y.translationGroupId == x.translationGroupId && y.createdAt == x.createdAt
    ensures y.updatedAt == now
    ensures y.title == (if body.title.Some? then body.title.value else x.title)
    ensures y.slug == (if body.slug.Some? then body.slug.value else x.slug)
    ensures y.content == (if body.content.Some? then body.content else x.content)
    ensures y.language == (if body.language.Some? then body.language.value else x.language)
    ensures body.status.Some? ==> StatusName(y.status) == body.status.value
    ensures body.status.None? ==> y.status == x.status
  {
    x.(title := if body.title.Some? then body.title.value else x.title,
       slug := if body.slug.Some? then body.slug.value else x.slug,
       content := if body.content.Some? then body.content else x.content,
       status := if body.status.Some? then ParseStatus(body.status.value).value else x.status,
       language := if body.language.Some? then body.language.value else x.language,
       updatedAt := now)
  }

  /** The key column of the content tables. */
  function ItemId(x: ContentItem): string { x.id }

  // ---------------------------------------------------------------------------
  // The store

  class ContentStore {
    var posts: seq<ContentItem>
    var projects: seq<ContentItem>
    var stories: seq<ContentItem>
    var nextId: nat

    function Table(k: Kind): seq<ContentItem>
      reads this
    {
      match k
      case Post => posts
      case Project => projects
      case Story => stories
    }

    function Tables(): (seq<ContentItem>, seq<ContentItem>, seq<ContentItem>)
      reads this
    {
      (posts, projects, stories)
    }

    ghost predicate Valid()
      reads this
    {
      GoodTable(posts, ItemId, nextId) && GoodTable(projects, ItemId, nextId) && GoodTable(stories, ItemId, nextId)
    }

    constructor ()
      ensures Valid()
      ensures posts == [] && projects == [] && stories == []
    {
      posts, projects, stories, nextId := [], [], [], 0;
    }

    /** Replaces the table of kind k and nothing else. */
    method SetTable(k: Kind, t: seq<ContentItem>)
      modifies this
      ensures posts == (if k == Post then t else old(posts))
      ensures projects == (if k == Project then t else old(projects))
      ensures stories == (if k == Story then t else old(stories))
      ensures nextId == old(nextId)
    {
      match k
      case Post => posts := t;
      case Project => projects := t;
      case Story => stories := t;
    }

    /** `createContent(kind)`: 401 without an actor id, 400 when the database
        rejects the row, otherwise the stored row with status 201. A rejection
        carries the database error's message, `dbMessage`, or the fixed text
        when that message is empty. */
    method Create(k: Kind, actorId: Option<string>, body: CreateBody, authorExists: bool, dbMessage: string, now: int)
      returns (r: Outcome<ContentItem>)
      requires Valid()
      modifies this
      ensures Valid()
      ensures !Truthy(actorId) ==> r == Fail(401, Unauthorized) && Tables() == old(Tables())
      ensures Truthy(actorId) && !(WellFormed(body) && authorExists) ==>
        r == Fail(400, OrElse(Some(dbMessage), CreateFailed)) && Tables() == old(Tables())
      ensures r.Fail? ==> nextId == old(nextId)
      ensures Truthy(actorId) && WellFormed(body) && authorExists ==>
        r == Ok(201, NewItem(NatToString(old(nextId)), actorId.value, body, now)) &&
        nextId == old(nextId) + 1 &&
        Table(k) == old(Table(k)) + [r.value] &&
        forall k' :: k' != k ==> Table(k') == old(Table(k'))
    {
      if !Truthy(actorId) {
        return Fail(401, Unauthorized);
      }
      if !(WellFormed(body) && authorExists) {
        return Fail(400, OrElse(Some(dbMessage), CreateFailed));
      }
      var item := NewItem(NatToString(nextId), actorId.value, body, now);
      AppendKeepsGood(Table(k), ItemId, nextId, item);
      ghost var n := nextId;
      SetTable(k, Table(k) + [item]);
      nextId := nextId + 1;
      GoodTableGrows(posts, ItemId, n);
      GoodTableGrows(projects, ItemId, n);
      GoodTableGrows(stories, ItemId, n);
      r := Ok(201, item);
    }

    /** `updateContent(kind)`: 400 for an unknown id or a status outside the enum;
        otherwise the item with that id is patched and returned. */
    method Update(k: Kind, id: string, body: UpdateBody, now: int) returns (r: Outcome<ContentItem>)
      requires Valid()
      modifies this
      ensures Valid()
      ensures (IndexOf(old(Table(k)), ItemId, id).None? || !UpdateStatusValid(body)) ==>
        r == Fail(400, UpdateFailed) && Tables() == old(Tables())
      ensures IndexOf(old(Table(k)), ItemId, id).Some? && UpdateStatusValid(body) ==>
        var i := IndexOf(old(Table(k)), ItemId, id).value;
        r == Ok(200, Patch(old(Table(k))[i], body, now)) &&
        Table(k) == old(Table(k))[i := r.value] &&
        forall k' :: k' != k ==> Table(k') == old(Table(k'))
    {
      var found := IndexOf(Table(k), ItemId, id);
      if found.None? || !UpdateStatusValid(body) {
        return Fail(400, UpdateFailed);
      }
      var i := found.value;
      var item := Patch(Table(k)[i], body, now);
      ReplaceKeepsGood(Table(k), ItemId, nextId, i, item);
      SetTable(k, Table(k)[i := item]);
      r := Ok(200, item);
    }

    /** `deleteContent(kind)`: 400 for an unknown id; otherwise that row goes. */
    method Delete(k: Kind, id: string) returns (r: Outcome<string>)
      requires Valid()
      modifies this
      ensures Valid()
      ensures IndexOf(old(Table(k)), ItemId, id).None? ==>
        r == Fail(400, DeleteFailed) && Tables() == old(Tables())
      ensures IndexOf(old(Table(k)), ItemId, id).Some? ==>
        r == Ok(200, Deleted) &&
        Table(k) == RemoveAt(old(Table(k)), IndexOf(old(Table(k)), ItemId, id).value) &&
        forall k' :: k' != k ==> Table(k') == old(Table(k'))
    {
      var found := IndexOf(Table(k), ItemId, id);
      if found.None? {
        return Fail(400, DeleteFailed);
      }
      RemoveKeepsGood(Table(k), ItemId, nextId, found.value);
      SetTable(k, RemoveAt(Table(k), found.value));
      r := Ok(200, Deleted);
    }
  }

  // ---------------------------------------------------------------------------
  // Reads

  predicate KeyMatches(x: ContentItem, key: string) {
    x.id == key || x.slug == key
  }

  /** The position of the first row whose id or slug equals the key. */
  function FirstMatch(t: seq<ContentItem>, key: string): (r: Option<nat>)
    ensures r.Some? ==> r.value < |t| && KeyMatches(t[r.value], key)
    ensures r.Some? ==> forall j :: 0 <= j < r.value ==> !KeyMatches(t[j], key)
    ensures r.None? ==> forall j :: 0 <= j < |t| ==> !KeyMatches(t[j], key)
  {
    if t == [] then None
    else if KeyMatches(t[0], key) then Some(0)
    else match FirstMatch(t[1..], key)
      case None => None
      case Some(j) => Some(j + 1)
  }

  /** `getContent(kind)`: the first row whose id or slug is the key, else 404. */
  function GetContent(t: seq<ContentItem>, key: string): (r: Outcome<ContentItem>)
    ensures r.Ok? ==> r.status == 200 && r.value in t && KeyMatches(r.value, key)
    ensures r.Fail? ==> r == Fail(404, NotFound)
  {
    match FirstMatch(t, key)
    case Some(i) => Ok(200, t[i])
    case None => Fail(404, NotFound)
  }

  /** A lookup answers with a row matching the key exactly, or 404 exactly when
      no row has that id or slug; an item is found by its id and by its slug. */
  lemma GetContentMeaning(t: seq<ContentItem>, key: string)
    ensures GetContent(t, key).Ok? ==>
      GetContent(t, key).status == 200 && GetContent(t, key).value in t &&
      KeyMatches(GetContent(t, key).value, key)
    ensures GetContent(t, key) == Fail(404, NotFound) <==> forall x :: x in t ==> !KeyMatches(x, key)
    ensures forall x :: x in t && (x.id == key || x.slug == key) ==> GetContent(t, key).Ok?
  {
  }

  /** When no slug collides with another row's id or slug, the item is found by
      its id and by its slug. */
  lemma LookupByIdAndBySlug(t: seq<ContentItem>, i: nat)
    requires i < |t|
    requires forall j :: 0 <= j < |t| && j != i ==> !KeyMatches(t[j], t[i].id) && !KeyMatches(t[j], t[i].slug)
    ensures GetContent(t, t[i].id) == Ok(200, t[i])
    ensures GetContent(t, t[i].slug) == Ok(200, t[i])
  {
  }

  /** The listing filters: a truthy value must equal the row's field; a falsy one does not constrain. */
  predicate PassesFilters(x: ContentItem, status: Option<string>, language: Option<string>) {
    (Truthy(status) ==> StatusName(x.status) == status.value) &&
    (Truthy(language) ==> x.language == language.value)
  }

  function Filter(t: seq<ContentItem>, status: Option<string>, language: Option<string>): (r: seq<ContentItem>)
    ensures forall x :: multiset(r)[x] == if PassesFilters(x, status, language) then multiset(t)[x] else 0
  {
    if t == [] then []
    else
      assert t == [t[0]] + t[1..];
      (if PassesFilters(t[0], status, language) then [t[0]] else []) + Filter(t[1..], status, language)
  }

  /** `getAllContent(kind)`: the filtered rows, newest created first. A status
      filter outside the enum makes the database query fail, which is a 500. */
  function ListContent(t: seq<ContentItem>, status: Option<string>, language: Option<string>)
    : (r: Outcome<seq<ContentItem>>)
    ensures r.Fail? ==> r == Fail(500, ListFailed)
    ensures r.Ok? ==> r.status == 200 && SortedDesc(r.value, CreatedAt)
  {
    if Truthy(status) && ParseStatus(status.value).None? then Fail(500, ListFailed)
    else Ok(200, SortDesc(Filter(t, status, language), CreatedAt))
  }

  /** The listing holds exactly the rows that pass every truthy filter, each as
      often as in the table, ordered by creation time descending. */
  lemma ListContentMeaning(t: seq<ContentItem>, status: Option<string>, language: Option<string>)
    ensures ListContent(t, status, language).Fail? <==> Truthy(status) && ParseStatus(status.value).None?
    ensures ListContent(t, status, language).Ok? ==>
      var r := ListContent(t, status, language).value;
      SortedDesc(r, CreatedAt) &&
      (forall x :: multiset(r)[x] == if PassesFilters(x, status, language) then multiset(t)[x] else 0) &&
      (forall x :: x in r <==> x in t && PassesFilters(x, status, language))
  {
    if ListContent(t, status, language).Ok? {
      var f := Filter(t, status, language);
      var r := ListContent(t, status, language).value;
      forall x ensures x in r <==> x in t && PassesFilters(x, status, language) {
        assert x in r <==> multiset(r)[x] > 0;
        assert x in t <==> multiset(t)[x] > 0;
      }
    }
  }

  /** Without filters the listing is the whole table, reordered. */
  lemma UnfilteredListIsWholeTable(t: seq<ContentItem>)
    ensures ListContent(t, None, None).Ok?
    ensures multiset(ListContent(t, None, None).value) == multiset(t)
  {
    var r := ListContent(t, None, None).value;
    assert forall x :: multiset(r)[x] == multiset(t)[x];
  }

  // ---------------------------------------------------------------------------
  // Recent activity

  /** A row of the activity feed: the item and the kind it is tagged with. */
  datatype Activity = Activity(item: ContentItem, kind: Kind) {
    function Type(): string { KindTag(kind) }
  }

  function ActivityUpdatedAt(a: Activity): int { a.item.updatedAt }

  const PerKind: nat := 5
  const FeedSize: nat := 10

  function Tag(k: Kind, t: seq<ContentItem>): (r: seq<Activity>)
    ensures |r| == |t|
    ensures forall i :: 0 <= i < |t| ==> r[i] == Activity(t[i], k)
  {
    seq(|t|, i requires 0 <= i < |t| => Activity(t[i], k))
  }

  /** `findMany({ take: 5, orderBy: { updatedAt: 'desc' } })` on one table. */
  function Latest(t: seq<ContentItem>): (r: seq<ContentItem>)
    ensures |r| == if |t| < PerKind then |t| else PerKind
  {
    Take(SortDesc(t, UpdatedAt), PerKind)
  }

  function Candidates(posts: seq<ContentItem>, projects: seq<ContentItem>, stories: seq<ContentItem>)
    : (r: seq<Activity>)
    ensures |r| <= 3 * PerKind
  {
    Tag(Post, Latest(posts)) + Tag(Project, Latest(projects)) + Tag(Story, Latest(stories))
  }

  /** `getRecentActivity`: the latest five of each kind, tagged, merged by
      update time descending, cut to ten. */
  function RecentActivity(posts: seq<ContentItem>, projects: seq<ContentItem>, stories: seq<ContentItem>)
    : (r: seq<Activity>)
    ensures |r| <= FeedSize
  {
    Take(SortDesc(Candidates(posts, projects, stories), ActivityUpdatedAt), FeedSize)
  }

  /** The rows of the feed tagged with kind k. */
  function OfKind(s: seq<Activity>, k: Kind): seq<Activity> {
    if s == [] then []
    else (if s[0].kind == k then [s[0]] else []) + OfKind(s[1..], k)
  }

  lemma {:induction false} OfKindMultiset(s: seq<Activity>, k: Kind)
    ensures forall a :: multiset(OfKind(s, k))[a] == if a.kind == k then multiset(s)[a] else 0
    decreases |s|
  {
    if s != [] {
      assert s == [s[0]] + s[1..];
      OfKindMultiset(s[1..], k);
    }
  }

  lemma {:induction false} OfKindConcat(a: seq<Activity>, b: seq<Activity>, k: Kind)
    ensures OfKind(a + b, k) == OfKind(a, k) + OfKind(b, k)
    decreases |a|
  {
    if a != [] {
      assert (a + b)[1..] == a[1..] + b;
      OfKindConcat(a[1..], b, k);
    } else {
      assert a + b == b;
    }
  }

  lemma OfKindPermutation(a: seq<Activity>, b: seq<Activity>, k: Kind)
    requires multiset(a) == multiset(b)
    ensures |OfKind(a, k)| == |OfKind(b, k)|
  {
    OfKindMultiset(a, k);
    OfKindMultiset(b, k);
    assert multiset(OfKind(a, k)) == multiset(OfKind(b, k));
    assert |multiset(OfKind(a, k))| == |OfKind(a, k)|;
    assert |multiset(OfKind(b, k))| == |OfKind(b, k)|;
  }

  lemma {:induction false} OfKindTag(t: seq<ContentItem>, tagged: Kind, k: Kind)
    ensures OfKind(Tag(tagged, t), k) == if tagged == k then Tag(tagged, t) else []
    decreases |t|
  {
    if t != [] {
      assert Tag(tagged, t)[1..] == Tag(tagged, t[1..]);
      OfKindTag(t[1..], tagged, k);
      assert Tag(tagged, t) == [Activity(t[0], tagged)] + Tag(tagged, t[1..]);
    }
  }

  function TableOf(k: Kind, posts: seq<ContentItem>, projects: seq<ContentItem>, stories: seq<ContentItem>)
    : seq<ContentItem>
  {
    match k
    case Post => posts
    case Project => projects
    case Story => stories
  }

  lemma CandidatesOfKind(posts: seq<ContentItem>, projects: seq<ContentItem>, stories: seq<ContentItem>, k: Kind)
    ensures OfKind(Candidates(posts, projects, stories), k) == Tag(k, Latest(TableOf(k, posts, projects, stories)))
  {
    var lp, lq, ls := Latest(posts), Latest(projects), Latest(stories);
    TaggedOfKind(lp, lq, ls, k);
    assert Latest(TableOf(k, posts, projects, stories)) == TableOf(k, lp, lq, ls) by {
      match k
      case Post =>
      case Project =>
      case Story =>
    }
  }

  /** Picking one kind out of the three tagged tables gives that table back, tagged. */
  lemma TaggedOfKind(lp: seq<ContentItem>, lq: seq<ContentItem>, ls: seq<ContentItem>, k: Kind)
    ensures OfKind(Tag(Post, lp) + Tag(Project, lq) + Tag(Story, ls), k) == Tag(k, TableOf(k, lp, lq, ls))
  {
    var p, q, s := Tag(Post, lp), Tag(Project, lq), Tag(Story, ls);
    OfKindConcat(p + q, s, k);
    OfKindConcat(p, q, k);
    OfKindTag(lp, Post, k);
    OfKindTag(lq, Project, k);
    OfKindTag(ls, Story, k);
    match k
    case Post =>
      assert OfKind(p + q + s, k) == p + [] + [];
    case Project =>
      assert OfKind(p + q + s, k) == [] + q + [];
    case Story =>
      assert OfKind(p + q + s, k) == [] + [] + s;
  }

  lemma CandidatesComeFromTheirTables(posts: seq<ContentItem>, projects: seq<ContentItem>, stories: seq<ContentItem>)
    ensures forall a :: a in Candidates(posts, projects, stories) ==>
      a.item in Latest(TableOf(a.kind, posts, projects, stories))
  {
    var lp, lq, ls := Latest(posts), Latest(projects), Latest(stories);
    TaggedMembers(Post, lp);
    TaggedMembers(Project, lq);
    TaggedMembers(Story, ls);
    assert Candidates(posts, projects, stories) == Tag(Post, lp) + Tag(Project, lq) + Tag(Story, ls);
  }

  lemma TaggedMembers(k: Kind, t: seq<ContentItem>)
    ensures forall a :: a in Tag(k, t) ==> a.kind == k && a.item in t
  {
    forall a | a in Tag(k, t) ensures a.kind == k && a.item in t {
      var i :| 0 <= i < |t| && Tag(k, t)[i] == a;
    }
  }

  function Min(a: nat, b: nat): nat { if a < b then a else b }

  lemma RecentActivityLength(posts: seq<ContentItem>, projects: seq<ContentItem>, stories: seq<ContentItem>)
    ensures |RecentActivity(posts, projects, stories)|
      == Min(FeedSize, Min(PerKind, |posts|) + Min(PerKind, |projects|) + Min(PerKind, |stories|))
  {
  }

  lemma RecentActivityOrdered(posts: seq<ContentItem>, projects: seq<ContentItem>, stories: seq<ContentItem>)
    ensures SortedDesc(RecentActivity(posts, projects, stories), ActivityUpdatedAt)
  {
    TakeKeepsOrder(SortDesc(Candidates(posts, projects, stories), ActivityUpdatedAt), FeedSize, ActivityUpdatedAt);
  }

  lemma RecentActivityProvenance(posts: seq<ContentItem>, projects: seq<ContentItem>, stories: seq<ContentItem>, a: Activity)
    requires a in RecentActivity(posts, projects, stories)
    ensures a.item in Latest(TableOf(a.kind, posts, projects, stories))
    ensures a.item in TableOf(a.kind, posts, projects, stories)
  {
    var c := Candidates(posts, projects, stories);
    MultisetMembership(c, SortDesc(c, ActivityUpdatedAt), a);
    CandidatesComeFromTheirTables(posts, projects, stories);
    var t := TableOf(a.kind, posts, projects, stories);
    MultisetMembership(t, SortDesc(t, UpdatedAt), a.item);
  }

  lemma RecentActivityPerKind(posts: seq<ContentItem>, projects: seq<ContentItem>, stories: seq<ContentItem>, k: Kind)
    ensures |OfKind(RecentActivity(posts, projects, stories), k)| <= PerKind
  {
    var c := Candidates(posts, projects, stories);
    var sorted := SortDesc(c, ActivityUpdatedAt);
    var r := Take(sorted, FeedSize);
    assert r == RecentActivity(posts, projects, stories);
    var rest := sorted[|r|..];
    assert sorted == r + rest;
    OfKindConcat(r, rest, k);
    assert |OfKind(r, k)| <= |OfKind(sorted, k)|;
    OfKindPermutation(sorted, c, k);
    CandidatesOfKind(posts, projects, stories, k);
    var latest := Latest(TableOf(k, posts, projects, stories));
    assert |OfKind(c, k)| == |Tag(k, latest)| == |latest| <= PerKind;
  }

  /** The feed: at most ten rows, newest update first, each row an item of the
      table of the kind it is tagged with and among that table's five latest,
      and at most five rows per kind. */
  lemma RecentActivityMeaning(posts: seq<ContentItem>, projects: seq<ContentItem>, stories: seq<ContentItem>)
    ensures var r := RecentActivity(posts, projects, stories);
      |r| == Min(FeedSize, Min(PerKind, |posts|) + Min(PerKind, |projects|) + Min(PerKind, |stories|)) &&
      SortedDesc(r, ActivityUpdatedAt) &&
      (forall a :: a in r ==> a.item in Latest(TableOf(a.kind, posts, projects, stories))) &&
      (forall a :: a in r ==> a.item in TableOf(a.kind, posts, projects, stories)) &&
      (forall k :: |OfKind(r, k)| <= PerKind)
  {
    RecentActivityLength(posts, projects, stories);
    RecentActivityOrdered(posts, projects, stories);
    forall a | a in RecentActivity(posts, projects, stories)
      ensures a.item in Latest(TableOf(a.kind, posts, projects, stories))
      ensures a.item in TableOf(a.kind, posts, projects, stories)
    {
      RecentActivityProvenance(posts, projects, stories, a);
    }
    forall k ensures |OfKind(RecentActivity(posts, projects, stories), k)| <= PerKind {
      RecentActivityPerKind(posts, projects, stories, k);
    }
  }

  /** The cut to ten drops nothing newer than what it keeps. */
  lemma RecentActivityKeepsNewest(posts: seq<ContentItem>, projects: seq<ContentItem>, stories: seq<ContentItem>,
                                  dropped: Activity, kept: Activity)
    requires kept in RecentActivity(posts, projects, stories)
    requires dropped in Candidates(posts, projects, stories) && dropped !in RecentActivity(posts, projects, stories)
    ensures dropped.item.updatedAt <= kept.item.updatedAt
  {
    TakeOfSortedIsTop(Candidates(posts, projects, stories), FeedSize, ActivityUpdatedAt, dropped, kept);
  }

  /** Within one kind, an item left out of the five latest is no newer than any kept. */
  lemma LatestKeepsNewest(t: seq<ContentItem>, dropped: ContentItem, kept: ContentItem)
    requires kept in Latest(t) && dropped in t && dropped !in Latest(t)
    ensures dropped.updatedAt <= kept.updatedAt
  {
    TakeOfSortedIsTop(t, PerKind, UpdatedAt, dropped, kept);
  }

  // ---------------------------------------------------------------------------
  // Dashboard counts

  datatype Stats = Stats(posts: nat, projects: nat, stories: nat, users: nat)

  /** The count a dashboard card shows for one kind. */
  function Count(s: Stats, k: Kind): nat {
    match k
    case Post => s.posts
    case Project => s.projects
    case Story => s.stories
  }

  /** `getDashboardStats`: the row count of each content table and of the
      account table. */
  function DashboardStats(store: ContentStore, accounts: Users.UserStore): (s: Stats)
    reads store, accounts
    ensures forall k :: Count(s, k) == |store.Table(k)|
    ensures s.users == |accounts.users|
  {
    Stats(|store.posts|, |store.projects|, |store.stories|, |accounts.users|)
  }

  /** A successful create raises its kind's count by one and leaves the other
      counts; a refused one leaves every count. */
  method CountsAfterCreate(store: ContentStore, accounts: Users.UserStore, k: Kind, actorId: Option<string>,
                           body: CreateBody, authorExists: bool, dbMessage: string, now: int)
    returns (before: Stats, r: Outcome<ContentItem>, after: Stats)
    requires store.Valid()
    modifies store
    ensures store.Valid()
    ensures r.Ok? ==> Count(after, k) == Count(before, k) + 1
    ensures r.Ok? ==> forall k' :: k' != k ==> Count(after, k') == Count(before, k')
    ensures r.Fail? ==> after == before
    ensures after.users == before.users
  {
    before := DashboardStats(store, accounts);
    r := store.Create(k, actorId, body, authorExists, dbMessage, now);
    after := DashboardStats(store, accounts);
  }

  /** A successful delete lowers its kind's count by one and leaves the other
      counts; a refused one leaves every count. */
  method CountsAfterDelete(store: ContentStore, accounts: Users.UserStore, k: Kind, id: string)
    returns (before: Stats, r: Outcome<string>, after: Stats)
    requires store.Valid()
    modifies store
    ensures store.Valid()
    ensures r.Ok? ==> Count(after, k) + 1 == Count(before, k)
    ensures r.Ok? ==> forall k' :: k' != k ==> Count(after, k') == Count(before, k')
    ensures r.Fail? ==> after == before
    ensures after.users == before.users
  {
    before := DashboardStats(store, accounts);
    ghost var found := IndexOf(store.Table(k), ItemId, id);
    ghost var previous := store.Table(k);
    r := store.Delete(k, id);
    after := DashboardStats(store, accounts);
    if found.Some? {
      assert |store.Table(k)| == |previous| - 1;
    }
  }

  /** A successful registration raises the account count by one; content
      counts never move. */
  method CountsAfterRegister(store: ContentStore, accounts: Users.UserStore, email: Option<string>,
                             password: Option<string>, name: Option<string>, hash: string -> string, now: int)
    returns (before: Stats, r: Outcome<Users.Session<Users.Account>>, after: Stats)
    requires accounts.Valid()
    modifies accounts
    ensures accounts.Valid()
    ensures r.Ok? ==> after.users == before.users + 1
    ensures r.Fail? ==> after == before
    ensures forall k :: Count(after, k) == Count(before, k)
  {
    before := DashboardStats(store, accounts);
    r := accounts.Register(email, password, name, hash, now);
    after := DashboardStats(store, accounts);
  }

  /** A successful account deletion lowers the account count by one; content
      counts never move. */
  method CountsAfterDeleteUser(store: ContentStore, accounts: Users.UserStore, id: string, referenced: bool)
    returns (before: Stats, r: Outcome<string>, after: Stats)
    requires accounts.Valid()
    modifies accounts
    ensures accounts.Valid()
    ensures r.Ok? ==> after.users + 1 == before.users
    ensures r.Fail? ==> after == before
    ensures forall k :: Count(after, k) == Count(before, k)
  {
    before := DashboardStats(store, accounts);
    r := accounts.DeleteUser(id, referenced);
    after := DashboardStats(store, accounts);
  }
}
