/** The media handlers: uploads become rows of the media table and files in
    the upload directory; the usage check searches the content tables for a
    file's url. The clock and the random suffix are parameters. */
module Media {
  import opened Base
  import opened Text
  import opened Order
  import opened Tables
  import opened Content

  /** The one form field the upload route reads a file from. */
  const UploadField := "file"
  const UploadPrefix := "/uploads/"

  const NoFile := "No file uploaded"
  /** The reply of the application-wide error handler. */
  const ServerError := "Something went wrong!"
  const MediaNotFound := "Media not found"
  const MediaDeleted := "Media deleted successfully"

  /** A file part of a multipart request, as the upload middleware sees it. */
  datatype FilePart = FilePart(fieldname: string, originalname: string, mimetype: string, size: nat)

  /** A row of the media table. */
  datatype MediaRecord = MediaRecord(id: string, filename: string, url: string, mimetype: string, size: nat, createdAt: int)

  function MediaId(m: MediaRecord): string { m.id }
  function MediaCreatedAt(m: MediaRecord): int { m.createdAt }

  /** The random part of the suffix, `Math.round(Math.random() * 1e9)`. */
  const MaxRandom: nat := 1000000000

  /** The name a stored file gets: field name, '-', the clock in
      milliseconds, '-', the random number, then the original extension. */
  function StoredFilename(file: FilePart, now: nat, rand: nat): (name: string)
    requires rand <= MaxRandom
    ensures |name| > |file.fieldname| + 1
  {
    file.fieldname + "-" + NatToString(now) + "-" + NatToString(rand) + Extname(file.originalname)
  }

  /** The name starts with the field name and the clock, and ends with the
      original file's extension: a '.' and what follows the last dot of its
      base name, or nothing. */
  lemma StoredFilenameShape(file: FilePart, now: nat, rand: nat)
    requires rand <= MaxRandom
    ensures var name := StoredFilename(file, now, rand);
      var e := Extname(file.originalname);
      name[..|file.fieldname| + 1] == file.fieldname + "-" &&
      |e| <= |name| && name[|name| - |e|..] == e &&
      (e == "" || e[0] == '.')
  {
    ExtnameShape(file.originalname);
    var name := StoredFilename(file, now, rand);
    var e := Extname(file.originalname);
    assert name == (file.fieldname + "-") + (NatToString(now) + "-" + NatToString(rand)) + e;
  }

  /** Two uploads of the same file with the same random part but at
      different milliseconds get different names. */
  lemma DifferentClocksDifferentNames(file: FilePart, now: nat, now': nat, rand: nat)
    requires rand <= MaxRandom && now != now'
    ensures StoredFilename(file, now, rand) != StoredFilename(file, now', rand)
  {
    var p := file.fieldname + "-";
    var a := NatToString(now);
    var b := NatToString(now');
    var rest := "-" + NatToString(rand) + Extname(file.originalname);
    NatToStringInjective(now, now');
    var x := p + a + rest;
    var y := p + b + rest;
    assert StoredFilename(file, now, rand) == x;
    assert StoredFilename(file, now', rand) == y;
    if |a| != |b| {
      assert |x| != |y|;
    } else {
      var i :| 0 <= i < |a| && a[i] != b[i];
      assert x[|p| + i] == a[i] && y[|p| + i] == b[i];
    }
  }

  /** The row an upload stores. */
  function NewRecord(id: string, file: FilePart, now: nat, rand: nat): (m: MediaRecord)
    requires rand <= MaxRandom
    ensures m.filename == StoredFilename(file, now, rand)
    ensures m.url == UploadPrefix + m.filename
    ensures m.mimetype == file.mimetype && m.size == file.size && m.id == id && m.createdAt == now
  {
    var name := StoredFilename(file, now, rand);
    MediaRecord(id, name, UploadPrefix + name, file.mimetype, file.size, now)
  }

  /** `getAllMedia`: every row, newest first. */
  function GetAllMedia(records: seq<MediaRecord>): (r: seq<MediaRecord>)
    ensures SortedDesc(r, MediaCreatedAt)
    ensures multiset(r) == multiset(records)
  {
    SortDesc(records, MediaCreatedAt)
  }

  class MediaStore {
    var records: seq<MediaRecord>
    /** Names of the files present in the upload directory. */
    var files: set<string>
    var nextId: nat

    ghost predicate Valid()
      reads this
    {
      GoodTable(records, MediaId, nextId)
    }

    constructor ()
      ensures Valid() && records == [] && files == {}
    {
      records, files, nextId := [], {}, 0;
    }

    /** The upload route: a file under another field name is refused by the
        upload middleware, whose error reaches the application's error
        handler (500); no file is a 400; otherwise the file is written under its
        stored name and its row is created and returned with status 201. */
    method Upload(part: Option<FilePart>, now: nat, rand: nat) returns (r: Outcome<MediaRecord>)
      requires Valid() && rand <= MaxRandom
      modifies this
      ensures Valid()
      ensures part.None? ==> r == Fail(400, NoFile) && records == old(records) && files == old(files)
      ensures part.Some? && part.value.fieldname != UploadField ==>
        r == Fail(500, ServerError) && records == old(records) && files == old(files)
      ensures part.Some? && part.value.fieldname == UploadField ==>
        r == Ok(201, NewRecord(NatToString(old(nextId)), part.value, now, rand)) &&
        records == old(records) + [r.value] &&
        files == old(files) + {r.value.filename}
    {
      if part.None? {
        return Fail(400, NoFile);
      }
      var file := part.value;
      if file.fieldname != UploadField {
        return Fail(500, ServerError);
      }
      var m := NewRecord(NatToString(nextId), file, now, rand);
      files := files + {m.filename};
      AppendKeepsGood(records, MediaId, nextId, m);
      records := records + [m];
      nextId := nextId + 1;
      r := Ok(201, m);
    }

    /** `deleteMedia`: 404 for an unknown id, changing nothing; otherwise the
        row goes and its file is removed if present. */
    method Delete(id: string) returns (r: Outcome<string>)
      requires Valid()
      modifies this
      ensures Valid()
      ensures IndexOf(old(records), MediaId, id).None? ==>
        r == Fail(404, MediaNotFound) && records == old(records) && files == old(files)
      ensures IndexOf(old(records), MediaId, id).Some? ==>
        var i := IndexOf(old(records), MediaId, id).value;
        r == Ok(200, MediaDeleted) &&
        records == RemoveAt(old(records), i) &&
        files == old(files) - {old(records)[i].filename}
    {
      var found := IndexOf(records, MediaId, id);
      if found.None? {
        return Fail(404, MediaNotFound);
      }
      var m := records[found.value];
      RemoveKeepsGood(records, MediaId, nextId, found.value);
      records := RemoveAt(records, found.value);
      if m.filename in files {
        files := files - {m.filename};
      }
      r := Ok(200, MediaDeleted);
    }
  }

  // ---------------------------------------------------------------------------
  // Usage

  /** A row of the usage reply. */
  datatype Usage = Usage(id: string, title: string, kind: string)

  /** `content::text ILIKE '%url%'`; a row without content never matches. */
  predicate Mentions(x: ContentItem, url: string)
    ensures Mentions(x, url) ==> x.content.Some? && |url| <= |x.content.value|
  {
    x.content.Some? && ContainsIgnoringCase(x.content.value, url)
  }

  /** The rows of one table that mention the url, in table order. */
  function Mentioning(t: seq<ContentItem>, url: string): (r: seq<ContentItem>)
    ensures |r| <= |t|
    ensures forall x :: x in r ==> x in t && Mentions(x, url)
  {
    if t == [] then [] else (if Mentions(t[0], url) then [t[0]] else []) + Mentioning(t[1..], url)
  }

  /** Each row that mentions the url is kept as often as the table holds it; no other row is. */
  lemma {:induction false} MentioningMultiset(t: seq<ContentItem>, url: string)
    ensures forall x :: multiset(Mentioning(t, url))[x] == if Mentions(x, url) then multiset(t)[x] else 0
    decreases |t|
  {
    if t != [] {
      assert t == [t[0]] + t[1..];
      MentioningMultiset(t[1..], url);
    }
  }

  /** The search keeps table order: filtering a concatenation filters each part. */
  lemma {:induction false} MentioningConcat(a: seq<ContentItem>, b: seq<ContentItem>, url: string)
    ensures Mentioning(a + b, url) == Mentioning(a, url) + Mentioning(b, url)
    decreases |a|
  {
    if a != [] {
      assert (a + b)[0] == a[0] && (a + b)[1..] == a[1..] + b;
      MentioningConcat(a[1..], b, url);
    } else {
      assert a + b == b;
    }
  }

  function UsageRows(t: seq<ContentItem>, k: Kind): (r: seq<Usage>)
    ensures |r| == |t|
    ensures forall i :: 0 <= i < |t| ==> r[i] == Usage(t[i].id, t[i].title, KindTag(k))
  {
    seq(|t|, i requires 0 <= i < |t| => Usage(t[i].id, t[i].title, KindTag(k)))
  }

  /** `getMediaUsage`: 404 for an unknown id; otherwise the mentioning posts,
      then projects, then stories, each tagged with its kind. */
  function GetMediaUsage(records: seq<MediaRecord>, id: string, posts: seq<ContentItem>,
                         projects: seq<ContentItem>, stories: seq<ContentItem>)
    : (r: Outcome<seq<Usage>>)
    ensures r.Fail? <==> IndexOf(records, MediaId, id).None?
    ensures r.Fail? ==> r == Fail(404, MediaNotFound)
  {
    match IndexOf(records, MediaId, id)
    case None => Fail(404, MediaNotFound)
    case Some(i) =>
      var url := records[i].url;
      Ok(200, UsageRows(Mentioning(posts, url), Post) + UsageRows(Mentioning(projects, url), Project)
              + UsageRows(Mentioning(stories, url), Story))
  }

  /** The reply lists, in this order, the posts, projects and stories whose
      content mentions the file's url ignoring case, each in table order
      and tagged with its kind. */
  lemma GetMediaUsageMeaning(records: seq<MediaRecord>, id: string, posts: seq<ContentItem>,
                             projects: seq<ContentItem>, stories: seq<ContentItem>)
    requires IndexOf(records, MediaId, id).Some?
    ensures var url := records[IndexOf(records, MediaId, id).value].url;
      var p := Mentioning(posts, url);
      var q := Mentioning(projects, url);
      var s := Mentioning(stories, url);
      var r := GetMediaUsage(records, id, posts, projects, stories);
      (forall x :: x in p <==> x in posts && Mentions(x, url)) &&
      (forall x :: x in q <==> x in projects && Mentions(x, url)) &&
      (forall x :: x in s <==> x in stories && Mentions(x, url)) &&
      r == Ok(200, UsageRows(p, Post) + UsageRows(q, Project) + UsageRows(s, Story)) &&
      |r.value| == |p| + |q| + |s|
  {
    var url := records[IndexOf(records, MediaId, id).value].url;
    MentioningMembers(posts, url);
    MentioningMembers(projects, url);
    MentioningMembers(stories, url);
  }

  lemma MentioningMembers(t: seq<ContentItem>, url: string)
    ensures forall x :: x in Mentioning(t, url) <==> x in t && Mentions(x, url)
  {
    var r := Mentioning(t, url);
    MentioningMultiset(t, url);
    forall x ensures x in r <==> x in t && Mentions(x, url) {
      assert x in r <==> multiset(r)[x] > 0;
      assert x in t <==> multiset(t)[x] > 0;
    }
  }

  /** A file referenced with different letter case is still reported. */
  lemma UsageIgnoresCase(x: ContentItem, url: string)
    requires x.content.Some?
    ensures Mentions(x, url) == (x.content.Some? && ContainsIgnoringCase(Lower(x.content.value), url))
    ensures x.content.Some? && Contains(x.content.value, url) ==> Mentions(x, url)
  {
    CaseOfEitherSideIrrelevant(x.content.value, url);
    ExactMatchIsCaseInsensitiveMatch(x.content.value, url);
  }
}
