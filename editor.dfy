/** The content editor page of the admin client: its form state, the markdown
    toolbar's text splice and the save request it issues. The textarea exists
    only in edit mode (not in preview); its selection is part of the state. */
module Editor {
  import opened Base

  /** The editor's form. */
  datatype FormData = FormData(title: string, slug: string, content: string, status: string, language: string)

  /** An empty form: no title, slug or content; a draft in English. */
  function InitialForm(): (f: FormData)
    ensures f.title == "" && f.slug == "" && f.content == ""
    ensures f.status == "DRAFT" && f.language == "en"
  {
    FormData("", "", "", "DRAFT", "en")
  }

  /** The content field of a fetched item: a string, or any other JSON value
      together with its two-space-indented JSON text (null included). */
  datatype LoadedContent = Text(text: string) | Structured(json: string)

  /** A fetched item, as the editor reads it. */
  datatype LoadedItem = LoadedItem(title: string, slug: string, content: LoadedContent, status: string, language: string)

  /** The form filled from a fetched item: string content is kept as it is,
      anything else becomes its JSON text. */
  function FormOf(item: LoadedItem): (f: FormData)
    ensures f.title == item.title && f.slug == item.slug
    ensures f.status == item.status && f.language == item.language
    ensures item.content.Text? ==> f.content == item.content.text
    ensures item.content.Structured? ==> f.content == item.content.json
  {
    var text := match item.content
      case Text(s) => s
      case Structured(j) => j;
    FormData(item.title, item.slug, text, item.status, item.language)
  }

  // ---------------------------------------------------------------------------
  // The splice

  function Min(a: int, b: int): int { if a < b then a else b }
  function Max(a: int, b: int): int { if a < b then b else a }

  /** JavaScript's `s.substring(a, b)`: both ends are clamped to the string,
      and swapped when the first is the larger. */
  function Substring(s: string, a: int, b: int): (r: string)
    ensures |r| <= |s|
  {
    var lo := Min(Max(Min(a, b), 0), |s|);
    var hi := Min(Max(Max(a, b), 0), |s|);
    s[lo..hi]
  }

  /** Inside the string the substring is the slice; past either end it
      clamps; its ends may come in either order. */
  lemma SubstringMeaning(s: string, a: int, b: int)
    ensures 0 <= a <= b <= |s| ==> Substring(s, a, b) == s[a..b]
    ensures Substring(s, a, b) == Substring(s, b, a)
    ensures a <= b ==> Substring(s, a, b) == s[Min(Max(a, 0), |s|)..Min(Max(b, 0), |s|)]
    ensures |s| <= a && |s| <= b ==> Substring(s, a, b) == []
  {
  }

  /** The content after `insertText(before, after)` with the selection
      [start, end]: the text before the selection, `before`, the selected
      text, `after`, then the rest. */
  function Splice(text: string, start: nat, end: nat, before: string, after: string): string {
    Substring(text, 0, start) + before + Substring(text, start, end) + after + Substring(text, end, |text|)
  }

  /** A selection as a text area reports it: ordered and inside the text. */
  predicate InText(text: string, start: nat, end: nat) {
    start <= end <= |text|
  }

  /** The pieces of a five-part concatenation sit at the offsets their lengths give. */
  lemma FiveParts(p: string, x: string, m: string, y: string, q: string)
    ensures var r := p + x + m + y + q;
      var i := |p|; var j := |p| + |x|; var k := j + |m|; var l := k + |y|;
      |r| == l + |q| &&
      r[..i] == p && r[i..j] == x && r[j..k] == m && r[k..l] == y && r[l..] == q
  {
  }

  lemma SpliceInText(text: string, start: nat, end: nat, before: string, after: string)
    requires InText(text, start, end)
    ensures Splice(text, start, end, before, after) == text[..start] + before + text[start..end] + after + text[end..]
  {
    SubstringMeaning(text, 0, start);
    SubstringMeaning(text, start, end);
    SubstringMeaning(text, end, |text|);
  }

  /** Within the text, the splice puts `before` and `after` around the selected
      text and keeps everything else, so it grows by their lengths, and the
      restored selection [start + |before|, end + |before|] holds exactly the
      text that was selected. */
  lemma SpliceMeaning(text: string, start: nat, end: nat, before: string, after: string)
    requires InText(text, start, end)
    ensures var r := Splice(text, start, end, before, after);
      r == text[..start] + before + text[start..end] + after + text[end..] &&
      |r| == |text| + |before| + |after| &&
      r[..start] == text[..start] &&
      r[start..start + |before|] == before &&
      r[start + |before|..end + |before|] == text[start..end] &&
      r[end + |before|..end + |before| + |after|] == after &&
      r[end + |before| + |after|..] == text[end..]
  {
    SpliceInText(text, start, end, before, after);
    FiveParts(text[..start], before, text[start..end], after, text[end..]);
  }

  /** With nothing inserted the splice gives the text back. */
  lemma SpliceNothing(text: string, start: nat, end: nat)
    requires InText(text, start, end)
    ensures Splice(text, start, end, "", "") == text
  {
    SpliceInText(text, start, end, "", "");
    assert text[..start] + "" + text[start..end] + "" + text[end..] == text[..start] + text[start..end] + text[end..];
    assert text == text[..start] + text[start..end] + text[end..];
  }

  /** A caret beyond the end of the text clamps to it: the inserted text is appended. */
  lemma SpliceBeyondEnd(text: string, start: nat, end: nat, before: string, after: string)
    requires |text| <= start <= end
    ensures Splice(text, start, end, before, after) == text + before + after
  {
    SubstringMeaning(text, 0, start);
    SubstringMeaning(text, start, end);
    SubstringMeaning(text, end, |text|);
    assert text[0..|text|] == text;
  }

  /** The markdown a toolbar button or the image picker wraps around the selection. */
  datatype Wrap = Wrap(before: string, after: string)

  function BoldWrap(): Wrap { Wrap("**", "**") }
  function ItalicWrap(): Wrap { Wrap("*", "*") }
  function LinkWrap(): Wrap { Wrap("[", "](url)") }
  function ImageWrap(url: string): (w: Wrap)
    ensures w.before == "![Image](" + url + ")" && w.after == ""
  {
    Wrap("![Image](" + url + ")", "")
  }

  /** Bold text is the selection between double asterisks; an image goes in
      front of the selection, which it leaves in place. */
  lemma ToolbarResults(text: string, start: nat, end: nat, url: string)
    requires InText(text, start, end)
    ensures Splice(text, start, end, "**", "**") == text[..start] + "**" + text[start..end] + "**" + text[end..]
    ensures Splice(text, start, end, "*", "*") == text[..start] + "*" + text[start..end] + "*" + text[end..]
    ensures Splice(text, start, end, "[", "](url)") == text[..start] + "[" + text[start..end] + "](url)" + text[end..]
    ensures Splice(text, start, end, ImageWrap(url).before, "") ==
      text[..start] + "![Image](" + url + ")" + text[start..]
  {
    SpliceInText(text, start, end, "**", "**");
    SpliceInText(text, start, end, "*", "*");
    SpliceInText(text, start, end, "[", "](url)");
    ImageInText(text, start, end, "![Image](" + url + ")");
  }

  /** Inserting with nothing after puts the text in front of the selection. */
  lemma ImageInText(text: string, start: nat, end: nat, b: string)
    requires InText(text, start, end)
    ensures Splice(text, start, end, b, "") == text[..start] + b + text[start..]
  {
    SpliceInText(text, start, end, b, "");
    var x, m, e := text[..start], text[start..end], text[end..];
    assert (x + b + m) + "" == x + b + m;
    assert m + e == text[start..];
    calc {
      Splice(text, start, end, b, "");
      x + b + m + e;
      x + b + (m + e);
    }
  }

  // ---------------------------------------------------------------------------
  // Saving

  datatype Verb = PUT | POST

  /** The request `handleSubmit` sends, relative to the API base. */
  datatype SaveRequest = SaveRequest(verb: Verb, path: string, payload: FormData)

  /** The route segment of an editor page: the plural of the kind's tag. */
  function Segment(k: Kind): (s: string)
    ensures k != Story ==> s == KindTag(k) + "s"
    ensures k == Story ==> s == KindTag(k)[..4] + "ies"
  {
    match k
    case Post => "posts"
    case Project => "projects"
    case Story => "stories"
  }

  /** An editor opened on an id saves in place, a new one creates. */
  function SaveRequestFor(k: Kind, id: Option<string>, form: FormData): (r: SaveRequest)
    ensures r.payload == form
    ensures Truthy(id) <==> r.verb == PUT
    ensures Truthy(id) ==> r.path == "/content/" + Segment(k) + "/" + id.value
    ensures !Truthy(id) ==> r.path == "/content/" + Segment(k)
  {
    if Truthy(id) then SaveRequest(PUT, "/content/" + Segment(k) + "/" + id.value, form)
    else SaveRequest(POST, "/content/" + Segment(k), form)
  }

  // ---------------------------------------------------------------------------
  // The page

  class ContentEditor {
    const kind: Kind
    /** The `id` route parameter (None on the "new" page). */
    const id: Option<string>
    var form: FormData
    var loading: bool
    var showPreview: bool
    var showMediaModal: bool
    /** The text area's selection. */
    var selStart: nat
    var selEnd: nat

    /** The selection lies inside the content, as the browser keeps it. */
    ghost predicate Valid()
      reads this
    {
      InText(form.content, selStart, selEnd)
    }

    constructor (k: Kind, routeId: Option<string>)
      ensures Valid()
      ensures kind == k && id == routeId
      ensures form == InitialForm() && !loading && !showPreview && !showMediaModal
      ensures selStart == 0 && selEnd == 0
    {
      kind, id := k, routeId;
      form := InitialForm();
      loading, showPreview, showMediaModal := false, false, false;
      selStart, selEnd := 0, 0;
    }

    /** The fetched item replaces the whole form. Writing the new text into
        the text area puts the caret at its end. */
    method Loaded(item: LoadedItem)
      requires Valid()
      modifies this
      ensures Valid()
      ensures form == FormOf(item)
      ensures selStart == |form.content| && selEnd == |form.content|
      ensures loading == old(loading) && showPreview == old(showPreview)
      ensures showMediaModal == old(showMediaModal)
    {
      form := FormOf(item);
      selStart, selEnd := |form.content|, |form.content|;
    }

    method TogglePreview()
      requires Valid()
      modifies this
      ensures Valid()
      ensures showPreview == !old(showPreview)
      ensures form == old(form) && loading == old(loading) && showMediaModal == old(showMediaModal)
      ensures selStart == old(selStart) && selEnd == old(selEnd)
    {
      showPreview := !showPreview;
    }

    /** The user selects [start, end) in the text area, which keeps the range
        inside its text and ordered. */
    method Select(start: nat, end: nat)
      requires Valid()
      modifies this
      ensures Valid()
      ensures selEnd == Min(end, |form.content|) && selStart == Min(start, selEnd)
      ensures InText(form.content, selStart, selEnd)
      ensures form == old(form) && loading == old(loading) && showPreview == old(showPreview)
      ensures showMediaModal == old(showMediaModal)
    {
      selEnd := Min(end, |form.content|);
      selStart := Min(start, selEnd);
    }

    /** `insertText(before, after)`: without a text area (in preview) nothing
        happens; otherwise only the content changes, by the splice, and the
        selection moves onto the text that was selected. */
    method InsertText(before: string, after: string)
      requires Valid()
      modifies this
      ensures Valid()
      ensures old(showPreview) ==>
        form == old(form) && selStart == old(selStart) && selEnd == old(selEnd)
      ensures !old(showPreview) ==>
        form == old(form).(content := Splice(old(form.content), old(selStart), old(selEnd), before, after)) &&
        selStart == old(selStart) + |before| && selEnd == old(selEnd) + |before|
      ensures loading == old(loading) && showPreview == old(showPreview) && showMediaModal == old(showMediaModal)
    {
      if showPreview {
        return;
      }
      var start, end := selStart, selEnd;
      var previous := form.content;
      SpliceMeaning(previous, start, end, before, after);
      form := form.(content := Splice(previous, start, end, before, after));
      selStart, selEnd := start + |before|, end + |before|;
    }

    method OpenMediaModal()
      requires Valid()
      modifies this
      ensures Valid()
      ensures showMediaModal
      ensures form == old(form) && loading == old(loading) && showPreview == old(showPreview)
      ensures selStart == old(selStart) && selEnd == old(selEnd)
    {
      showMediaModal := true;
    }

    /** A picked image is inserted as markdown and the picker closes. */
    method HandleImageSelect(url: string)
      requires Valid()
      modifies this
      ensures Valid()
      ensures !showMediaModal
      ensures old(showPreview) ==> form == old(form) && selStart == old(selStart) && selEnd == old(selEnd)
      ensures !old(showPreview) ==>
        form == old(form).(content := Splice(old(form.content), old(selStart), old(selEnd), ImageWrap(url).before, "")) &&
        selStart == old(selStart) + |ImageWrap(url).before| && selEnd == old(selEnd) + |ImageWrap(url).before|
      ensures loading == old(loading) && showPreview == old(showPreview)
    {
      var w := ImageWrap(url);
      InsertText(w.before, w.after);
      showMediaModal := false;
    }

    method Bold()
      requires Valid()
      modifies this
      ensures Valid()
      ensures !old(showPreview) ==>
        form == old(form).(content := Splice(old(form.content), old(selStart), old(selEnd), "**", "**")) &&
        selStart == old(selStart) + |"**"| && selEnd == old(selEnd) + |"**"|
      ensures old(showPreview) ==> form == old(form) && selStart == old(selStart) && selEnd == old(selEnd)
      ensures loading == old(loading) && showPreview == old(showPreview) && showMediaModal == old(showMediaModal)
    {
      var w := BoldWrap();
      InsertText(w.before, w.after);
    }

    method Italic()
      requires Valid()
      modifies this
      ensures Valid()
      ensures !old(showPreview) ==>
        form == old(form).(content := Splice(old(form.content), old(selStart), old(selEnd), "*", "*")) &&
        selStart == old(selStart) + |"*"| && selEnd == old(selEnd) + |"*"|
      ensures old(showPreview) ==> form == old(form) && selStart == old(selStart) && selEnd == old(selEnd)
      ensures loading == old(loading) && showPreview == old(showPreview) && showMediaModal == old(showMediaModal)
    {
      var w := ItalicWrap();
      InsertText(w.before, w.after);
    }

    method Link()
      requires Valid()
      modifies this
      ensures Valid()
      ensures !old(showPreview) ==>
        form == old(form).(content := Splice(old(form.content), old(selStart), old(selEnd), "[", "](url)")) &&
        selStart == old(selStart) + |"["| && selEnd == old(selEnd) + |"["|
      ensures old(showPreview) ==> form == old(form) && selStart == old(selStart) && selEnd == old(selEnd)
      ensures loading == old(loading) && showPreview == old(showPreview) && showMediaModal == old(showMediaModal)
    {
      var w := LinkWrap();
      InsertText(w.before, w.after);
    }

    /** The first half of `handleSubmit`: loading is set and the save request
        is sent with the whole form as its body. */
    method BeginSubmit() returns (req: SaveRequest)
      requires Valid()
      modifies this
      ensures Valid()
      ensures loading
      ensures req == SaveRequestFor(kind, id, form)
      ensures form == old(form) && showPreview == old(showPreview) && showMediaModal == old(showMediaModal)
      ensures selStart == old(selStart) && selEnd == old(selEnd)
    {
      loading := true;
      req := SaveRequestFor(kind, id, form);
    }

    /** The second half: loading is cleared, whether or not the save worked;
        a saved item leads back to the list of its kind, a failure stays. */
    method FinishSubmit(saved: bool) returns (navigateTo: Option<string>)
      requires Valid()
      modifies this
      ensures Valid()
      ensures !loading
      ensures saved ==> navigateTo == Some("/" + Segment(kind))
      ensures !saved ==> navigateTo == None
      ensures form == old(form) && showPreview == old(showPreview) && showMediaModal == old(showMediaModal)
      ensures selStart == old(selStart) && selEnd == old(selEnd)
    {
      navigateTo := if saved then Some("/" + Segment(kind)) else None;
      loading := false;
    }
  }

  /** Opening an existing item and pressing Bold straight away wraps the empty
      selection at the end of the loaded text; the caret stays between the
      two pairs of asterisks. */
  method LoadThenBold(k: Kind, routeId: string, item: LoadedItem) returns (text: string, caret: nat)
    ensures text == FormOf(item).content + "****"
    ensures caret == |FormOf(item).content| + 2
  {
    var page := new ContentEditor(k, Some(routeId));
    page.Loaded(item);
    page.Bold();
    var loaded := FormOf(item).content;
    SpliceBeyondEnd(loaded, |loaded|, |loaded|, "**", "**");
    text, caret := page.form.content, page.selStart;
  }
}
