/** Report export (`word`, `ppt` and `pdf`): what each builds from the
    history, as the sequence of parts handed to the document library. */
module Export {
  import opened Common
  import opened Chat
  import opened Office

  const WordTitle: string := "Dynamo AI Research Report"
  const PdfTitle: string := "Dynamo AI Intelligence Report"
  const SlideTitle: string := "Research Insight"
  /** `prs.slide_layouts[1]`, the title-and-content layout. */
  const SlideLayout: nat := 1
  const SlideTextLimit: nat := 700
  const SlideWindow: nat := 5

  /** `m['content']` of an entry already known to be complete. */
  function ContentOf(e: Entry): string {
    match e.content
    case Some(c) => c
    case None => ""
  }

  function WordRole(e: Entry): string {
    if e.role == Some("user") then "User" else "Dynamo AI"
  }

  /** The two blocks `word` adds for one entry. */
  function WordSection(e: Entry): seq<Block> {
    [Heading(WordRole(e), 1), Paragraph(ContentOf(e))]
  }

  /** `word(history)`: the title, then a level-1 role heading and a
      paragraph per entry.  An incomplete entry raises `KeyError`. */
  method Word(history: seq<Entry>) returns (r: Outcome<seq<Block>>)
    ensures match FirstMissingKey(history)
      case Some(k) => r == KeyError(k)
      case None => r == Value([Heading(WordTitle, 0)] + ConcatMap(history, WordSection))
  {
    var doc := new Document();
    doc.AddHeading(WordTitle, 0);
    var i := 0;
    while i < |history|
      invariant 0 <= i <= |history|
      invariant FirstMissingKey(history) == FirstMissingKey(history[i..])
      invariant doc.blocks == [Heading(WordTitle, 0)] + ConcatMap(history[..i], WordSection)
    {
      var m := history[i];
      FirstMissingKeyStep(history, i);
      if m.role.None? {
        return KeyError("role");
      }
      var role := WordRole(m);
      doc.AddHeading(role, 1);
      if m.content.None? {
        return KeyError("content");
      }
      doc.AddParagraph(m.content.value);
      ConcatMapPrefix(history, WordSection, i);
      AppendAssoc([Heading(WordTitle, 0)], ConcatMap(history[..i], WordSection), WordSection(m));
      i := i + 1;
    }
    assert history[..|history|] == history;
    r := Value(doc.blocks);
  }

  /** The Word document has 1 + 2n blocks: the title, then for entry `i` its
      role heading at `1 + 2i` ("User" iff the role is "user") and its
      content at `2 + 2i`. */
  lemma WordLayout(history: seq<Entry>, i: nat)
    requires i < |history|
    ensures var blocks := [Heading(WordTitle, 0)] + ConcatMap(history, WordSection);
      && |blocks| == 1 + 2 * |history|
      && blocks[1 + 2 * i] == Heading(if history[i].role == Some("user") then "User" else "Dynamo AI", 1)
      && blocks[2 + 2 * i] == Paragraph(ContentOf(history[i]))
  {
    ConcatMapUniformAt(history, WordSection, 2, i);
    var body := ConcatMap(history, WordSection);
    assert body[2 * i] == WordSection(history[i])[0];
    assert body[2 * i + 1] == WordSection(history[i])[1];
  }

  /** The slide `ppt` makes of an entry: one for an assistant entry, none otherwise. */
  function SlideOf(e: Entry): seq<Slide> {
    if e.role == Some("assistant") then [Slide(SlideLayout, SlideTitle, Take(ContentOf(e), SlideTextLimit))]
    else []
  }

  /** The key of the first `KeyError` the `ppt` loop raises: it reads
      `m['role']` of each entry, and `m['content']` only of assistant entries. */
  function SlideMissingKey(w: seq<Entry>): (k: Option<string>)
    ensures k == None || k == Some("role") || k == Some("content")
  {
    if w == [] then None
    else if w[0].role.None? then Some("role")
    else if w[0].role == Some("assistant") && w[0].content.None? then Some("content")
    else SlideMissingKey(w[1..])
  }

  /** One step of the `ppt` loop, from entry `i` on. */
  lemma SlideMissingKeyStep(w: seq<Entry>, i: nat)
    requires i < |w|
    ensures w[i].role.None? ==> SlideMissingKey(w[i..]) == Some("role")
    ensures w[i].role == Some("assistant") && w[i].content.None? ==> SlideMissingKey(w[i..]) == Some("content")
    ensures w[i].role.Some? && !(w[i].role == Some("assistant") && w[i].content.None?) ==>
      SlideMissingKey(w[i..]) == SlideMissingKey(w[i + 1..])
  {
    assert w[i..][0] == w[i] && w[i..][1..] == w[i + 1..];
  }

  /** `ppt(history)`: one slide per assistant entry among the last five. */
  method Ppt(history: seq<Entry>) returns (r: Outcome<seq<Slide>>)
    ensures var w := Last(history, SlideWindow);
      match SlideMissingKey(w)
      case Some(k) => r == KeyError(k)
      case None => r == Value(ConcatMap(w, SlideOf))
  {
    var prs := new Presentation();
    var w := Last(history, SlideWindow);
    var i := 0;
    while i < |w|
      invariant 0 <= i <= |w|
      invariant SlideMissingKey(w) == SlideMissingKey(w[i..])
      invariant prs.slides == ConcatMap(w[..i], SlideOf)
    {
      var m := w[i];
      SlideMissingKeyStep(w, i);
      if m.role.None? {
        return KeyError("role");
      }
      if m.role.value == "assistant" {
        if m.content.None? {
          return KeyError("content");
        }
        prs.AddSlide(SlideLayout, SlideTitle, Take(m.content.value, SlideTextLimit));
      }
      ConcatMapPrefix(w, SlideOf, i);
      i := i + 1;
    }
    assert w[..|w|] == w;
    r := Value(prs.slides);
  }

  /** At most five slides, each titled "Research Insight" with a body of at
      most 700 characters taken from the start of an assistant entry among
      the last five. */
  lemma SlidesBounded(history: seq<Entry>)
    ensures var slides := ConcatMap(Last(history, SlideWindow), SlideOf);
      && |slides| <= SlideWindow
      && forall s :: s in slides ==>
           && s.layout == SlideLayout && s.title == SlideTitle && |s.body| <= SlideTextLimit
           && exists e :: e in Last(history, SlideWindow) && e.role == Some("assistant") && s.body == Take(ContentOf(e), SlideTextLimit)
  {
    var w := Last(history, SlideWindow);
    ConcatMapAtMostOne(w, SlideOf);
    forall s | s in ConcatMap(w, SlideOf)
      ensures && s.layout == SlideLayout && s.title == SlideTitle && |s.body| <= SlideTextLimit
              && exists e :: e in w && e.role == Some("assistant") && s.body == Take(ContentOf(e), SlideTextLimit)
    {
      var e := ConcatMapMember(w, SlideOf, s);
    }
  }

  /** The story paragraph prefix of an entry: "User" iff the role is "user". */
  function PdfRole(e: Entry): string {
    if e.role == Some("user") then "<b>User:</b> " else "<b>Dynamo AI:</b> "
  }

  /** The two flowables `pdf` adds for one entry. */
  function StoryItems(e: Entry): seq<Flowable> {
    [Para(PdfRole(e) + ContentOf(e), "Normal"), Spacer(1, 12)]
  }

  /** `pdf(history)`: the story passed to `build`. */
  method Pdf(history: seq<Entry>) returns (r: Outcome<seq<Flowable>>)
    ensures match FirstMissingKey(history)
      case Some(k) => r == KeyError(k)
      case None => r == Value([Para(PdfTitle, "Title"), Spacer(1, 12)] + ConcatMap(history, StoryItems))
  {
    var story := [Para(PdfTitle, "Title"), Spacer(1, 12)];
    ghost var prelude := story;
    var i := 0;
    while i < |history|
      invariant 0 <= i <= |history|
      invariant FirstMissingKey(history) == FirstMissingKey(history[i..])
      invariant story == prelude + ConcatMap(history[..i], StoryItems)
    {
      var m := history[i];
      FirstMissingKeyStep(history, i);
      if m.role.None? {
        return KeyError("role");
      }
      var role := PdfRole(m);
      if m.content.None? {
        return KeyError("content");
      }
      ConcatMapStep(prelude, history, StoryItems, i);
      var para := Para(role + m.content.value, "Normal");
      assert [para, Spacer(1, 12)] == StoryItems(m);
      AppendTwo(story, para, Spacer(1, 12));
      story := story + [para];
      story := story + [Spacer(1, 12)];
      i := i + 1;
    }
    assert history[..|history|] == history;
    r := Value(story);
  }

  /** The story has 2 + 2n flowables: the title and a spacer, then for entry
      `i` its paragraph at `2 + 2i` and a spacer at `3 + 2i`. */
  lemma StoryLayout(history: seq<Entry>, i: nat)
    requires i < |history|
    ensures var story := [Para(PdfTitle, "Title"), Spacer(1, 12)] + ConcatMap(history, StoryItems);
      && |story| == 2 + 2 * |history|
      && story[2 + 2 * i] == Para((if history[i].role == Some("user") then "<b>User:</b> " else "<b>Dynamo AI:</b> ") + ContentOf(history[i]), "Normal")
      && story[3 + 2 * i] == Spacer(1, 12)
  {
    ConcatMapUniformAt(history, StoryItems, 2, i);
    var body := ConcatMap(history, StoryItems);
    assert body[2 * i] == StoryItems(history[i])[0];
    assert body[2 * i + 1] == StoryItems(history[i])[1];
  }
}
