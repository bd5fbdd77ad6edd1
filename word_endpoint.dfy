/** The Word export endpoint (`generate_word`): the history arrives as
    validated request objects, so every message has a role and a content. */
module WordEndpoint {
  import opened Common
  import opened Chat
  import opened Office

  const ReportTitle: string := "Dynamo AI Research Report"

  /** `c * n` for a one-character string `c`. */
  function Repeat(c: char, n: nat): (s: string)
    ensures |s| == n
    ensures forall i :: 0 <= i < n ==> s[i] == c
  {
    if n == 0 then "" else [c] + Repeat(c, n - 1)
  }

  /** The separator paragraph after each message: `"-" * 20`. */
  const Separator: string := Repeat('-', 20)

  /** The content with Markdown bold markers removed: `content.replace("**", "")`. */
  function Clean(content: string): string {
    Replace(content, "**", "")
  }

  /** A cleaned text that does not start with "*" starts with the same character. */
  lemma CleanKeepsFirst(s: string)
    requires s != [] && s[0] != '*'
    ensures Clean(s) == [s[0]] + Clean(s[1..])
  {
  }

  /** No "**" survives cleaning.  A "*" is kept only when the character after
      it is not a "*", and that character is kept as well. */
  lemma {:induction false} CleanRemovesBold(s: string)
    ensures !Contains(Clean(s), "**")
    decreases |s|
  {
    if StartsWith(s, "**") {
      CleanRemovesBold(s[2..]);
      assert Clean(s) == "" + Clean(s[2..]) == Clean(s[2..]);
    } else if s != [] {
      var rest := Clean(s[1..]);
      CleanRemovesBold(s[1..]);
      assert Clean(s) == [s[0]] + rest;
      assert ([s[0]] + rest)[1..] == rest;
      if s[0] == '*' && |s| >= 2 {
        assert s[1] != '*' by {
          assert s[..2] != "**";
        }
        CleanKeepsFirst(s[1..]);
        assert rest[0] == s[1];
      }
    }
  }

  /** Cleaning leaves text without "**" unchanged, and so cleaning twice is
      cleaning once. */
  lemma CleanIdempotent(s: string)
    ensures !Contains(s, "**") ==> Clean(s) == s
    ensures Clean(Clean(s)) == Clean(s)
  {
    if !Contains(s, "**") {
      ReplaceAbsent(s, "**", "");
    }
    CleanRemovesBold(s);
    ReplaceAbsent(Clean(s), "**", "");
  }

  function Label(m: Message): string {
    if m.role == "user" then "User Query" else "Dynamo Analysis"
  }

  /** The three blocks one message contributes. */
  function Section(m: Message): seq<Block> {
    [Heading(Label(m), 2), Paragraph(Clean(m.content)), Paragraph(Separator)]
  }

  /** The body of `generate_word`: the document's blocks. */
  method GenerateWord(history: seq<Message>) returns (blocks: seq<Block>)
    ensures blocks == [Heading(ReportTitle, 0)] + ConcatMap(history, Section)
  {
    var doc := new Document();
    doc.AddHeading(ReportTitle, 0);
    var i := 0;
    while i < |history|
      invariant 0 <= i <= |history|
      invariant doc.blocks == [Heading(ReportTitle, 0)] + ConcatMap(history[..i], Section)
    {
      var msg := history[i];
      var role := Label(msg);
      doc.AddHeading(role, 2);
      var cleanContent := Replace(msg.content, "**", "");
      doc.AddParagraph(cleanContent);
      doc.AddParagraph(Repeat('-', 20));
      ConcatMapPrefix(history, Section, i);
      AppendAssoc([Heading(ReportTitle, 0)], ConcatMap(history[..i], Section), Section(msg));
      i := i + 1;
    }
    assert history[..|history|] == history;
    blocks := doc.blocks;
  }

  /** The document is the title and then three blocks per message, in order:
      a level-2 heading ("User Query" iff the role is "user"), the content
      without any "**", and a rule of twenty '-'. */
  lemma DocumentLayout(history: seq<Message>, i: nat)
    requires i < |history|
    ensures var blocks := [Heading(ReportTitle, 0)] + ConcatMap(history, Section);
      && |blocks| == 1 + 3 * |history|
      && blocks[0] == Heading(ReportTitle, 0)
      && blocks[1 + 3 * i] == Heading(if history[i].role == "user" then "User Query" else "Dynamo Analysis", 2)
      && blocks[2 + 3 * i] == Paragraph(Clean(history[i].content))
      && !Contains(blocks[2 + 3 * i].text, "**")
      && blocks[3 + 3 * i] == Paragraph(Separator)
      && |Separator| == 20 && forall k :: 0 <= k < 20 ==> Separator[k] == '-'
  {
    ConcatMapUniformAt(history, Section, 3, i);
    var body := ConcatMap(history, Section);
    assert body[3 * i] == Section(history[i])[0];
    assert body[3 * i + 1] == Section(history[i])[1];
    assert body[3 * i + 2] == Section(history[i])[2];
    CleanRemovesBold(history[i].content);
  }
}
