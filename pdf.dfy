/** Document text assembly (`extract_intel`).

    The PDF and Word readers are parameters: functions from the file's bytes
    to the texts of its pages or paragraphs, in order, or to the message of
    the exception the library raised while reading.  Plain files are decoded
    as UTF-8 leniently. */
module Pdf {
  import opened Common
  import Utf8

  /** The most characters of document text passed on as context. */
  const ContextLimit: nat := 40000

  /** What a reader produced: the texts of the pieces, or a raised exception. */
  datatype Pieces = Texts(texts: seq<string>) | ReadRaised(message: string)

  /** A piece followed by the newline the loop adds after it. */
  function WithNewline(piece: string): string {
    piece + "\n"
  }

  /** The text the reading loops accumulate. */
  function Assembled(pieces: seq<string>): string {
    ConcatMap(pieces, WithNewline)
  }

  /** The accumulated text has one character more per piece than the pieces. */
  lemma {:induction false} AssembledLength(pieces: seq<string>)
    ensures |Assembled(pieces)| == |ConcatMap(pieces, p => p)| + |pieces|
    decreases |pieces|
  {
    if pieces != [] {
      AssembledLength(pieces[..|pieces| - 1]);
    }
  }

  /** Piece `i`, with its newline, stands between the pieces before and after it. */
  lemma AssembledAt(pieces: seq<string>, i: nat)
    requires i < |pieces|
    ensures Assembled(pieces) == Assembled(pieces[..i]) + pieces[i] + "\n" + Assembled(pieces[i + 1..])
  {
    assert pieces == pieces[..i] + [pieces[i]] + pieces[i + 1..];
    ConcatMapSplit(pieces[..i], pieces[i], pieces[i + 1..], WithNewline);
    AppendAssoc(Assembled(pieces[..i]), pieces[i], "\n");
  }

  /** The loop over pages or paragraphs: `text += piece + "\n"`. */
  method AssembleText(pieces: seq<string>) returns (text: string)
    ensures text == Assembled(pieces)
  {
    text := "";
    var i := 0;
    while i < |pieces|
      invariant 0 <= i <= |pieces|
      invariant text == Assembled(pieces[..i])
    {
      ConcatMapPrefix(pieces, WithNewline, i);
      text := text + pieces[i] + "\n";
      i := i + 1;
    }
    assert pieces[..|pieces|] == pieces;
  }

  /** `extract_intel(file_bytes, filename)`. */
  method ExtractIntel(fileBytes: seq<byte>, filename: string,
                      readPdf: seq<byte> -> Pieces, readDocx: seq<byte> -> Pieces)
    returns (text: string)
    ensures EndsWith(filename, ".pdf") ==>
      match readPdf(fileBytes)
      case Texts(pages) => text == Take(Assembled(pages), ContextLimit)
      case ReadRaised(m) => text == "File Error: " + m
    ensures !EndsWith(filename, ".pdf") && EndsWith(filename, ".docx") ==>
      match readDocx(fileBytes)
      case Texts(paragraphs) => text == Take(Assembled(paragraphs), ContextLimit)
      case ReadRaised(m) => text == "File Error: " + m
    ensures !EndsWith(filename, ".pdf") && !EndsWith(filename, ".docx") ==>
      text == Take(Utf8.Decode(fileBytes), ContextLimit)
  {
    var pieces: Pieces;
    if EndsWith(filename, ".pdf") {
      pieces := readPdf(fileBytes);
    } else if EndsWith(filename, ".docx") {
      pieces := readDocx(fileBytes);
    } else {
      var decoded := Utf8.Decode(fileBytes);
      return Take(decoded, ContextLimit);
    }
    match pieces
    case ReadRaised(m) =>
      text := "File Error: " + m;
    case Texts(ps) =>
      var assembled := AssembleText(ps);
      text := Take(assembled, ContextLimit);
  }
}
