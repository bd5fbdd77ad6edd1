/** The document libraries, reduced to the structure the export code builds.

    A python-docx `Document` is the sequence of headings and paragraphs added
    to it; a python-pptx `Presentation` the sequence of its slides; a
    reportlab story the list of its flowables.  Rendering and saving are not
    modelled. */
module Office {

  /** A block of a Word document. */
  datatype Block = Heading(text: string, level: nat) | Paragraph(text: string)

  class Document {
    var blocks: seq<Block>

    constructor ()
      ensures blocks == []
    {
      blocks := [];
    }

    /** `doc.add_heading(text, level)` */
    method AddHeading(text: string, level: nat)
      modifies this
      ensures blocks == old(blocks) + [Heading(text, level)]
    {
      blocks := blocks + [Heading(text, level)];
    }

    /** `doc.add_paragraph(text)` */
    method AddParagraph(text: string)
      modifies this
      ensures blocks == old(blocks) + [Paragraph(text)]
    {
      blocks := blocks + [Paragraph(text)];
    }
  }

  /** A slide: the index of its layout, its title text and the text of its body placeholder. */
  datatype Slide = Slide(layout: nat, title: string, body: string)

  class Presentation {
    var slides: seq<Slide>

    constructor ()
      ensures slides == []
    {
      slides := [];
    }

    /** `prs.slides.add_slide(prs.slide_layouts[layout])`, followed by setting
        the title and the body placeholder of the new slide. */
    method AddSlide(layout: nat, title: string, body: string)
      modifies this
      ensures slides == old(slides) + [Slide(layout, title, body)]
    {
      slides := slides + [Slide(layout, title, body)];
    }
  }

  /** A reportlab flowable: a styled paragraph or a spacer of the given size. */
  datatype Flowable = Para(text: string, style: string) | Spacer(width: int, height: int)
}
