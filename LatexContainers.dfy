/**
  The three LaTeX containers: `Table` and `Section`, whose element lists grow in
  place and whose `toString` writes into a buffer of its own, and `LatexDocument`,
  whose buffer outlives `toString`.
*/
module LatexContainers {
  import opened JavaString
  import opened LatexElement

  /** A `tabularx` table. */
  class Table {
    var elements: seq<Element>

    /** A new table holds no element. */
    constructor ()
      ensures elements == []
    {
      elements := [];
    }

    /** `addElement`: appends one element after the existing ones. */
    method AddElement(element: Element)
      modifies this
      ensures elements == old(elements) + [element]
    {
      elements := elements + [element];
    }

    /** `addAllElements`: appends the elements, in stream order, after the existing ones. */
    method AddAllElements(stream: seq<Element>)
      modifies this
      ensures elements == old(elements) + stream
    {
      elements := elements + stream;
    }

    /** The table as an element of an enclosing section. */
    function Value(): (r: Element)
      reads this
      ensures r.TableOf? && r.elements == elements
    {
      TableOf(elements)
    }

    /**
      `toString`: the opening line, one line per element in order, the closing line,
      written into a fresh buffer, so the table itself does not change.
    */
    method ToString() returns (s: string)
      ensures s == Render(Value())
      ensures s == TableBegin + "\n" + Lines(Renders(elements)) + TableEnd + "\n"
    {
      var document := new Buffer();
      WriteLine(document, TableBegin);
      assert document.contents == Lines([TableBegin] + Renders(elements[..0])) by {
        assert Lines([TableBegin]) == TableBegin + "\n" + Lines([]);
      }
      for i := 0 to |elements|
        invariant document.contents == Lines([TableBegin] + Renders(elements[..i]))
      {
        LinesStep([TableBegin], elements, i);
        WriteLine(document, Render(elements[i]));
      }
      assert elements[..|elements|] == elements;
      LinesAppend([TableBegin] + Renders(elements), TableEnd);
      WriteLine(document, TableEnd);
      TableText(elements);
      return document.contents;
    }
  }

  /** A `\vbox` holding a centred block, optionally closed by a horizontal rule. */
  class Section {
    var elements: seq<Element>
    const shouldAddEndingLine: bool

    /** A new section holds no element and keeps the rule flag. */
    constructor (shouldAddEndingLine: bool)
      ensures elements == [] && this.shouldAddEndingLine == shouldAddEndingLine
    {
      elements := [];
      this.shouldAddEndingLine := shouldAddEndingLine;
    }

    /** `addElement`: appends one element after the existing ones. */
    method AddElement(e: Element)
      modifies this
      ensures elements == old(elements) + [e]
    {
      elements := elements + [e];
    }

    /** `addAllElements`: appends the elements, in stream order, after the existing ones. */
    method AddAllElements(stream: seq<Element>)
      modifies this
      ensures elements == old(elements) + stream
    {
      elements := elements + stream;
    }

    /** The section as an element of the document. */
    function Value(): (r: Element)
      reads this
      ensures r.SectionOf? && r.elements == elements && r.shouldAddEndingLine == shouldAddEndingLine
    {
      SectionOf(elements, shouldAddEndingLine)
    }

    /**
      `toString`: the opening lines, one line per element in order, the rule line
      exactly when the flag is set, then the closing lines; the section does not change.
    */
    method ToString() returns (s: string)
      ensures s == Render(Value())
    {
      var document := new Buffer();
      WriteLine(document, SectionBegin[0]);
      WriteLine(document, SectionBegin[1]);
      assert document.contents == Lines(SectionBegin + Renders(elements[..0])) by {
        assert Lines(SectionBegin) == SectionBegin[0] + "\n" + (SectionBegin[1] + "\n" + Lines([]));
      }
      for i := 0 to |elements|
        invariant document.contents == Lines(SectionBegin + Renders(elements[..i]))
      {
        LinesStep(SectionBegin, elements, i);
        WriteLine(document, Render(elements[i]));
      }
      assert elements[..|elements|] == elements;
      var written := SectionBegin + Renders(elements);
      if shouldAddEndingLine {
        LinesAppend(written, EndingLine);
        WriteLine(document, EndingLine);
        written := written + [EndingLine];
      } else {
        assert written + [] == written;
      }
      WriteLine(document, SectionEnd[0]);
      WriteLine(document, SectionEnd[1]);
      LinesClose(written, SectionEnd);
      assert written + SectionEnd == SectionLines(Renders(elements), shouldAddEndingLine);
      return document.contents;
    }
  }

  /** The five lines the document constructor writes. */
  const Preamble: seq<string> := [
    @"\documentclass{article}",
    @"\usepackage{tabularx}",
    @"\usepackage[top=0.1cm, bottom=0.1cm, left=0.2cm, right=0.2cm]{geometry}",
    @"\setlength{\tabcolsep}{15pt}",
    @"\begin{document}"
  ]

  /** The font line: the size, then a quarter of it with Java's `int` division. */
  function FontLine(fontSize: int32): string
  {
    @"{\fontsize{" + IntToString(fontSize as int) + "}{" + IntToString(JavaDiv(fontSize as int, 4)) + "}"
  }

  /** The lines one `toString` call appends: font, elements in order, closing brace, end. */
  function Epilogue(fontLine: string, elements: seq<Element>): (r: seq<string>)
    ensures |r| == |elements| + 4
    ensures r[0] == fontLine && r[1] == @"\selectfont"
    ensures forall i :: 0 <= i < |elements| ==> r[i + 2] == Render(elements[i])
    ensures r[|r| - 2] == "}" && r[|r| - 1] == @"\end{document}"
  {
    [fontLine, @"\selectfont"] + Renders(elements) + ["}", @"\end{document}"]
  }

  /** What the writes of `toString` leave in the buffer is the epilogue's text. */
  lemma EpilogueWritten(before: string, fontLine: string, elements: seq<Element>, contents: string)
    requires contents == before + fontLine + "\n" + @"\selectfont" + "\n" + Lines(Renders(elements))
      + "}" + "\n" + @"\end{document}" + "\n"
    ensures contents == before + Lines(Epilogue(fontLine, elements))
  {
    FrameWritten(before, fontLine, @"\selectfont", Renders(elements), "}", @"\end{document}", contents);
  }

  /** The whole LaTeX document; its buffer persists across `toString` calls. */
  class LatexDocument {
    const document: Buffer
    var elements: seq<Element>
    var fontSize: int32

    /** Writes the preamble into a new buffer; no element yet. */
    constructor (fontSize: int32)
      ensures fresh(document)
      ensures document.contents == Lines(Preamble)
      ensures elements == [] && this.fontSize == fontSize
    {
      document := new Buffer();
      elements := [];
      this.fontSize := fontSize;
      new;
      ghost var written: seq<string> := [];
      LinesAppend(written, Preamble[0]);
      WriteLine(document, Preamble[0]);
      written := written + [Preamble[0]];
      LinesAppend(written, Preamble[1]);
      WriteLine(document, Preamble[1]);
      written := written + [Preamble[1]];
      LinesAppend(written, Preamble[2]);
      WriteLine(document, Preamble[2]);
      written := written + [Preamble[2]];
      LinesAppend(written, Preamble[3]);
      WriteLine(document, Preamble[3]);
      written := written + [Preamble[3]];
      LinesAppend(written, Preamble[4]);
      WriteLine(document, Preamble[4]);
      written := written + [Preamble[4]];
      assert written == Preamble;
    }

    /** `setFontSize`: only the size changes; it shows in the next `toString`. */
    method SetFontSize(fontSize: int32)
      modifies this`fontSize
      ensures this.fontSize == fontSize
    {
      this.fontSize := fontSize;
    }

    /** `addAllElements`: appends the elements, in stream order, after the existing ones. */
    method AddAllElements(stream: seq<Element>)
      modifies this`elements
      ensures elements == old(elements) + stream
    {
      elements := elements + stream;
    }

    /** The `forEach` of `toString`: one line per element, in order. */
    method WriteElements()
      modifies document
      ensures document.contents == old(document.contents) + Lines(Renders(elements))
    {
      ghost var before := document.contents;
      assert [] + Renders(elements[..0]) == [];
      for i := 0 to |elements|
        invariant document.contents == before + Lines([] + Renders(elements[..i]))
      {
        LinesStep([], elements, i);
        WriteLine(document, Render(elements[i]));
      }
      assert [] + Renders(elements[..|elements|]) == Renders(elements);
    }

    /**
      `toString`: appends the epilogue to the buffer and returns all of it, so a second
      call appends the epilogue once more.
    */
    method ToString() returns (s: string)
      modifies document
      ensures document.contents == old(document.contents) + Lines(Epilogue(FontLine(fontSize), elements))
      ensures s == document.contents
    {
      var line := FontLine(fontSize);
      ghost var before := document.contents;
      WriteLine(document, line);
      WriteLine(document, @"\selectfont");
      WriteElements();
      WriteLine(document, "}");
      WriteLine(document, @"\end{document}");
      EpilogueWritten(before, line, elements, document.contents);
      return document.contents;
    }
  }

  /**
    The text of a fresh document's first `toString`: it opens with the
    `\documentclass` line and closes with the `\end{document}` line.
  */
  lemma FirstText(fontLine: string, elements: seq<Element>)
    ensures var s := Lines(Preamble) + Lines(Epilogue(fontLine, elements));
      var first := @"\documentclass{article}" + "\n";
      var last := @"\end{document}" + "\n";
      |s| >= |first| + |last| && s[..|first|] == first && s[|s| - |last|..] == last
  {
    var first := @"\documentclass{article}" + "\n";
    var last := @"\end{document}" + "\n";
    var p := Lines(Preamble);
    var rest := Lines(Preamble[1..]);
    assert p == first + rest;
    var e := Epilogue(fontLine, elements);
    var front := e[..|e| - 1];
    assert front + [e[|e| - 1]] == e;
    LinesAppend(front, @"\end{document}");
    var q := Lines(e);
    assert q == Lines(front) + last;
    var s := p + q;
    assert s == first + (rest + Lines(front) + last);
    assert s == (p + Lines(front)) + last;
  }

  /**
    `toString` is not idempotent: a second call returns the first result followed by
    a further, non-empty epilogue.
  */
  lemma SecondCallExtends(before: string, fontLine: string, elements: seq<Element>)
    ensures var first := before + Lines(Epilogue(fontLine, elements));
      var second := first + Lines(Epilogue(fontLine, elements));
      |first| < |second| && second[..|first|] == first
  {
    LinesLength(Epilogue(fontLine, elements));
  }

  /** Two `toString` calls in a row: the first result is a proper prefix of the second. */
  method ToStringTwice(d: LatexDocument) returns (first: string, second: string)
    modifies d.document
    ensures |first| < |second| && second[..|first|] == first
  {
    first := d.ToString();
    second := d.ToString();
    SecondCallExtends(old(d.document.contents), FontLine(d.fontSize), d.elements);
  }
}
