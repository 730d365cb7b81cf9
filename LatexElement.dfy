/**
  The LaTeX element tree of the label creator: the string buffer every element is
  written through, the four element kinds and the text each of them renders to.
*/
module LatexElement {
  /** A `StringBuffer`: text is only ever appended at its end. */
  class Buffer {
    var contents: string

    constructor ()
      ensures contents == []
    {
      contents := [];
    }
  }

  /** `writeLine`: appends the text, then a line feed. */
  method WriteLine(document: Buffer, text: string)
    modifies document
    ensures document.contents == old(document.contents) + text + "\n"
  {
    document.contents := document.contents + text;
    document.contents := document.contents + "\n";
  }

  /** The text successive `writeLine` calls with `texts`, in order, append. */
  function Lines(texts: seq<string>): string
  {
    if texts == [] then [] else texts[0] + "\n" + Lines(texts[1..])
  }

  /** Writing the lines of `front` and then those of `back` writes the lines of both, in order. */
  lemma {:induction false} LinesConcat(front: seq<string>, back: seq<string>)
    ensures Lines(front + back) == Lines(front) + Lines(back)
    decreases |front|
  {
    if front == [] {
      assert front + back == back;
    } else {
      assert (front + back)[0] == front[0];
      assert (front + back)[1..] == front[1..] + back;
      LinesConcat(front[1..], back);
    }
  }

  /** One more `writeLine` call adds its text and a line feed after everything written so far. */
  lemma LinesAppend(texts: seq<string>, text: string)
    ensures Lines(texts + [text]) == Lines(texts) + text + "\n"
  {
    LinesConcat(texts, [text]);
    assert Lines([text]) == text + "\n" + Lines([]);
  }

  /** Lines start with the first text and its line feed, and end with a line feed. */
  lemma {:induction false} LinesEnds(texts: seq<string>)
    requires texts != []
    ensures var r := Lines(texts);
      |r| > |texts[0]| && r[..|texts[0]| + 1] == texts[0] + "\n" && r[|r| - 1] == '\n'
    decreases |texts|
  {
    if |texts| > 1 {
      LinesEnds(texts[1..]);
    }
  }

  /** The total length of the texts. */
  function SumLengths(texts: seq<string>): nat
  {
    if texts == [] then 0 else |texts[0]| + SumLengths(texts[1..])
  }

  /** Every line contributes its own length and one line feed. */
  lemma {:induction false} LinesLength(texts: seq<string>)
    ensures |Lines(texts)| == |texts| + SumLengths(texts)
    decreases |texts|
  {
    if texts != [] {
      LinesLength(texts[1..]);
    }
  }

  /** The four kinds of element; a table and a section hold their elements in order. */
  datatype Element =
    | CData(data: string)
    | Row(column1: string, column2: string)
    | TableOf(elements: seq<Element>)
    | SectionOf(elements: seq<Element>, shouldAddEndingLine: bool)

  const RowOpen: string := @"\multicolumn{1}{l}{"
  const RowMiddle: string := @"} & \multicolumn{1}{l}{"
  const RowClose: string := @"}\\"

  const TableBegin: string := @"\begin{tabularx} {\textwidth} {X l}"
  const TableEnd: string := @"\end{tabularx}"

  const SectionBegin: seq<string> := [@"\vbox{", @"\begin{center}"]
  const EndingLine: string := @"\noindent\makebox[\linewidth]{\rule{\paperwidth}{0.4pt}}"
  const SectionEnd: seq<string> := [@"\end{center}", "}"]

  /** The lines a section writes: its opening, its elements, the rule if asked for, its closing. */
  function SectionLines(rendered: seq<string>, shouldAddEndingLine: bool): seq<string>
  {
    SectionBegin + rendered + (if shouldAddEndingLine then [EndingLine] else []) + SectionEnd
  }

  /**
    `toString` of each element kind: a `CData` is its data as it is; a table is whole
    lines, from its `tabularx` begin line; a section is whole lines, from its `\vbox`.
  */
  function Render(e: Element): (r: string)
    ensures e.CData? ==> r == e.data
    ensures e.TableOf? || e.SectionOf? ==> r != [] && r[|r| - 1] == '\n'
    ensures e.TableOf? ==> |r| > |TableBegin| && r[..|TableBegin| + 1] == TableBegin + "\n"
    ensures e.SectionOf? ==> |r| > |SectionBegin[0]| && r[..|SectionBegin[0]| + 1] == SectionBegin[0] + "\n"
    decreases e, 1
  {
    match e
    case CData(data) => data
    case Row(column1, column2) => RowOpen + column1 + RowMiddle + column2 + RowClose
    case TableOf(elements) =>
      var texts := [TableBegin] + Renders(elements) + [TableEnd];
      LinesEnds(texts);
      Lines(texts)
    case SectionOf(elements, rule) =>
      var texts := SectionLines(Renders(elements), rule);
      LinesEnds(texts);
      Lines(texts)
  }

  /** The text of every element, in order. */
  function Renders(elements: seq<Element>): (r: seq<string>)
    ensures |r| == |elements|
    ensures forall i :: 0 <= i < |elements| ==> r[i] == Render(elements[i])
    decreases elements, 0
  {
    if elements == [] then [] else [Render(elements[0])] + Renders(elements[1..])
  }

  /** The texts of a prefix one element longer: the old texts and the new element's. */
  lemma RendersAppend(elements: seq<Element>, i: nat)
    requires i < |elements|
    ensures Renders(elements[..i + 1]) == Renders(elements[..i]) + [Render(elements[i])]
  {
    var front := Renders(elements[..i]);
    var whole := Renders(elements[..i + 1]);
    var longer := front + [Render(elements[i])];
    forall j | 0 <= j <= i ensures whole[j] == longer[j] {
      if j < i {
        assert elements[..i + 1][j] == elements[..i][j];
      } else {
        assert elements[..i + 1][j] == elements[i];
      }
    }
    assert |whole| == |longer|;
  }

  /** Writing one more element after a fixed opening and the first `i` elements. */
  lemma LinesStep(opening: seq<string>, elements: seq<Element>, i: nat)
    requires i < |elements|
    ensures Lines(opening + Renders(elements[..i + 1]))
      == Lines(opening + Renders(elements[..i])) + Render(elements[i]) + "\n"
  {
    RendersAppend(elements, i);
    assert opening + Renders(elements[..i + 1]) == (opening + Renders(elements[..i])) + [Render(elements[i])];
    LinesAppend(opening + Renders(elements[..i]), Render(elements[i]));
  }

  /**
    A `Row` writes both columns verbatim, with no escaping, at fixed offsets of its
    text: the first right after the opening, the second right before the closing.
  */
  lemma RowVerbatim(column1: string, column2: string)
    ensures var s := Render(Row(column1, column2));
      && |s| == |RowOpen| + |column1| + |RowMiddle| + |column2| + |RowClose|
      && s[..|RowOpen|] == RowOpen
      && s[|RowOpen|..|RowOpen| + |column1|] == column1
      && s[|s| - |RowClose| - |column2|..|s| - |RowClose|] == column2
      && s[|s| - |RowClose|..] == RowClose
  {
    var s := Render(Row(column1, column2));
    assert s == RowOpen + column1 + (RowMiddle + column2 + RowClose);
    assert s == (RowOpen + column1 + RowMiddle) + column2 + RowClose;
  }

  /**
    A table writes its opening line, then one line per element in order, then its
    closing line; an empty table writes just the two.
  */
  lemma TableText(elements: seq<Element>)
    ensures Render(TableOf(elements)) == TableBegin + "\n" + Lines(Renders(elements)) + TableEnd + "\n"
    ensures elements == [] ==> Render(TableOf(elements)) == TableBegin + "\n" + TableEnd + "\n"
  {
    LinesConcat([TableBegin] + Renders(elements), [TableEnd]);
    LinesConcat([TableBegin], Renders(elements));
    assert Lines([TableBegin]) == TableBegin + "\n" + Lines([]);
    assert Lines([TableEnd]) == TableEnd + "\n" + Lines([]);
  }

  /** Two opening lines, the rendered elements, the rule lines and two closing lines, in order. */
  lemma LinesFrame(open0: string, open1: string, rendered: seq<string>, rule: seq<string>,
                   close0: string, close1: string)
    ensures Lines([open0, open1] + rendered + rule + [close0, close1])
      == (open0 + "\n" + open1 + "\n" + Lines(rendered)) + Lines(rule) + (close0 + "\n" + close1 + "\n")
  {
    LinesConcat([open0, open1] + rendered + rule, [close0, close1]);
    LinesConcat([open0, open1] + rendered, rule);
    LinesConcat([open0, open1], rendered);
    assert [open0, open1][1..] == [open1];
    assert Lines([open1]) == open1 + "\n" + Lines([]);
    assert Lines([open0, open1]) == open0 + "\n" + (open1 + "\n" + Lines([]));
    assert [close0, close1][1..] == [close1];
    assert Lines([close1]) == close1 + "\n" + Lines([]);
    assert Lines([close0, close1]) == close0 + "\n" + (close1 + "\n" + Lines([]));
  }

  /** Two closing lines written after the others. */
  lemma LinesClose(written: seq<string>, close: seq<string>)
    requires |close| == 2
    ensures Lines(written + close) == Lines(written) + close[0] + "\n" + close[1] + "\n"
  {
    LinesConcat(written, close);
    assert close[1..] == [close[1]];
    assert Lines([close[1]]) == close[1] + "\n" + Lines([]);
  }

  /** Text written after `before` as two opening lines, a middle and two closing lines. */
  lemma FrameWritten(before: string, open0: string, open1: string, middle: seq<string>,
                     close0: string, close1: string, contents: string)
    requires contents == before + open0 + "\n" + open1 + "\n" + Lines(middle) + close0 + "\n" + close1 + "\n"
    ensures contents == before + Lines([open0, open1] + middle + [close0, close1])
  {
    LinesFrame(open0, open1, middle, [], close0, close1);
    assert [open0, open1] + middle + [] == [open0, open1] + middle;
  }

  /**
    A section opens with the `\vbox` and `center` lines and closes with their ends;
    in between come its elements in order and then, exactly when asked for, the rule.
  */
  lemma SectionText(elements: seq<Element>, shouldAddEndingLine: bool)
    ensures var s := Render(SectionOf(elements, shouldAddEndingLine));
      var body := @"\vbox{" + "\n" + @"\begin{center}" + "\n" + Lines(Renders(elements));
      var tail := @"\end{center}" + "\n" + "}" + "\n";
      s == body + (if shouldAddEndingLine then EndingLine + "\n" else "") + tail
  {
    var rule: seq<string> := if shouldAddEndingLine then [EndingLine] else [];
    var rendered := Renders(elements);
    assert SectionLines(rendered, shouldAddEndingLine)
      == [SectionBegin[0], SectionBegin[1]] + rendered + rule + [SectionEnd[0], SectionEnd[1]];
    LinesFrame(SectionBegin[0], SectionBegin[1], rendered, rule, SectionEnd[0], SectionEnd[1]);
    assert Lines(rule) == if shouldAddEndingLine then EndingLine + "\n" else "" by {
      assert Lines([EndingLine]) == EndingLine + "\n" + Lines([]);
    }
  }
}
