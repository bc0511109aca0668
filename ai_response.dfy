/** `AiResponse` in frontend/src/components/dashboard/AiStockAnalysisView.jsx:
    the analysis text is split into lines, each trimmed and rendered as a
    heading (wrapped in `**`), a list item (`* ` or `- `), a paragraph, or
    nothing when blank. */
module AiResponse {
  import opened Wrappers
  import opened Text

  datatype Element = Heading(text: string) | ListItem(text: string) | Paragraph(text: string)

  predicate NoDoubleStar(s: string) {
    forall i :: 0 <= i < |s| - 1 ==> !(s[i] == '*' && s[i + 1] == '*')
  }

  /** `line.replace` with a global pattern for two stars and an empty
      replacement: every `**` met scanning left to right is deleted. */
  function RemoveDoubleStars(s: string): string
    decreases |s|
  {
    if |s| >= 2 && s[0] == '*' && s[1] == '*' then RemoveDoubleStars(s[2..])
    else if s == [] then []
    else [s[0]] + RemoveDoubleStars(s[1..])
  }

  /** `s` with every `*` dropped. */
  function Unstarred(s: string): string
    decreases |s|
  {
    if s == [] then [] else (if s[0] == '*' then [] else [s[0]]) + Unstarred(s[1..])
  }

  /** The rendering of one trimmed line; None renders nothing. */
  function Classify(line: string): Option<Element> {
    if StartsWith(line, "**") && EndsWith(line, "**") then Some(Heading(RemoveDoubleStars(line)))
    else if StartsWith(line, "* ") || StartsWith(line, "- ") then Some(ListItem(line[2..]))
    else if line != "" then Some(Paragraph(line))
    else None
  }

  /** What one raw line contributes. */
  function LineElements(line: string): seq<Element> {
    var e := Classify(Trim(line));
    if e.Some? then [e.value] else []
  }

  function RenderLines(lines: seq<string>): seq<Element>
    decreases |lines|
  {
    if lines == [] then [] else LineElements(lines[0]) + RenderLines(lines[1..])
  }

  /** `text.split('\n').map(line => line.trim())`, rendered in order. */
  function Render(text: string): seq<Element> {
    RenderLines(Split(text, '\n'))
  }

  // ----- the `**` filter -----

  lemma RemoveDoubleStarsHead(s: string)
    requires s != [] && s[0] != '*'
    ensures RemoveDoubleStars(s) == [s[0]] + RemoveDoubleStars(s[1..])
  {
  }

  /** A star that no second star follows is kept. */
  lemma RemoveDoubleStarsSingle(s: string)
    requires s == [] || s[0] != '*'
    ensures RemoveDoubleStars("*" + s) == "*" + RemoveDoubleStars(s)
  {
    assert ("*" + s)[1..] == s;
  }

  /** A leading `**` is deleted as a pair and the scan resumes after it:
      `"***x**"` becomes `"*x"`. */
  lemma RemoveDoubleStarsPair(s: string)
    ensures RemoveDoubleStars("**" + s) == RemoveDoubleStars(s)
    ensures RemoveDoubleStars("***x**") == "*x"
  {
    assert ("**" + s)[2..] == s;
    assert "***x**"[2..] == "*x**";
    RemoveDoubleStarsSingle("x**");
    assert "*x**"[1..] == "x**";
    RemoveDoubleStarsHead("x**");
    assert "x**"[1..] == "**";
    assert "**"[2..] == "";
  }

  /** No `**` survives the filter. */
  lemma {:induction false} RemoveDoubleStarsClean(s: string)
    ensures NoDoubleStar(RemoveDoubleStars(s))
    decreases |s|
  {
    if |s| >= 2 && s[0] == '*' && s[1] == '*' {
      RemoveDoubleStarsClean(s[2..]);
    } else if s != [] {
      RemoveDoubleStarsClean(s[1..]);
      var rest := RemoveDoubleStars(s[1..]);
      var r := [s[0]] + rest;
      if s[0] == '*' && |s| >= 2 {
        RemoveDoubleStarsHead(s[1..]);
      }
      forall i | 0 <= i < |r| - 1 ensures !(r[i] == '*' && r[i + 1] == '*') {
        if i > 0 {
          assert r[i] == rest[i - 1] && r[i + 1] == rest[i];
        }
      }
    }
  }

  /** Text without `**` passes unchanged, so the filter is idempotent. */
  lemma {:induction false} RemoveDoubleStarsIdentity(s: string)
    requires NoDoubleStar(s)
    ensures RemoveDoubleStars(s) == s
    decreases |s|
  {
    if s != [] {
      assert NoDoubleStar(s[1..]) by {
        forall i | 0 <= i < |s[1..]| - 1 ensures !(s[1..][i] == '*' && s[1..][i + 1] == '*') {
          assert s[1..][i] == s[i + 1] && s[1..][i + 1] == s[i + 2];
        }
      }
      RemoveDoubleStarsIdentity(s[1..]);
      if |s| >= 2 {
        assert !(s[0] == '*' && s[1] == '*');
      }
      assert [s[0]] + s[1..] == s;
    }
  }

  lemma RemoveDoubleStarsIdempotent(s: string)
    ensures RemoveDoubleStars(RemoveDoubleStars(s)) == RemoveDoubleStars(s)
  {
    RemoveDoubleStarsClean(s);
    RemoveDoubleStarsIdentity(RemoveDoubleStars(s));
  }

  /** Only stars are deleted: the other characters stay, in order. */
  lemma {:induction false} RemoveDoubleStarsKeepsText(s: string)
    ensures Unstarred(RemoveDoubleStars(s)) == Unstarred(s)
    decreases |s|
  {
    if |s| >= 2 && s[0] == '*' && s[1] == '*' {
      RemoveDoubleStarsKeepsText(s[2..]);
      assert s[1..][1..] == s[2..];
    } else if s != [] {
      RemoveDoubleStarsKeepsText(s[1..]);
      assert ([s[0]] + RemoveDoubleStars(s[1..]))[1..] == RemoveDoubleStars(s[1..]);
    }
  }

  // ----- one line -----

  /** What each kind of line renders as: a line wrapped in `**` (even `**`
      alone) is a heading with no `**` left in it and the same non-star
      text; otherwise a line opening with `* ` or `- ` is a list item of the
      rest; otherwise a non-empty line is a paragraph of itself; only the
      empty line renders nothing. */
  lemma ClassifyLine(line: string)
    ensures Classify(line).None? <==> line == ""
    ensures Classify(line).Some? && Classify(line).value.Heading? <==>
      StartsWith(line, "**") && EndsWith(line, "**")
    ensures Classify(line).Some? && Classify(line).value.Heading? ==>
      NoDoubleStar(Classify(line).value.text) && Unstarred(Classify(line).value.text) == Unstarred(line)
    ensures Classify(line).Some? && Classify(line).value.ListItem? ==>
      line == "* " + Classify(line).value.text || line == "- " + Classify(line).value.text
    ensures Classify(line).Some? && Classify(line).value.Paragraph? ==>
      Classify(line).value.text == line && !StartsWith(line, "* ") && !StartsWith(line, "- ")
  {
    RemoveDoubleStarsClean(line);
    RemoveDoubleStarsKeepsText(line);
    if StartsWith(line, "* ") {
      assert line == line[..2] + line[2..];
    }
    if StartsWith(line, "- ") {
      assert line == line[..2] + line[2..];
    }
  }

  /** A paragraph is a whole trimmed line: non-empty, no white space at
      either end. */
  lemma ParagraphTrimmed(raw: string)
    requires Classify(Trim(raw)).Some? && Classify(Trim(raw)).value.Paragraph?
    ensures var t := Classify(Trim(raw)).value.text;
      t != [] && !IsWhitespace(t[0]) && !IsWhitespace(t[|t| - 1])
  {
  }

  // ----- the whole text -----

  lemma {:induction false} RenderLinesConcat(a: seq<string>, b: seq<string>)
    ensures RenderLines(a + b) == RenderLines(a) + RenderLines(b)
    decreases |a|
  {
    if a == [] {
      assert a + b == b;
    } else {
      assert (a + b)[0] == a[0] && (a + b)[1..] == a[1..] + b;
      calc {
        RenderLines(a + b);
        LineElements(a[0]) + RenderLines(a[1..] + b);
        { RenderLinesConcat(a[1..], b); }
        LineElements(a[0]) + (RenderLines(a[1..]) + RenderLines(b));
        (LineElements(a[0]) + RenderLines(a[1..])) + RenderLines(b);
        RenderLines(a) + RenderLines(b);
      }
    }
  }

  /** Lines render independently: the text before a newline renders before
      the text after it. */
  lemma RenderConcat(a: string, b: string)
    ensures Render(a + "\n" + b) == Render(a) + Render(b)
  {
    SplitConcat(a, b, '\n');
    RenderLinesConcat(Split(a, '\n'), Split(b, '\n'));
  }

  /** A single line renders as its classification, or as nothing. */
  lemma RenderLine(line: string)
    requires '\n' !in line
    ensures Render(line) == if Classify(Trim(line)).Some? then [Classify(Trim(line)).value] else []
  {
    SplitFree(line, '\n');
    assert [line][1..] == [];
    assert Render(line) == LineElements(line) + RenderLines([]);
  }
}
