/**
 * The plain-text screenplay export: each top-level element of the editor
 * becomes one formatted line, chosen by the first of the six class names its
 * class attribute contains.
 */
module Export {
  import opened Text
  import opened Document

  /** The line an element contributes to the export. */
  function FormatLine(e: Element): (r: string)
    ensures r != [] && r[|r| - 1] == '\n'
    ensures Trim(e.text) == "" ==> r == "\n"
  {
    var lineText := Trim(e.text);
    var k := Kind(e.className);
    if lineText == "" then "\n"
    else if k == SceneHeading then ToUpper(lineText) + "\n\n"
    else if k == Action then lineText + "\n\n"
    else if k == Character then Spaces(30) + ToUpper(lineText) + "\n"
    else if k == Dialog then Spaces(15) + lineText + "\n\n"
    else if k == Parenthetical then Spaces(22) + "(" + lineText + ")" + "\n"
    else if k == Transition then Spaces(50) + ToUpper(lineText) + "\n\n"
    else lineText + "\n"
  }

  // The layout of each element type, as a table.

  /** The left margin. */
  function Indent(c: string): nat {
    if c == Character then 30
    else if c == Dialog then 15
    else if c == Parenthetical then 22
    else if c == Transition then 50
    else 0
  }

  /** The text as it appears after the margin. */
  function Body(c: string, text: string): string {
    if c == SceneHeading || c == Character || c == Transition then ToUpper(text)
    else if c == Parenthetical then "(" + text + ")"
    else text
  }

  /** The element is followed by a blank line. */
  predicate BlankAfter(c: string) {
    c == SceneHeading || c == Action || c == Dialog || c == Transition
  }

  /** The table's layout of a non-blank line of type `k`: margin, body, line break(s). */
  function Laid(k: string, text: string): string {
    Spaces(Indent(k)) + Body(k, text) + (if BlankAfter(k) then "\n\n" else "\n")
  }

  /** A non-blank element is laid out by the table for the type it is exported as. */
  lemma FormatByKind(e: Element)
    requires Trim(e.text) != ""
    ensures FormatLine(e) == Laid(Kind(e.className), Trim(e.text))
  {
    var k := Kind(e.className);
    if k == SceneHeading { FormatSceneHeading(e); }
    else if k == Action { FormatAction(e); }
    else if k == Character { FormatCharacter(e); }
    else if k == Dialog { FormatDialog(e); }
    else if k == Parenthetical { FormatParenthetical(e); }
    else if k == Transition { FormatTransition(e); }
    else { assert Spaces(0) == []; }
  }

  lemma FormatSceneHeading(e: Element)
    requires Trim(e.text) != "" && Kind(e.className) == SceneHeading
    ensures FormatLine(e) == Laid(SceneHeading, Trim(e.text))
  { assert Spaces(0) == []; }

  lemma FormatAction(e: Element)
    requires Trim(e.text) != "" && Kind(e.className) == Action
    ensures FormatLine(e) == Laid(Action, Trim(e.text))
  {
    var t := Trim(e.text);
    assert Spaces(0) == [];
    assert Laid(Action, t) == t + "\n\n";
  }

  lemma FormatCharacter(e: Element)
    requires Trim(e.text) != "" && Kind(e.className) == Character
    ensures FormatLine(e) == Laid(Character, Trim(e.text))
  {}

  lemma FormatDialog(e: Element)
    requires Trim(e.text) != "" && Kind(e.className) == Dialog
    ensures FormatLine(e) == Laid(Dialog, Trim(e.text))
  {}

  lemma FormatParenthetical(e: Element)
    requires Trim(e.text) != "" && Kind(e.className) == Parenthetical
    ensures FormatLine(e) == Laid(Parenthetical, Trim(e.text))
  {}

  lemma FormatTransition(e: Element)
    requires Trim(e.text) != "" && Kind(e.className) == Transition
    ensures FormatLine(e) == Laid(Transition, Trim(e.text))
  {}

  /** The margin of an exported line is exactly the table's: after it comes the first character of the text, never a blank. */
  lemma MarginIsExact(e: Element)
    requires Trim(e.text) != ""
    ensures var r := FormatLine(e);
            var k := Indent(Kind(e.className));
            k < |r| && r[..k] == Spaces(k) && !IsSpace(r[k])
  {
    var kind := Kind(e.className);
    var t := Trim(e.text);
    FormatByKind(e);
    TrimIsTrimmed(e.text);
    var body := Body(kind, t);
    assert body != [] && !IsSpace(body[0]) by {
      assert !IsSpace(UpperChar(t[0]));
    }
    var k := Indent(kind);
    var r := Laid(kind, t);
    assert r == Spaces(k) + (body + (if BlankAfter(kind) then "\n\n" else "\n"));
    assert r[..k] == Spaces(k);
    assert r[k] == body[0];
  }

  /** The formatted lines of the elements, in order. */
  function Lines(script: seq<Element>): (r: seq<string>)
    ensures |r| == |script| && forall i :: 0 <= i < |script| ==> r[i] == FormatLine(script[i])
  {
    seq(|script|, i requires 0 <= i < |script| => FormatLine(script[i]))
  }

  /** Strings concatenated in order. */
  function Joined(lines: seq<string>): string {
    if lines == [] then "" else Joined(lines[..|lines| - 1]) + lines[|lines| - 1]
  }

  /** The whole export. */
  function ScriptText(script: seq<Element>): string {
    Joined(Lines(script))
  }

  lemma {:induction false} JoinedAppend(a: seq<string>, b: seq<string>)
    ensures Joined(a + b) == Joined(a) + Joined(b)
    decreases |b|
  {
    if b == [] {
      assert a + b == a;
    } else {
      var b' := b[..|b| - 1];
      assert (a + b)[..|a + b| - 1] == a + b';
      JoinedAppend(a, b');
    }
  }

  /** Exporting two runs of elements one after the other gives the two exports concatenated. */
  lemma ScriptTextAppend(a: seq<Element>, b: seq<Element>)
    ensures ScriptText(a + b) == ScriptText(a) + ScriptText(b)
  {
    assert Lines(a + b) == Lines(a) + Lines(b);
    JoinedAppend(Lines(a), Lines(b));
  }

  /** The number of line breaks in `s`. */
  function Breaks(s: string): nat {
    if s == [] then 0 else Breaks(s[..|s| - 1]) + (if s[|s| - 1] == '\n' then 1 else 0)
  }

  lemma {:induction false} BreaksAppend(a: string, b: string)
    ensures Breaks(a + b) == Breaks(a) + Breaks(b)
    decreases |b|
  {
    if b != [] {
      assert (a + b)[..|a + b| - 1] == a + b[..|b| - 1];
      BreaksAppend(a, b[..|b| - 1]);
    } else {
      assert a + b == a;
    }
  }

  /** Strings that each end in a line break, joined, hold at least one line break per string. */
  lemma {:induction false} JoinedBreaks(lines: seq<string>)
    requires forall i :: 0 <= i < |lines| ==> lines[i] != [] && lines[i][|lines[i]| - 1] == '\n'
    ensures Breaks(Joined(lines)) >= |lines|
    decreases |lines|
  {
    if lines != [] {
      var init := lines[..|lines| - 1];
      var line := lines[|lines| - 1];
      JoinedBreaks(init);
      BreaksAppend(Joined(init), line);
      BreaksAppend(line[..|line| - 1], "\n");
      assert line == line[..|line| - 1] + "\n";
    }
  }

  /** Every element contributes at least one line: the export has at least as many line breaks as the script has elements. */
  lemma LineBreaks(script: seq<Element>)
    ensures Breaks(ScriptText(script)) >= |script|
  {
    JoinedBreaks(Lines(script));
  }

  /** `exportScriptAsTxt`: walk the elements, appending each formatted line. */
  method ExportScriptAsTxt(script: seq<Element>) returns (scriptText: string)
    ensures scriptText == ScriptText(script)
  {
    ghost var lines := Lines(script);
    scriptText := "";
    var i := 0;
    while i < |script|
      invariant 0 <= i <= |script|
      invariant scriptText == Joined(lines[..i])
    {
      assert lines[..i + 1][..i] == lines[..i];
      scriptText := scriptText + FormatLine(script[i]);
      i := i + 1;
    }
    assert lines[..|script|] == lines;
  }
}
