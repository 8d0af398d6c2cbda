/**
 * The script editor's key handling and autocomplete triggers: the Enter
 * "next element type" rule, the Tab type cycle, moving through and accepting
 * suggestions, and computing the suggestions for the element being typed in.
 *
 * `Keydown` and `Checked` are the value-level outcomes; the methods act on
 * the application, its surface and the autocomplete state and are proved to
 * produce them.
 */
module Handlers {
  import opened Text
  import opened Document
  import opened Script
  import opened Session
  import opened Autocomplete
  import opened Ui

  /** The Tab cycle of the editor. */
  const ElementTypes := [Action, Character, Parenthetical, Dialog, Transition, SceneHeading]

  /** `list.indexOf(c)`: the first position of `c`, or -1. */
  function IndexOf(list: seq<string>, c: string): (i: int)
    ensures -1 <= i < |list|
    ensures i >= 0 ==> list[i] == c && forall k :: 0 <= k < i ==> list[k] != c
    ensures i == -1 ==> c !in list
  {
    if list == [] then -1
    else if list[0] == c then 0
    else
      var j := IndexOf(list[1..], c);
      if j == -1 then -1 else j + 1
  }

  /** The class Tab gives a blank element: the next one in `types`, wrapping; a class not in `types` counts as the first. */
  function TabClass(types: seq<string>, c: string): (r: string)
    requires types != []
    ensures r in types
  {
    var i := IndexOf(types, c);
    var current := if i == -1 then 0 else i;
    types[(current + 1) % |types|]
  }

  /** With two or more distinct types, Tab always changes the class. */
  lemma TabChangesClass(types: seq<string>, c: string)
    requires NoDuplicates(types) && |types| >= 2
    ensures TabClass(types, c) != c
  {
    var i := IndexOf(types, c);
    if i >= 0 {
      ModBelowTwice(i + 1, |types|);
      IndexOfListed(types, (i + 1) % |types|);
    }
  }

  /** In a list without repeats, a listed string is found where it is. */
  lemma IndexOfListed(types: seq<string>, j: nat)
    requires NoDuplicates(types) && j < |types|
    ensures IndexOf(types, types[j]) == j
  {
  }

  /** `n` Tab presses in a row on a blank element of class `c`. */
  function Cycle(types: seq<string>, c: string, n: nat): string
    requires types != []
    decreases n
  {
    if n == 0 then c else Cycle(types, TabClass(types, c), n - 1)
  }

  lemma {:induction false} CycleAdd(types: seq<string>, c: string, a: nat, b: nat)
    requires types != []
    ensures Cycle(types, c, a + b) == Cycle(types, Cycle(types, c, a), b)
    decreases a
  {
    if a > 0 {
      CycleAdd(types, TabClass(types, c), a - 1, b);
    }
  }

  /** Tab moves a listed class one place down the list. */
  lemma {:induction false} CycleForward(types: seq<string>, i: nat, n: nat)
    requires NoDuplicates(types) && i + n < |types|
    ensures Cycle(types, types[i], n) == types[i + n]
    decreases n
  {
    if n > 0 {
      IndexOfListed(types, i);
      assert (i + 1) % |types| == i + 1;
      assert TabClass(types, types[i]) == types[i + 1];
      CycleForward(types, i + 1, n - 1);
    }
  }

  /** From the last listed type, `i + 1` presses wrap around to the type at `i`. */
  lemma CycleFromLast(types: seq<string>, i: nat)
    requires NoDuplicates(types) && i < |types|
    ensures Cycle(types, types[|types| - 1], i + 1) == types[i]
  {
    var len := |types|;
    CycleAdd(types, types[len - 1], 1, i);
    IndexOfListed(types, len - 1);
    assert len % len == 0;
    assert Cycle(types, types[len - 1], 1) == types[0];
    CycleForward(types, 0, i);
  }

  /** Pressing Tab once per listed type brings the type at `i` back. */
  lemma {:induction false} CycleClosesAt(types: seq<string>, i: nat)
    requires NoDuplicates(types) && i < |types|
    ensures Cycle(types, types[i], |types|) == types[i]
  {
    var k := |types| - 1 - i;
    CycleForward(types, i, k);
    CycleFromLast(types, i);
    CycleAdd(types, types[i], k, i + 1);
    assert k + (i + 1) == |types|;
  }

  /** Pressing Tab once per listed type brings every listed class back. */
  lemma TabCycleCloses(types: seq<string>, c: string)
    requires NoDuplicates(types) && c in types
    ensures Cycle(types, c, |types|) == c
  {
    var i :| 0 <= i < |types| && types[i] == c;
    CycleClosesAt(types, i);
  }

  /** The editor's six-type cycle: every type returns after six presses. */
  lemma EditorTabCycle(c: string)
    requires c in ElementTypes
    ensures Cycle(ElementTypes, c, 6) == c
  {
    ElementTypesApart();
    TabCycleCloses(ElementTypes, c);
  }

  /** An unlisted class becomes a character. */
  lemma TabUnlisted(other: string)
    requires other !in ElementTypes
    ensures TabClass(ElementTypes, other) == Character
  {
    assert (0 + 1) % 6 == 1;
  }

  /** Tab on a dialog gives a transition; on a scene heading it wraps around to an action. */
  lemma TabDialogAndHeading()
    ensures TabClass(ElementTypes, Dialog) == Transition
    ensures TabClass(ElementTypes, SceneHeading) == Action
  {
    ElementTypesApart();
    IndexOfListed(ElementTypes, 3);
    IndexOfListed(ElementTypes, 5);
    assert (3 + 1) % 6 == 4 && (5 + 1) % 6 == 0;
  }

  /** The six class names differ in their eighth character. */
  lemma ElementTypesApart()
    ensures NoDuplicates(ElementTypes)
  {
    var marks := "acpdts";
    forall k | 0 <= k < 6
      ensures |ElementTypes[k]| > 7 && ElementTypes[k][7] == marks[k]
    {
    }
  }

  /** The class Enter gives the element it inserts after one of type `k`; after anything else, an action. */
  function Successor(k: string): string {
    if k == SceneHeading then Action
    else if k == Action then Character
    else if k == Character then Dialog
    else if k == Dialog then Character
    else if k == Parenthetical then Dialog
    else if k == Transition then SceneHeading
    else Action
  }

  /**
   * The class of the element Enter inserts. The tests of the class attribute
   * run in the same order as `Kind`'s, so the first that succeeds decides.
   */
  function NextClass(current: Option<string>): (r: string)
    ensures IsElementType(r)
    ensures current.None? ==> r == Action
  {
    if current.None? then Action else Successor(Kind(current.value))
  }

  /** The Enter rule: each element type is followed by its successor, an unknown class by an action. */
  lemma EnterRule(c: string)
    ensures IsElementType(c) ==> NextClass(Some(c)) == Successor(c)
    ensures !Contains(c, SceneHeading) && !Contains(c, Action) && !Contains(c, Character) &&
            !Contains(c, Dialog) && !Contains(c, Parenthetical) && !Contains(c, Transition) ==>
            NextClass(Some(c)) == Action
  {
    if IsElementType(c) {
      KindOfType(c);
    } else if !Contains(c, SceneHeading) && !Contains(c, Action) && !Contains(c, Character) &&
              !Contains(c, Dialog) && !Contains(c, Parenthetical) && !Contains(c, Transition) {
      KindOfUnknown(c);
    }
  }

  /** The class of the element holding the caret, if any. */
  function ClassAt(script: seq<Element>, current: Option<nat>): Option<string>
    requires current.Some? ==> current.value < |script|
  {
    if current.Some? then Some(script[current.value].className) else None
  }

  datatype Key = Enter | Tab | ArrowDown | ArrowUp | Escape | OtherKey

  /** JavaScript's `%`: the remainder takes the sign of the dividend. */
  function JsRem(a: int, n: int): (r: int)
    requires n > 0
    ensures -n < r < n
    ensures a >= 0 ==> r == a % n
  {
    if a >= 0 then a % n else -((-a) % n)
  }

  /** The selection after ArrowDown (`down`) or ArrowUp while the list is shown, wrapping around it. */
  function Moved(p: Popup, down: bool): (q: Popup)
    requires p.Valid() && p.active
    ensures q.Valid() && 0 <= q.selectedIndex < |p.suggestions|
    ensures q == p.(selectedIndex := q.selectedIndex)
    ensures p.selectedIndex < |p.suggestions| && down ==>
              q.selectedIndex == if p.selectedIndex == |p.suggestions| - 1 then 0 else p.selectedIndex + 1
    ensures p.selectedIndex < |p.suggestions| && !down && p.selectedIndex > 0 ==> q.selectedIndex == p.selectedIndex - 1
    ensures !down && p.selectedIndex == 0 ==> q.selectedIndex == |p.suggestions| - 1
  {
    var n := |p.suggestions|;
    var i := if down then JsRem(p.selectedIndex + 1, n) else JsRem(p.selectedIndex - 1 + n, n);
    assert i >= 0 by {
      if !down && p.selectedIndex - 1 + n < 0 {
        assert n == 1 && p.selectedIndex == -1;
      }
    }
    assert p.selectedIndex < n && down ==> i == if p.selectedIndex == n - 1 then 0 else p.selectedIndex + 1 by {
      if p.selectedIndex < n && down {
        ModBelowTwice(p.selectedIndex + 1, n);
      }
    }
    assert 0 <= p.selectedIndex < n && !down ==> i == if p.selectedIndex == 0 then n - 1 else p.selectedIndex - 1 by {
      if 0 <= p.selectedIndex < n && !down {
        ModBelowTwice(p.selectedIndex - 1 + n, n);
      }
    }
    p.(selectedIndex := i).Show(p.suggestions)
  }

  lemma ModBelowTwice(a: int, n: int)
    requires 0 <= a < 2 * n
    ensures a % n == if a < n then a else a - n
  {
    if a >= n {
      assert a == 1 * n + (a - n);
    }
  }

  /** ArrowDown then ArrowUp, or the reverse, leaves a selection where it was. */
  lemma DownUpInverse(p: Popup)
    requires p.Valid() && p.active && 0 <= p.selectedIndex < |p.suggestions|
    ensures Moved(Moved(p, true), false) == p
    ensures Moved(Moved(p, false), true) == p
  {
    var n := |p.suggestions|;
    var i := p.selectedIndex;
    ModBelowTwice(i + 1, n);
    var j := Moved(p, true).selectedIndex;
    ModBelowTwice(j - 1 + n, n);
    ModBelowTwice(i - 1 + n, n);
    var k := Moved(p, false).selectedIndex;
    ModBelowTwice(k + 1, n);
  }

  /**
   * With nothing selected, ArrowDown selects the first suggestion while
   * ArrowUp selects the second-to-last (the only one when there is one).
   */
  lemma MoveFromNothing(p: Popup)
    requires p.Valid() && p.active && p.selectedIndex == -1
    ensures Moved(p, true).selectedIndex == 0
    ensures |p.suggestions| >= 2 ==> Moved(p, false).selectedIndex == |p.suggestions| - 2
    ensures |p.suggestions| == 1 ==> Moved(p, false).selectedIndex == 0
  {
    ModBelowTwice(0, |p.suggestions|);
    if |p.suggestions| >= 2 {
      ModBelowTwice(|p.suggestions| - 2, |p.suggestions|);
    }
  }

  /** A blank or `(`: the separators of the word being completed. */
  predicate IsBreak(c: char) {
    IsSpace(c) || c == '('
  }

  /** The last piece of `t.split(/[\s(]+/)`: what follows the last separator (empty when `t` ends in one). */
  function LastWord(t: string): (r: string)
    ensures |r| <= |t| && r == t[|t| - |r|..]
    ensures forall k :: 0 <= k < |r| ==> !IsBreak(r[k])
    ensures |r| < |t| ==> IsBreak(t[|t| - |r| - 1])
  {
    if t == [] || IsBreak(t[|t| - 1]) then [] else LastWord(t[..|t| - 1]) + [t[|t| - 1]]
  }

  /** `v` is offered for `word`: it starts with it, ignoring case, and is not the same word. */
  predicate Suggests(v: string, word: string) {
    StartsWith(ToLower(v), ToLower(word)) && ToLower(v) != ToLower(word)
  }

  /** The values offered for `word`, in their order. */
  function Filtered(values: seq<string>, word: string): (r: seq<string>)
    ensures |r| <= |values|
    ensures forall v :: v in r <==> v in values && Suggests(v, word)
  {
    if values == [] then []
    else
      var rest := Filtered(values[1..], word);
      if Suggests(values[0], word) then [values[0]] + rest else rest
  }

  /**
   * Filtering keeps order and multiplicity: a single value stays exactly when
   * it is offered, and filtering a concatenation concatenates the filtered
   * parts.
   */
  lemma {:induction false} FilteredAppend(a: seq<string>, b: seq<string>, word: string)
    ensures Filtered([], word) == []
    ensures forall v :: Filtered([v], word) == if Suggests(v, word) then [v] else []
    ensures Filtered(a + b, word) == Filtered(a, word) + Filtered(b, word)
    decreases |a|
  {
    forall v ensures Filtered([v], word) == if Suggests(v, word) then [v] else [] {
      assert [v][1..] == [];
    }
    if a == [] {
      assert a + b == b;
    } else {
      assert (a + b)[1..] == a[1..] + b;
      assert (a + b)[0] == a[0];
      FilteredAppend(a[1..], b, word);
    }
  }

  /** The first offered value keeps the place among the offered ones that it has in the source values. */
  lemma FilteredOrder(a: seq<string>, v: string, b: seq<string>, word: string)
    requires Suggests(v, word)
    ensures Filtered(a + [v] + b, word) == Filtered(a, word) + [v] + Filtered(b, word)
  {
    FilteredAppend(a + [v], b, word);
    FilteredAppend(a, [v], word);
  }

  /** The new text when `value` is accepted: the text before the last occurrence of `word`, then `value`. */
  function AcceptedText(text: string, word: string, value: string): (r: string)
    ensures EndsWith(r, value)
    ensures StartsWith(text, r[..|r| - |value|])
  {
    var i := LastIndexOf(text, word);
    var kept := if i < 0 then "" else text[..i];
    assert (kept + value)[..|kept|] == kept;
    kept + value
  }

  /** Completing the word the text ends with replaces just that word. */
  lemma AcceptReplacesTrailingWord(prefix: string, word: string, value: string)
    ensures AcceptedText(prefix + word, word, value) == prefix + value
  {
    var t := prefix + word;
    assert OccursAt(t, word, |prefix|);
    assert t[..|prefix|] == prefix;
  }

  /** When the word does not occur, the whole text is replaced (`substring(0, -1)` is empty). */
  lemma AcceptWithoutWord(text: string, word: string, value: string)
    requires forall i :: !OccursAt(text, word, i)
    ensures AcceptedText(text, word, value) == value
  {
  }

  /** JavaScript's array read as a string: the element, or "undefined" out of range. */
  function JsIndex(s: seq<string>, i: int): (r: string)
    ensures 0 <= i < |s| ==> r == s[i]
    ensures !(0 <= i < |s|) ==> r == "undefined"
  {
    if 0 <= i < |s| then s[i] else "undefined"
  }

  /** `handleAutocompleteSelection` as written: the target's new text, or None when it returns early. */
  function AcceptAsWritten(p: Popup, text: string): (r: Option<string>)
    ensures r.Some? <==> p.selectedIndex != -1 && p.target.Some?
  {
    if p.selectedIndex == -1 || p.target.None? then None
    else Some(AcceptedText(text, p.word, JsIndex(p.suggestions, p.selectedIndex)))
  }

  /** The suggestion the selection designates, if it designates a shown one. */
  function Selection(p: Popup): (r: Option<string>)
    ensures r.Some? <==> 0 <= p.selectedIndex < |p.suggestions|
    ensures r.Some? ==> r.value in p.suggestions
  {
    if 0 <= p.selectedIndex < |p.suggestions| then Some(p.suggestions[p.selectedIndex]) else None
  }

  /** `checkAutocomplete` setting the target and word before showing the list. */
  function Offer(p: Popup, target: nat, word: string, list: seq<string>): (q: Popup)
    requires p.Valid()
    ensures q.Valid()
    ensures list == [] ==> q == p.(word := word).Hide()
    ensures list != [] ==> q.selectedIndex == p.selectedIndex && q.active && q.suggestions == list && q.target == Some(target) && q.word == word
  {
    p.(target := Some(target), word := word).Show(list)
  }

  /**
   * The selection is not reset when a shorter list replaces the shown one,
   * and accepting then writes "undefined" into the script.
   */
  lemma StaleSelectionAsWritten()
    ensures var p := Offer(Closed, 0, "B", ["BOB", "BOBBY", "BOBBIE", "BOBO"]);
            var q := Moved(Moved(Moved(Moved(p, true), true), true), true);
            var r := Offer(q, 0, "BOBB", ["BOBBY", "BOBBIE"]);
            q.selectedIndex == 3 && r.active && r.selectedIndex == 3 && |r.suggestions| == 2 &&
            AcceptAsWritten(r, "BOBB") == Some("undefined") && Selection(r).None?
  {
    assert LastIndexOf("BOBB", "BOBB") == 0 by {
      assert OccursAt("BOBB", "BOBB", 0);
    }
  }

  /** The script after accepting the selection, or None when nothing happens. */
  function AcceptInto(script: seq<Element>, p: Popup): (r: Option<seq<Element>>)
    ensures r.Some? <==> Selection(p).Some? && p.target.Some?
    ensures r.Some? ==> |r.value| == |script|
    ensures r.Some? ==> forall k :: 0 <= k < |script| && p.target != Some(k) ==> r.value[k] == script[k]
  {
    match Selection(p)
    case None => None
    case Some(v) =>
      if p.target.None? then None
      else
        var t := p.target.value;
        if t < |script| then Some(script[t := Element(script[t].className, AcceptedText(script[t].text, p.word, v))])
        else Some(script)
  }

  /** An accepted completion always ends the target's text with a suggestion that was shown, keeping its class. */
  lemma AcceptedIsOffered(script: seq<Element>, p: Popup)
    requires AcceptInto(script, p).Some? && p.target.value < |script|
    ensures var e := AcceptInto(script, p).value[p.target.value];
            e.className == script[p.target.value].className &&
            exists v :: v in p.suggestions && EndsWith(e.text, v)
  {
    var v := Selection(p).value;
    assert EndsWith(AcceptInto(script, p).value[p.target.value].text, v);
  }

  /** What a keystroke does: the new script, the new autocomplete state, and whether a save is scheduled. */
  datatype Outcome = Outcome(script: seq<Element>, popup: Popup, save: bool)

  /** Accepting the selection: the completion is written, the list hidden and a save scheduled; or nothing. */
  function Accepting(script: seq<Element>, p: Popup): (o: Outcome)
    requires p.Valid()
    ensures o.popup.Valid()
  {
    match AcceptInto(script, p)
    case None => Outcome(script, p, false)
    case Some(s) => Outcome(s, p.Hide(), true)
  }

  /** `handleScriptKeydown`: `current` is the editor element holding the caret, if any. */
  function Keydown(script: seq<Element>, p: Popup, key: Key, shift: bool, current: Option<nat>): (o: Outcome)
    requires (p.active ==> p.Valid()) && (current.Some? ==> current.value < |script|)
    ensures p.Valid() ==> o.popup.Valid()
    ensures !p.active && key == Enter ==>
              o == Outcome(InsertAfter(script, current, Element(NextClass(ClassAt(script, current)), "")), p, true)
    ensures !p.active && key == Tab && !shift && current.Some? && Trim(script[current.value].text) == "" ==>
              o == Outcome(Retyped(script, current.value, TabClass(ElementTypes, script[current.value].className)), p, true)
  {
    if p.active && (key == ArrowDown || key == ArrowUp) then Outcome(script, Moved(p, key == ArrowDown), false)
    else if p.active && (key == Enter || key == Tab) then Accepting(script, p)
    else if p.active && key == Escape then Outcome(script, p.Hide(), false)
    else if key == Enter then
      Outcome(InsertAfter(script, current, Element(NextClass(ClassAt(script, current)), "")), p, true)
    else if key == Tab && !shift && current.Some? && Trim(script[current.value].text) == "" then
      Outcome(Retyped(script, current.value, TabClass(ElementTypes, script[current.value].className)), p, true)
    else Outcome(script, p, false)
  }

  /** While suggestions are shown, Enter and Tab accept one instead of inserting or retyping an element. */
  lemma ShownListCapturesEnterAndTab(script: seq<Element>, p: Popup, key: Key, shift: bool, current: Option<nat>)
    requires p.Valid() && p.active && (key == Enter || key == Tab)
    requires current.Some? ==> current.value < |script|
    ensures var o := Keydown(script, p, key, shift, current);
            |o.script| == |script| &&
            (o.script == script || (p.target.Some? && Selection(p).Some?))
  {
  }

  /** Tab with Shift, or on an element with text, changes nothing and schedules nothing. */
  lemma TabNeedsBlankElement(script: seq<Element>, p: Popup, shift: bool, current: Option<nat>)
    requires p.Valid() && !p.active && (current.Some? ==> current.value < |script|)
    requires shift || current.None? || Trim(script[current.value].text) != ""
    ensures Keydown(script, p, Tab, shift, current) == Outcome(script, p, false)
  {
  }

  /** Enter inserts exactly one empty element right after the current one (at the end without one). */
  lemma EnterInsertsOne(script: seq<Element>, p: Popup, shift: bool, current: Option<nat>)
    requires p.Valid() && !p.active && (current.Some? ==> current.value < |script|)
    ensures var o := Keydown(script, p, Enter, shift, current);
            var at := InsertPosition(script, current);
            o.save && RemoveAt(o.script, at) == script && o.script[at].text == "" &&
            o.script[at].className == NextClass(ClassAt(script, current))
  {
    InsertThenRemove(script, current, Element(NextClass(ClassAt(script, current)), ""));
  }

  /** Characters and scene headings are completed. */
  predicate Completes(cls: string) {
    Contains(cls, Character) || Contains(cls, SceneHeading)
  }

  /** The suggestions for element `el` of the script: none unless it is completed and ends in a word. */
  function Offered(script: seq<Element>, el: Element): (r: seq<string>)
    ensures r != [] ==> Completes(el.className) && LastWord(el.text) != ""
  {
    if Completes(el.className) && LastWord(el.text) != "" then
      Filtered(UniqueValues(script, el.className), LastWord(el.text))
    else []
  }

  /** `checkAutocomplete`: the autocomplete state after the caret moved or the text changed. */
  function Checked(script: seq<Element>, p: Popup, current: Option<nat>, hasRange: bool): (q: Popup)
    requires p.Valid() && (current.Some? ==> current.value < |script|)
    ensures q.Valid()
  {
    if current.None? then p.Hide()
    else
      var el := script[current.value];
      var filtered := Offered(script, el);
      if filtered == [] then p.Hide()
      else if !hasRange then p
      else Offer(p, current.value, LastWord(el.text), filtered)
  }

  /**
   * Suggestions are offered only for characters and scene headings, for the
   * word at the end of the current element's text, and each one starts with
   * that word, differs from it, and is the value of an element of the same
   * class.
   */
  lemma CheckedOffers(script: seq<Element>, p: Popup, current: Option<nat>)
    requires p.Valid() && (current.Some? ==> current.value < |script|)
    ensures var q := Checked(script, p, current, true);
            q.active ==>
              current.Some? && q.target == current &&
              var el := script[current.value];
              (Contains(el.className, Character) || Contains(el.className, SceneHeading)) &&
              q.word == LastWord(el.text) && q.word != "" &&
              forall v :: v in q.suggestions ==>
                Suggests(v, q.word) && exists k :: 0 <= k < |script| && Yields(script[k], el.className, v)
  {
    var q := Checked(script, p, current, true);
    if q.active {
      var el := script[current.value];
      forall v | v in q.suggestions
        ensures exists k :: 0 <= k < |script| && Yields(script[k], el.className, v)
      {
        UniqueValuesMembers(script, el.className, v);
      }
    }
  }

  /**
   * `checkAutocomplete` as written: the target and word go to the nested
   * autocomplete state, while the list is shown and hidden through the stray
   * fields `showAutocomplete` and `hideAutocomplete` write.
   */
  function CheckedAsWritten(script: seq<Element>, s: Shared, current: Option<nat>, hasRange: bool): (r: Shared)
    requires current.Some? ==> current.value < |script|
    ensures r.autocomplete.active == s.autocomplete.active
    ensures r.autocomplete.suggestions == s.autocomplete.suggestions
    ensures r.autocomplete.selectedIndex == s.autocomplete.selectedIndex
  {
    if current.None? then s.HideAsWritten()
    else
      var el := script[current.value];
      var filtered := Offered(script, el);
      if filtered == [] then s.HideAsWritten()
      else if !hasRange then s
      else s.(autocomplete := s.autocomplete.(target := Some(current.value), word := LastWord(el.text))).ShowAsWritten(filtered)
  }

  /**
   * As written, a list that is put on screen never becomes the active list:
   * the nested state the key handler reads stays inactive, so Enter inserts a
   * new element instead of accepting the shown suggestion.
   */
  lemma ShownListIgnoredAsWritten(script: seq<Element>, s: Shared, c: nat)
    requires c < |script| && !s.autocomplete.active && Offered(script, script[c]) != []
    ensures var r := CheckedAsWritten(script, s, Some(c), true);
            r.stray.active && r.stray.suggestions == Offered(script, script[c]) &&
            !r.autocomplete.active &&
            Keydown(script, r.autocomplete, Enter, false, Some(c)) ==
              Outcome(InsertAfter(script, Some(c), Element(NextClass(Some(script[c].className)), "")), r.autocomplete, true)
  {
  }

  /** `handleAutocompleteSelection`, accepting only a selection that designates a shown suggestion. */
  method HandleAutocompleteSelection(app: App, ac: AutocompleteState)
    requires ac.Valid()
    modifies app, app.surface`script, ac
    ensures var o := Accepting(old(app.surface.script), old(ac.State()));
            app.surface.script == o.script && ac.State() == o.popup &&
            app.State() == if o.save then old(app.State()).Debounce() else old(app.State())
  {
    var selectedValue := Selection(ac.State());
    if selectedValue.None? {
      return;
    }
    var target := ac.target;
    if target.None? {
      return;
    }
    var t := target.value;
    if t < |app.surface.script| {
      var fullText := app.surface.script[t].text;
      var el := Element(app.surface.script[t].className, AcceptedText(fullText, ac.word, selectedValue.value));
      app.surface.script := app.surface.script[t := el];
    }
    ac.HideAutocomplete();
    app.DebouncedSave();
  }

  /** `handleScriptKeydown`; `current` is the editor element holding the caret, if any. */
  method HandleScriptKeydown(app: App, ac: AutocompleteState, key: Key, shift: bool, current: Option<nat>)
    requires ac.Valid() && (current.Some? ==> current.value < |app.surface.script|)
    modifies app, app.surface`script, ac
    ensures ac.Valid()
    ensures var o := Keydown(old(app.surface.script), old(ac.State()), key, shift, current);
            app.surface.script == o.script && ac.State() == o.popup &&
            app.State() == if o.save then old(app.State()).Debounce() else old(app.State())
  {
    if ac.active {
      if key == ArrowDown || key == ArrowUp {
        var moved := Moved(ac.State(), key == ArrowDown);
        ac.selectedIndex := moved.selectedIndex;
        ac.ShowAutocomplete(ac.suggestions);
        return;
      }
      if key == Enter || key == Tab {
        HandleAutocompleteSelection(app, ac);
        return;
      }
      if key == Escape {
        ac.HideAutocomplete();
        return;
      }
    }
    if key == Enter {
      var nextClass := NextClass(ClassAt(app.surface.script, current));
      app.surface.script := InsertAfter(app.surface.script, current, Element(nextClass, ""));
      app.DebouncedSave();
    }
    if key == Tab && !shift {
      if current.Some? && Trim(app.surface.script[current.value].text) == "" {
        var currentClass := app.surface.script[current.value].className;
        app.surface.script := Retyped(app.surface.script, current.value, TabClass(ElementTypes, currentClass));
        app.DebouncedSave();
      }
    }
  }

  /** The suggestion list `checkAutocomplete` computes for the element holding the caret. */
  method Suggestions(script: seq<Element>, currentEl: Element) returns (filtered: seq<string>)
    ensures filtered == Offered(script, currentEl)
  {
    var className := currentEl.className;
    var currentWord := LastWord(currentEl.text);
    filtered := [];
    if Completes(className) && currentWord != "" {
      var sourceValues := GetUniqueValues(script, className);
      filtered := Filtered(sourceValues, currentWord);
    }
  }

  /** The end of `checkAutocomplete`: the target element and the word are recorded, then the list is shown. */
  method OfferSuggestions(ac: AutocompleteState, target: nat, word: string, list: seq<string>)
    requires ac.Valid()
    modifies ac
    ensures ac.Valid() && ac.State() == Offer(old(ac.State()), target, word, list)
  {
    ac.target := Some(target);
    ac.word := word;
    ac.ShowAutocomplete(list);
  }

  /** `checkAutocomplete`; `hasRange` is whether the document has a selection range to place the list at. */
  method CheckAutocomplete(app: App, ac: AutocompleteState, current: Option<nat>, hasRange: bool)
    requires ac.Valid() && (current.Some? ==> current.value < |app.surface.script|)
    modifies ac
    ensures ac.Valid() && ac.State() == Checked(app.surface.script, old(ac.State()), current, hasRange)
  {
    if current.None? {
      ac.HideAutocomplete();
      return;
    }
    var currentEl := app.surface.script[current.value];
    var filtered := Suggestions(app.surface.script, currentEl);
    if filtered == [] {
      ac.HideAutocomplete();
      return;
    }
    if !hasRange {
      return;
    }
    OfferSuggestions(ac, current.value, LastWord(currentEl.text), filtered);
  }
}
