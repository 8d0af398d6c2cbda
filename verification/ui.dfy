/**
 * The shared autocomplete state and the element-type control of the editor.
 *
 * `Popup` is the value of the autocomplete state; `AutocompleteState` holds
 * it in fields that `showAutocomplete` and `hideAutocomplete` assign. The
 * target element is identified by its position in the script.
 */
module Ui {
  import opened Document
  import opened Script
  import opened Session

  datatype Popup = Popup(active: bool, suggestions: seq<string>, selectedIndex: int, target: Option<nat>, word: string) {

    /**
     * The list is shown exactly when it is non-empty; with it hidden nothing
     * is selected or targeted; the selection is never below -1.
     */
    ghost predicate Valid() {
      selectedIndex >= -1 &&
      (active <==> suggestions != []) &&
      (!active ==> selectedIndex == -1 && target.None?)
    }

    /** `hideAutocomplete`: everything reset but the word. */
    function Hide(): (p: Popup)
      ensures p.Valid() && !p.active && p.suggestions == [] && p.selectedIndex == -1 && p.target.None?
      ensures p.word == word
    {
      Popup(false, [], -1, None, word)
    }

    /** `showAutocomplete`: an empty list hides; otherwise the list is shown, the selection, target and word kept. */
    function Show(list: seq<string>): (p: Popup)
      ensures selectedIndex >= -1 ==> p.Valid()
      ensures list == [] ==> p == Hide()
      ensures list != [] ==> p.active && p.suggestions == list && p.selectedIndex == selectedIndex &&
                             p.target == target && p.word == word
    {
      if list == [] then Hide() else this.(active := true, suggestions := list)
    }
  }

  /** The state at start-up. */
  const Closed := Popup(false, [], -1, None, "")

  /** Showing a list twice is showing it once; hiding twice is hiding once. */
  lemma ShowHideIdempotent(p: Popup, list: seq<string>)
    requires p.Valid()
    ensures p.Show(list).Show(list) == p.Show(list)
    ensures p.Hide().Hide() == p.Hide()
  {
  }

  /** Once hidden, showing the empty list and hiding agree, and the typed word survives both. */
  lemma ShowEmptyIsHide(p: Popup)
    requires p.Valid()
    ensures p.Show([]) == p.Hide() && p.Show([]).word == p.word
  {
  }

  /**
   * The shared state as `showAutocomplete` and `hideAutocomplete` are
   * written: js/ui.js imports the whole state object under the name
   * `autocompleteState`, so their assignments land on top-level fields of it
   * (`stray`), not on the nested autocomplete state (`autocomplete`) that
   * the key handlers read.
   */
  datatype Shared = Shared(autocomplete: Popup, stray: Popup) {

    /** `hideAutocomplete` as written: the stray fields reset, the autocomplete state untouched. */
    function HideAsWritten(): (s: Shared)
      ensures s.autocomplete == autocomplete
      ensures !s.stray.active && s.stray.suggestions == [] && s.stray.selectedIndex == -1 && s.stray.target.None?
    {
      this.(stray := stray.Hide())
    }

    /** `showAutocomplete` as written: the list lands in the stray fields, the autocomplete state untouched. */
    function ShowAsWritten(list: seq<string>): (s: Shared)
      ensures s.autocomplete == autocomplete
      ensures list == [] ==> s == HideAsWritten()
      ensures list != [] ==> s.stray.active && s.stray.suggestions == list
    {
      this.(stray := stray.Show(list))
    }
  }

  /** The autocomplete part of the shared state. */
  class AutocompleteState {
    var active: bool
    var suggestions: seq<string>
    var selectedIndex: int
    var target: Option<nat>
    var word: string

    function State(): Popup
      reads this
    {
      Popup(active, suggestions, selectedIndex, target, word)
    }

    ghost predicate Valid()
      reads this
    {
      State().Valid()
    }

    constructor ()
      ensures Valid() && State() == Closed
    {
      active, suggestions, selectedIndex, target, word := false, [], -1, None, "";
    }

    method HideAutocomplete()
      modifies this
      ensures Valid() && State() == old(State()).Hide()
    {
      active := false;
      suggestions := [];
      selectedIndex := -1;
      target := None;
    }

    method ShowAutocomplete(list: seq<string>)
      requires selectedIndex >= -1
      modifies this
      ensures Valid() && State() == old(State()).Show(list)
    {
      if list == [] {
        HideAutocomplete();
        return;
      }
      active := true;
      suggestions := list;
    }
  }

  /** The script after `changeCurrentElementType`: the current element retyped, or a new empty one appended. */
  function ChangedType(script: seq<Element>, current: Option<nat>, newType: string): (r: seq<Element>)
    requires current.Some? ==> current.value < |script|
    ensures current.Some? ==> |r| == |script| && r[current.value].className == newType &&
                              r[current.value].text == script[current.value].text
    ensures current.None? ==> |r| == |script| + 1 && r[|script|] == Element(newType, "")
    ensures forall k :: 0 <= k < |script| && current != Some(k) ==> r[k] == script[k]
  {
    if current.Some? then Retyped(script, current.value, newType) else InsertAfter(script, None, Element(newType, ""))
  }

  /** `changeCurrentElementType`; `current` is the editor element holding the caret, if any. */
  method ChangeCurrentElementType(app: App, newType: string, current: Option<nat>)
    requires current.Some? ==> current.value < |app.surface.script|
    modifies app, app.surface`script
    ensures app.surface.script == ChangedType(old(app.surface.script), current, newType)
    ensures app.State() == old(app.State()).Debounce()
  {
    app.surface.script := ChangedType(app.surface.script, current, newType);
    app.DebouncedSave();
  }
}
