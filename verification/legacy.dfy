/**
 * The single-file version of the application: save, load and import without
 * the restore flag or a history, its own Enter and Tab rules, and adding and
 * deleting storyboard panels and shots, which renumbers the headings shown.
 *
 * It shares the surface (render and capture are the same as the module
 * version's) and the store with the module version; `LegacySession` is its
 * value-level state and `LegacyApp` holds it in fields.
 */
module Legacy {
  import opened Text
  import opened Document
  import opened Script
  import opened Render
  import opened Session
  import opened Autocomplete
  import opened Ui
  import opened Handlers

  /** The Tab cycle of this version: five types, no dialog. */
  const LegacyElementTypes := [Action, Character, Parenthetical, Transition, SceneHeading]

  /**
   * The class of the element Enter inserts: six independent tests of the
   * class attribute, so the last one that succeeds decides; an action is
   * followed by another action.
   */
  function LegacyNextClass(current: Option<string>): (r: string)
    ensures IsElementType(r)
    ensures current.None? ==> r == Action
  {
    if current.None? then Action
    else
      var c := current.value;
      var r1 := if Contains(c, SceneHeading) then Action else Action;
      var r2 := if Contains(c, Action) then Action else r1;
      var r3 := if Contains(c, Character) then Dialog else r2;
      var r4 := if Contains(c, Dialog) then Character else r3;
      var r5 := if Contains(c, Parenthetical) then Dialog else r4;
      if Contains(c, Transition) then SceneHeading else r5
  }

  /** On a single class name this version's Enter rule is the module version's, except that an action is followed by an action. */
  lemma LegacyEnterRule(c: string)
    requires IsElementType(c)
    ensures LegacyNextClass(Some(c)) == if c == Action then Action else Successor(c)
  {
    ClassNamesApart(c);
  }

  /** The two Enter rules agree on a single class name exactly when it is not an action. */
  lemma EnterRulesDiffer(c: string)
    requires IsElementType(c)
    ensures LegacyNextClass(Some(c)) == NextClass(Some(c)) <==> c != Action
  {
    LegacyEnterRule(c);
    EnterRule(c);
    assert Action != Character by {
      assert |Action| != |Character|;
    }
  }

  /** An attribute carrying two class names. */
  const Mixed := "script-character script-dialog"

  /** The attribute contains none of the four other class names: it has no `n`. */
  lemma MixedLacksOthers()
    ensures !Contains(Mixed, SceneHeading) && !Contains(Mixed, Action)
    ensures !Contains(Mixed, Parenthetical) && !Contains(Mixed, Transition)
  {
    assert 'n' !in Mixed;
    MissingChar(Mixed, SceneHeading, 'n');
    MissingChar(Mixed, Action, 'n');
    MissingChar(Mixed, Parenthetical, 'n');
    MissingChar(Mixed, Transition, 'n');
  }

  /** The attribute contains the character class name, at its start. */
  lemma MixedHasCharacter()
    ensures Contains(Mixed, Character)
  {
    assert Mixed[0..|Character|] == Character;
    OccursContains(Mixed, Character, 0);
  }

  /** The attribute contains the dialog class name, after the blank. */
  lemma MixedHasDialog()
    ensures Contains(Mixed, Dialog)
  {
    assert Mixed[17..17 + |Dialog|] == Dialog;
    OccursContains(Mixed, Dialog, 17);
  }

  /**
   * On an attribute carrying two class names the module version follows the
   * first of its ordered tests and this version the last test that succeeds.
   */
  lemma LastMatchWins()
    ensures NextClass(Some(Mixed)) == Dialog
    ensures LegacyNextClass(Some(Mixed)) == Character
  {
    MixedLacksOthers();
    MixedHasCharacter();
    MixedHasDialog();
    assert Kind(Mixed) == Character;
  }

  /** The five class names are distinct. */
  lemma LegacyTypesApart()
    ensures NoDuplicates(LegacyElementTypes)
  {
    var marks := "acpts";
    forall k | 0 <= k < 5
      ensures |LegacyElementTypes[k]| > 7 && LegacyElementTypes[k][7] == marks[k]
    {
    }
  }

  /** The dialog class is not in this version's cycle. */
  lemma DialogUnlisted()
    ensures Dialog !in LegacyElementTypes
  {
    var marks := "acpts";
    forall k | 0 <= k < 5
      ensures LegacyElementTypes[k] != Dialog
    {
      assert LegacyElementTypes[k][7] == marks[k] != Dialog[7];
    }
  }

  /** This version's Tab cycle: five presses bring a listed type back. */
  lemma LegacyTabCycle(c: string)
    requires c in LegacyElementTypes
    ensures Cycle(LegacyElementTypes, c, 5) == c
  {
    LegacyTypesApart();
    TabCycleCloses(LegacyElementTypes, c);
  }

  /**
   * A dialog, not being listed, becomes a character (the module version
   * gives a transition), and Tab here never produces a dialog.
   */
  lemma LegacyTabOnDialog(any: string)
    ensures TabClass(LegacyElementTypes, Dialog) == Character
    ensures TabClass(LegacyElementTypes, any) != Dialog
  {
    DialogUnlisted();
    assert (0 + 1) % 5 == 1;
  }

  /** What a keystroke does to the script here, and whether a save is scheduled. */
  datatype Edit = Edit(script: seq<Element>, save: bool)

  /** `handleScriptKeydown` of this version: no suggestions, and Tab regardless of Shift. */
  function LegacyKeydown(script: seq<Element>, key: Key, current: Option<nat>): (e: Edit)
    requires current.Some? ==> current.value < |script|
    ensures key == Enter ==> e.save && |e.script| == |script| + 1 &&
                             RemoveAt(e.script, InsertPosition(script, current)) == script
    ensures key == Enter ==>
              e.script[InsertPosition(script, current)] == Element(LegacyNextClass(ClassAt(script, current)), "")
    ensures key == Tab && current.Some? && Trim(script[current.value].text) == "" ==>
              e == Edit(Retyped(script, current.value, TabClass(LegacyElementTypes, script[current.value].className)), true)
    ensures key == Tab && (current.None? || Trim(script[current.value].text) != "") ==> e == Edit(script, false)
    ensures key != Enter && key != Tab ==> e == Edit(script, false)
    ensures key != Enter ==> |e.script| == |script|
  {
    if key == Enter then
      var newEl := Element(LegacyNextClass(ClassAt(script, current)), "");
      InsertThenRemove(script, current, newEl);
      Edit(InsertAfter(script, current, newEl), true)
    else if key == Tab && current.Some? && Trim(script[current.value].text) == "" then
      Edit(Retyped(script, current.value, TabClass(LegacyElementTypes, script[current.value].className)), true)
    else Edit(script, false)
  }

  /** Shift+Tab on a blank element retypes it here, while the module version leaves it alone. */
  lemma ShiftTabRetypes(script: seq<Element>, p: Popup, i: nat)
    requires p.Valid() && !p.active && i < |script| && Trim(script[i].text) == ""
    ensures Keydown(script, p, Tab, true, Some(i)).script == script
    ensures LegacyKeydown(script, Tab, Some(i)).script != script
    ensures LegacyKeydown(script, Tab, Some(i)).script[i].className != script[i].className
  {
    TabNeedsBlankElement(script, p, true, Some(i));
    LegacyTypesApart();
    TabChangesClass(LegacyElementTypes, script[i].className);
  }

  /** The state of this version: the timer slot, the status and the store. */
  datatype LegacySession = LegacySession(pending: bool, status: Status, store: Store) {

    /** `saveProjectData`: status `saved` and the capture stored, or `error` and nothing stored. */
    function Save(stored: Snapshot, writeOk: bool): (s: LegacySession)
      ensures s.pending == pending
      ensures writeOk ==> s.status == Saved && s.store == store[StorageKey := Json(ToData(stored))]
      ensures !writeOk ==> s.status == Error && s.store == store
    {
      if writeOk then this.(status := Saved, store := store[StorageKey := Json(ToData(stored))])
      else this.(status := Error)
    }

    /** `debouncedSave`: status `saving` and a (re)armed timer. */
    function Debounce(): (s: LegacySession)
      ensures s.pending && s.status == Saving && s.store == store
    {
      this.(status := Saving, pending := true)
    }

    /** The debounce timer runs out, if one is armed, and the save runs. */
    function Tick(stored: Snapshot, writeOk: bool): (s: LegacySession)
      ensures !s.pending
      ensures !pending ==> s == this
      ensures pending ==> s == this.(pending := false).Save(stored, writeOk)
    {
      if pending then this.(pending := false).Save(stored, writeOk) else this
    }

    /** `loadProjectData` after the lookup; as in the module version the status ends `saved` when the load itself succeeds. */
    function Load(found: Found, writeOk: bool): (s: LegacySession)
      ensures s.pending == pending
      ensures found.ReadFailed? || found.Unparsable? ==> s == this.(status := Error)
      ensures found.Stored? ==> s == this.(status := Saved)
      ensures found.Nothing? ==> s.status == Saved && s.store == Save(NewProject, writeOk).store
    {
      match found
      case ReadFailed => this.(status := Error)
      case Unparsable => this.(status := Error)
      case Stored(_) => this.(status := Saved)
      case Nothing => Save(NewProject, writeOk).(status := Saved)
    }

    /** `importProject` once the file is parsed: an accepted project is restored and saved at once. */
    function Import(parsed: Option<ProjectData>, stored: Snapshot, writeOk: bool): (s: LegacySession)
      ensures s.pending == pending
      ensures !Importable(parsed) ==> s == this.(status := Error)
      ensures Importable(parsed) ==> s == Save(stored, writeOk)
    {
      if Importable(parsed) then this.(status := Imported).Save(stored, writeOk) else this.(status := Error)
    }
  }

  /** The part of the module version's state this version has. */
  function Forget(s: Session): (l: LegacySession)
    ensures l.pending == s.pending && l.status == s.status && l.store == s.store
  {
    LegacySession(s.pending, s.status, s.store)
  }

  /**
   * Without the restore flag raised, the module version's save, load and
   * import do to the timer, status and store what this version's do; with
   * it raised, the module version's save writes nothing where this
   * version's writes the capture.
   */
  lemma SaveAgreesUnlessRestoring(s: Session, a: Snapshot, b: Snapshot, w: bool)
    requires s.Valid()
    ensures !s.isRestoring ==> Forget(s.Save(a, b, w)) == Forget(s).Save(a, w)
    ensures s.isRestoring ==> s.Save(a, b, true).store == s.store &&
                              Forget(s).Save(a, true).store[StorageKey] == Json(ToData(a))
  {
  }

  lemma LoadAndImportAgree(s: Session, found: Found, parsed: Option<ProjectData>, a: Snapshot, b: Snapshot, w: bool)
    requires s.Valid() && !s.isRestoring
    ensures Forget(s.Load(found, w)) == Forget(s).Load(found, w)
    ensures Forget(s.Import(parsed, a, b, w)) == Forget(s).Import(parsed, a, w)
  {
  }

  /** Here every edit is saved when the timer runs out: there is no flag to swallow it. */
  lemma EveryEditSaved(s: LegacySession, a: Snapshot)
    ensures s.Debounce().Tick(a, true) == LegacySession(false, Saved, s.store[StorageKey := Json(ToData(a))])
  {
  }

  /** The panels' headings read 1, 2, … in order. */
  predicate PanelsNumbered(ps: seq<PanelView>) {
    forall k :: 0 <= k < |ps| ==> ps[k].number == k + 1
  }

  /** The shots' number cells read 1, 2, … in order. */
  predicate ShotsNumbered(ss: seq<ShotView>) {
    forall k :: 0 <= k < |ss| ==> ss[k].number == k + 1
  }

  /** The panels with their headings renumbered by position. */
  function RenumberedPanels(ps: seq<PanelView>): (r: seq<PanelView>)
    ensures |r| == |ps| && PanelsNumbered(r)
    ensures forall k :: 0 <= k < |ps| ==> r[k].id == ps[k].id && r[k].image == ps[k].image && r[k].notes == ps[k].notes
  {
    seq(|ps|, k requires 0 <= k < |ps| => ps[k].(number := k + 1))
  }

  /** The shots with their number cells renumbered by position. */
  function RenumberedShots(ss: seq<ShotView>): (r: seq<ShotView>)
    ensures |r| == |ss| && ShotsNumbered(r)
    ensures forall k :: 0 <= k < |ss| ==> r[k] == ss[k].(number := k + 1)
  {
    seq(|ss|, k requires 0 <= k < |ss| => ss[k].(number := k + 1))
  }

  /**
   * Deleting panel `i` and saving gives the project saved before without
   * that panel, the later ones moved up one place and renumbered; the
   * headings shown play no part.
   */
  lemma DeletedPanelLeavesProject(vs: seq<PanelView>, i: nat, n: nat, m: nat)
    requires i < |vs| && forall k :: 0 <= k < |vs| ==> vs[k].id != ""
    ensures var before := CapturedPanels(vs, n);
            var after := CapturedPanels(RenumberedPanels(RemoveAt(vs, i)), m);
            |after| == |before| - 1 &&
            forall k :: 0 <= k < |after| ==>
              after[k] == before[if k < i then k else k + 1].(panelNum := k + 1)
  {
  }

  /** The same for deleting shot `i`. */
  lemma DeletedShotLeavesProject(vs: seq<ShotView>, i: nat, n: nat, m: nat)
    requires i < |vs| && forall k :: 0 <= k < |vs| ==> vs[k].id != ""
    ensures var before := CapturedShots(vs, n);
            var after := CapturedShots(RenumberedShots(RemoveAt(vs, i)), m);
            |after| == |before| - 1 &&
            forall k :: 0 <= k < |after| ==>
              after[k] == before[if k < i then k else k + 1].(shotNum := k + 1)
  {
  }

  /** The application of this version: the timer, the status, the store and the surface. */
  class LegacyApp {
    var saveTimeout: bool
    var status: Status
    var store: Store
    const surface: Surface

    function State(): LegacySession
      reads this
    {
      LegacySession(saveTimeout, status, store)
    }

    /** The surface content is what it was. */
    twostate predicate SameContent()
      reads this, surface
    {
      surface.script == old(surface.script) && surface.panels == old(surface.panels) && surface.shots == old(surface.shots)
    }

    constructor (store: Store)
      ensures State() == LegacySession(false, Idle, store) && fresh(surface)
    {
      saveTimeout, status := false, Idle;
      this.store := store;
      surface := new Surface();
    }

    /** `saveProjectData`; `writeOk` is whether the store accepts the write. */
    method SaveProjectData(writeOk: bool)
      modifies this, surface`nextId
      ensures SameContent() && surface.nextId == old(surface.nextId) + surface.Count()
      ensures State() == old(State()).Save(old(surface.Snap()), writeOk)
    {
      status := Saving;
      var projectData := surface.Capture();
      if !writeOk {
        status := Error;
        return;
      }
      store := store[StorageKey := Json(ToData(projectData))];
      status := Saved;
    }

    /** `debouncedSave`: status `saving` and the timer replaced. */
    method DebouncedSave()
      modifies this
      ensures State() == old(State()).Debounce()
    {
      status := Saving;
      saveTimeout := true;
    }

    /** The debounce timer runs out: the pending save, if any, runs. */
    method TimerFires(writeOk: bool)
      modifies this, surface`nextId
      ensures SameContent()
      ensures State() == old(State()).Tick(old(surface.Snap()), writeOk)
    {
      if saveTimeout {
        saveTimeout := false;
        SaveProjectData(writeOk);
      }
    }

    /** `loadProjectData`; `readOk` and `writeOk` are whether the store answers the read and accepts the write. */
    method LoadProjectData(readOk: bool, writeOk: bool)
      modifies this, surface
      ensures State() == old(State()).Load(Lookup(old(store), readOk), writeOk)
      ensures Lookup(old(store), readOk).Stored? ==> surface.Shows(Lookup(old(store), readOk).data, old(surface.nextId))
      ensures Lookup(old(store), readOk).Nothing? ==> surface.Shows(ToData(NewProject), old(surface.nextId))
      ensures Lookup(old(store), readOk).ReadFailed? || Lookup(old(store), readOk).Unparsable? ==>
                SameContent() && surface.nextId == old(surface.nextId)
    {
      var found := Lookup(store, readOk);
      match found
      case ReadFailed =>
        status := Error;
      case Unparsable =>
        status := Error;
      case Stored(data) =>
        surface.RenderProjectDataToDOM(data);
        status := Saved;
      case Nothing =>
        surface.RenderProjectDataToDOM(ToData(NewProject));
        assert surface.Snap() == NewProject;
        SaveProjectData(writeOk);
        status := Saved;
    }

    /** `importProject` once the chosen file is read; `parsed` is `None` when it does not parse or parses to `null`, and `Some(NoKeys)` for a number, a boolean, a string or an array. */
    method ImportProject(parsed: Option<ProjectData>, writeOk: bool)
      modifies this, surface
      ensures !Importable(parsed) ==> State() == old(State()).(status := Error) &&
                                      SameContent() && surface.nextId == old(surface.nextId)
      ensures Importable(parsed) ==>
                surface.Shows(parsed.value, old(surface.nextId)) &&
                State() == old(State()).Import(parsed, surface.SnapFrom(old(surface.nextId) + Items(parsed.value)), writeOk)
    {
      if Importable(parsed) {
        surface.RenderProjectDataToDOM(parsed.value);
        status := Imported;
        SaveProjectData(writeOk);
      } else {
        status := Error;
      }
    }

    /** `handleScriptKeydown`; `current` is the editor element holding the caret, if any. */
    method HandleScriptKeydown(key: Key, current: Option<nat>)
      requires current.Some? ==> current.value < |surface.script|
      modifies this, surface`script
      ensures var e := LegacyKeydown(old(surface.script), key, current);
              surface.script == e.script && State() == if e.save then old(State()).Debounce() else old(State())
    {
      if key == Enter {
        var nextClass := LegacyNextClass(ClassAt(surface.script, current));
        surface.script := InsertAfter(surface.script, current, Element(nextClass, ""));
        DebouncedSave();
      }
      if key == Tab {
        if current.Some? && Trim(surface.script[current.value].text) == "" {
          var currentClass := surface.script[current.value].className;
          surface.script := Retyped(surface.script, current.value, TabClass(LegacyElementTypes, currentClass));
          DebouncedSave();
        }
      }
    }

    /** The add-panel button: a new empty panel with a fresh id, headed one more than the panels on screen. */
    method AddStoryboardPanel()
      modifies this, surface`panels, surface`nextId
      ensures surface.panels == old(surface.panels) + [PanelView(FreshId(old(surface.nextId)), |old(surface.panels)| + 1, "", "")]
      ensures surface.nextId == old(surface.nextId) + 1
      ensures PanelsNumbered(old(surface.panels)) ==> PanelsNumbered(surface.panels)
      ensures State() == old(State()).Debounce()
    {
      var panelCount := |surface.panels| + 1;
      surface.panels := surface.panels + [PanelView(FreshId(surface.nextId), panelCount, "", "")];
      surface.nextId := surface.nextId + 1;
      DebouncedSave();
    }

    /** The add-shot button: a new empty row with a fresh id, numbered one more than the rows on screen. */
    method AddShot()
      modifies this, surface`shots, surface`nextId
      ensures surface.shots == old(surface.shots) + [ShotView(FreshId(old(surface.nextId)), |old(surface.shots)| + 1, "", "", "", "")]
      ensures surface.nextId == old(surface.nextId) + 1
      ensures ShotsNumbered(old(surface.shots)) ==> ShotsNumbered(surface.shots)
      ensures State() == old(State()).Debounce()
    {
      var shotCount := |surface.shots| + 1;
      surface.shots := surface.shots + [ShotView(FreshId(surface.nextId), shotCount, "", "", "", "")];
      surface.nextId := surface.nextId + 1;
      DebouncedSave();
    }

    /** A panel's delete button: the panel goes and every remaining heading is rewritten by position. */
    method DeletePanel(i: nat)
      requires i < |surface.panels|
      modifies this, surface`panels
      ensures surface.panels == RenumberedPanels(RemoveAt(old(surface.panels), i))
      ensures State() == old(State()).Debounce()
    {
      surface.panels := RemoveAt(surface.panels, i);
      ghost var remaining := surface.panels;
      var index := 0;
      while index < |surface.panels|
        invariant 0 <= index <= |surface.panels| == |remaining|
        invariant State() == old(State())
        invariant forall k :: 0 <= k < index ==> surface.panels[k] == remaining[k].(number := k + 1)
        invariant forall k :: index <= k < |remaining| ==> surface.panels[k] == remaining[k]
      {
        surface.panels := surface.panels[index := surface.panels[index].(number := index + 1)];
        index := index + 1;
      }
      DebouncedSave();
    }

    /** A shot's delete button: the row goes and every remaining number cell is rewritten by position. */
    method DeleteShot(i: nat)
      requires i < |surface.shots|
      modifies this, surface`shots
      ensures surface.shots == RenumberedShots(RemoveAt(old(surface.shots), i))
      ensures State() == old(State()).Debounce()
    {
      surface.shots := RemoveAt(surface.shots, i);
      ghost var remaining := surface.shots;
      var index := 0;
      while index < |surface.shots|
        invariant 0 <= index <= |surface.shots| == |remaining|
        invariant State() == old(State())
        invariant forall k :: 0 <= k < index ==> surface.shots[k] == remaining[k].(number := k + 1)
        invariant forall k :: index <= k < |remaining| ==> surface.shots[k] == remaining[k]
      {
        surface.shots := surface.shots[index := surface.shots[index].(number := index + 1)];
        index := index + 1;
      }
      DebouncedSave();
    }
  }
}
