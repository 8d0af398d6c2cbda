/**
 * Save and restore coordination of the editor: the debounced autosave, the
 * `isRestoring` flag raised by undo and redo, the store, the save status and
 * the history, as one state machine.
 *
 * `Session` is the value-level machine. `App` holds the same state in fields,
 * owns the surface and the history stack, and each of its methods is proved to
 * follow the corresponding `Session` function. The pending timer is a slot
 * (`pending`) and its expiry an explicit `Tick`; the store's read and write
 * outcomes are parameters.
 */
module Session {
  import opened Text
  import opened Document
  import opened History
  import opened Render

  /** The save status shown in the header. */
  datatype Status = Idle | Saving | Saved | Imported | Error | Offline

  /** The key the project is stored under. */
  const StorageKey := "mini-production-toolkit-project"

  /**
   * What the store holds under a key: an empty string, text that parses, or
   * text on which the load throws (unparsable text, or `null`, whose keys
   * cannot be read). Text that parses to anything else is `Json` of the keys
   * it has: a number, a boolean, a string or an array has none of the three
   * (`NoKeys`).
   */
  datatype StoredText = Blank | Json(data: ProjectData) | Malformed

  /** The project value of parsed text that is not an object: every key reads as absent. */
  const NoKeys := ProjectData(None, None, None)

  type Store = map<string, StoredText>

  /** The project created when nothing is stored. */
  const NewScript := [Element(SceneHeading, "INT. NEW PROJECT - DAY"), Element(Action, "Start writing here...")]
  const NewProject := Snapshot(NewScript, [], [])

  /** What a load finds under the key. */
  datatype Found = ReadFailed | Stored(data: ProjectData) | Unparsable | Nothing

  /** The first step of `loadProjectData`: read the key; an absent key and an empty string are both "nothing stored". */
  function Lookup(store: Store, readOk: bool): (r: Found)
    ensures r.ReadFailed? <==> !readOk
    ensures r.Stored? <==> readOk && StorageKey in store && store[StorageKey].Json?
    ensures r.Stored? ==> store[StorageKey] == Json(r.data)
    ensures r.Nothing? <==> readOk && (StorageKey !in store || store[StorageKey] == Blank)
  {
    if !readOk then ReadFailed
    else if StorageKey !in store then Nothing
    else match store[StorageKey]
      case Blank => Nothing
      case Json(d) => Stored(d)
      case Malformed => Unparsable
  }

  /** The acceptance test of `importProject`: a parsed object that has a `scriptContent` key, even an empty one. */
  predicate Importable(parsed: Option<ProjectData>) {
    parsed.Some? && parsed.value.scriptContent.Some?
  }

  datatype Session = Session(isRestoring: bool, pending: bool, status: Status, store: Store, timeline: Timeline) {

    ghost predicate Valid() {
      timeline.Valid()
    }

    /**
     * `saveProjectData`. `stored` is the snapshot captured for the store and
     * `pushed` the one `pushState` captures after it; they differ only in the
     * ids drawn for items that have none.
     */
    function Save(stored: Snapshot, pushed: Snapshot, writeOk: bool): (s: Session)
      requires Valid()
      ensures s.Valid() && !s.isRestoring && s.pending == pending
      ensures isRestoring ==> s.status == status && s.store == store && s.timeline == timeline
      ensures !isRestoring && !writeOk ==> s.status == Error && s.store == store && s.timeline == timeline
      ensures !isRestoring && writeOk ==>
                s.status == Saved && s.store == store[StorageKey := Json(ToData(stored))] &&
                s.timeline == timeline.Push(pushed)
    {
      if isRestoring then this.(isRestoring := false)
      else if !writeOk then this.(status := Error)
      else this.(status := Saved, store := store[StorageKey := Json(ToData(stored))], timeline := timeline.Push(pushed))
    }

    /** `debouncedSave`: status `saving` and a (re)armed timer. */
    function Debounce(): (s: Session)
      ensures s.pending && s.status == Saving
      ensures s.isRestoring == isRestoring && s.store == store && s.timeline == timeline
    {
      this.(status := Saving, pending := true)
    }

    /** The debounce timer runs out, if one is armed, and the save runs. */
    function Tick(stored: Snapshot, pushed: Snapshot, writeOk: bool): (s: Session)
      requires Valid()
      ensures s.Valid() && !s.pending
      ensures !pending ==> s == this
    {
      if pending then this.(pending := false).Save(stored, pushed, writeOk) else this
    }

    /** `undo`: the cursor steps back and the flag is raised, when there is an earlier entry. */
    function Undo(): (s: Session)
      requires Valid()
      ensures s.Valid() && s.timeline == timeline.Undo()
      ensures s.isRestoring == (isRestoring || timeline.CanUndo())
      ensures s.pending == pending && s.status == status && s.store == store
    {
      this.(isRestoring := isRestoring || timeline.CanUndo(), timeline := timeline.Undo())
    }

    /** `redo`: the cursor steps forward and the flag is raised, when there is a later entry. */
    function Redo(): (s: Session)
      requires Valid()
      ensures s.Valid() && s.timeline == timeline.Redo()
      ensures s.isRestoring == (isRestoring || timeline.CanRedo())
      ensures s.pending == pending && s.status == status && s.store == store
    {
      this.(isRestoring := isRestoring || timeline.CanRedo(), timeline := timeline.Redo())
    }

    /**
     * `loadProjectData` after the lookup: a failed read or unparsable text
     * ends in `error`; stored data is restored without a write; when nothing
     * is stored the new project is restored and saved at once. The status is
     * `saved` in both latter cases, even when that save failed, because the
     * save reports its own failure and the load then overwrites the status.
     */
    function Load(found: Found, writeOk: bool): (s: Session)
      requires Valid()
      ensures s.Valid() && s.pending == pending
      ensures found.ReadFailed? || found.Unparsable? ==> s == this.(status := Error)
      ensures found.Stored? ==> s == this.(status := Saved)
      ensures found.Nothing? ==> s.status == Saved && s == Save(NewProject, NewProject, writeOk).(status := Saved)
    {
      match found
      case ReadFailed => this.(status := Error)
      case Unparsable => this.(status := Error)
      case Stored(_) => this.(status := Saved)
      case Nothing => Save(NewProject, NewProject, writeOk).(status := Saved)
    }

    /** `importProject` once the file is parsed: an accepted project is restored, marked `imported` and saved. */
    function Import(parsed: Option<ProjectData>, stored: Snapshot, pushed: Snapshot, writeOk: bool): (s: Session)
      requires Valid()
      ensures s.Valid() && s.pending == pending
      ensures !Importable(parsed) ==> s == this.(status := Error)
      ensures Importable(parsed) ==> s == this.(status := Imported).Save(stored, pushed, writeOk)
    {
      if Importable(parsed) then this.(status := Imported).Save(stored, pushed, writeOk) else this.(status := Error)
    }
  }

  /** The state at start-up: no flag, no timer, empty history. */
  const Initial := Session(false, false, Idle, map[], Empty)

  /**
   * Arming the debounce timer several times before it runs out leaves one
   * pending save: two edits in quick succession and two expiries save once.
   */
  lemma DebounceCoalesces(s: Session, a: Snapshot, b: Snapshot, a': Snapshot, b': Snapshot, w: bool, w': bool)
    requires s.Valid()
    ensures s.Debounce().Debounce() == s.Debounce()
    ensures s.Debounce().Debounce().Tick(a, b, w).Tick(a', b', w') == s.Debounce().Tick(a, b, w)
  {
  }

  /** A successful save writes the captured project under the key and records it as the newest history entry. */
  lemma SaveRecords(s: Session, a: Snapshot, b: Snapshot)
    requires s.Valid() && !s.isRestoring
    ensures var t := s.Save(a, b, true);
            t.store[StorageKey] == Json(ToData(a)) &&
            t.timeline.entries[t.timeline.cursor] == b && !t.timeline.CanRedo()
  {
  }

  /**
   * After an undo, the next edit's save is swallowed by the flag: the store
   * still holds the newest state, the cursor stays on the restored entry, the
   * redo branch survives, and the status stays `saving`.
   */
  lemma EditAfterUndoIsSwallowed(s: Session, a: Snapshot, b: Snapshot, w: bool)
    requires s.Valid() && s.timeline.CanUndo() && !s.isRestoring
    ensures var u := s.Undo().Debounce().Tick(a, b, w);
            u.store == s.store && u.timeline == s.timeline.Undo() && u.timeline.CanRedo() &&
            u.status == Saving && !u.isRestoring && !u.pending
  {
    assert s.timeline.Undo().CanRedo();
  }

  /**
   * The edit after that is saved, and when it changes the restored entry it
   * discards the redo branch.
   */
  lemma SecondEditAfterUndoPrunes(s: Session, a: Snapshot, b: Snapshot, w: bool, a2: Snapshot, b2: Snapshot)
    requires s.Valid() && s.timeline.CanUndo() && !s.isRestoring
    requires b2 != s.timeline.entries[s.timeline.cursor - 1]
    ensures var u := s.Undo().Debounce().Tick(a, b, w).Debounce().Tick(a2, b2, true);
            u.store == s.store[StorageKey := Json(ToData(a2))] && u.status == Saved &&
            u.timeline.entries == s.timeline.entries[..s.timeline.cursor] + [b2] && !u.timeline.CanRedo()
  {
    EditAfterUndoIsSwallowed(s, a, b, w);
    var t := s.timeline.Undo();
    PushFresh(t, b2);
  }

  /** An import right after an undo is restored but neither stored nor recorded, and the status stays `imported`. */
  lemma ImportAfterUndoNotSaved(s: Session, d: ProjectData, a: Snapshot, b: Snapshot, w: bool)
    requires s.Valid() && s.timeline.CanUndo() && d.scriptContent.Some?
    ensures var u := s.Undo().Import(Some(d), a, b, w);
            u.status == Imported && u.store == s.store && u.timeline == s.timeline.Undo()
  {
  }

  /** A rejected import changes nothing but the status, whatever the flag, the timer or the write outcome. */
  lemma RejectedImportChangesNothing(s: Session, parsed: Option<ProjectData>, a: Snapshot, b: Snapshot, w: bool)
    requires s.Valid() && !Importable(parsed)
    ensures var u := s.Import(parsed, a, b, w);
            u.status == Error && u.store == s.store && u.timeline == s.timeline &&
            u.isRestoring == s.isRestoring && u.pending == s.pending
  {
  }

  /**
   * First launch: nothing stored, the new project is saved during the load,
   * and the seeding push of the history finds it already recorded. One entry,
   * no undo, the store holds the new project.
   */
  lemma FirstLaunch(readOk: bool)
    requires readOk
    ensures var s := Initial.Load(Lookup(Initial.store, readOk), true);
            s.status == Saved && s.store == map[StorageKey := Json(ToData(NewProject))] &&
            s.timeline == Timeline([NewProject], 0) &&
            s.timeline.Push(NewProject) == s.timeline && !s.timeline.CanUndo()
  {
    assert Lookup(Initial.store, readOk) == Nothing;
    assert Empty.Push(NewProject) == Timeline([NewProject], 0);
  }

  /**
   * First launch with a failing write: the status still ends `saved`, nothing
   * is stored and the history stays empty until it is seeded.
   */
  lemma FirstLaunchWriteFails()
    ensures var s := Initial.Load(Lookup(Initial.store, true), false);
            s.status == Saved && s.store == map[] && s.timeline == Empty
  {
    assert Lookup(Initial.store, true) == Nothing;
  }

  /**
   * Stored text that parses to a value other than an object (`42`, `true`)
   * is restored as the default script with no panels or shots, and the load
   * ends `saved` without writing.
   */
  lemma StoredPrimitiveRestoresDefault(s: Session, store: Store, w: bool)
    requires s.Valid() && StorageKey in store && store[StorageKey] == Json(NoKeys)
    ensures var found := Lookup(store, true);
            found == Stored(NoKeys) &&
            RestoredScript(found.data.scriptContent) == DefaultScript && Items(found.data) == 0 &&
            s.Load(found, w) == s.(status := Saved)
  {
  }

  /** A keyboard shortcut of the history: which of the two handlers run. */
  datatype Shortcut = Shortcut(undo: bool, redo: bool)

  /** The keydown listener of `initializeHistory`: Ctrl+Z undoes, Ctrl+Y and Ctrl+Shift+Z redo, letters in either case. */
  function ShortcutOf(ctrl: bool, shift: bool, key: string): (r: Shortcut)
    ensures !(r.undo && r.redo)
    ensures !ctrl ==> !r.undo && !r.redo
    ensures r.undo ==> !shift
    ensures r.undo <==> ctrl && !shift && (key == "z" || key == "Z")
    ensures r.redo <==> ctrl && (key == "y" || key == "Y" || (shift && (key == "z" || key == "Z")))
  {
    var k := ToLower(key);
    LowerOneLetter(key, 'z', 'Z');
    LowerOneLetter(key, 'y', 'Y');
    Shortcut(ctrl && !shift && k == "z", ctrl && (k == "y" || (shift && k == "z")))
  }

  /** A key lower-cases to a one-letter string exactly when it is that letter in either case. */
  lemma LowerOneLetter(key: string, lower: char, upper: char)
    requires 'a' <= lower <= 'z' && upper as int == lower as int - 32
    ensures ToLower(key) == [lower] <==> key == [lower] || key == [upper]
  {
    if ToLower(key) == [lower] {
      assert |key| == 1 && LowerChar(key[0]) == lower;
      assert key == [key[0]];
    }
    if key == [upper] {
      assert ToLower(key)[0] == lower;
    }
    if key == [lower] {
      assert ToLower(key)[0] == lower;
    }
  }

  /** The three shortcuts, in both letter cases and with or without Shift where Shift does not matter. */
  lemma Shortcuts()
    ensures ShortcutOf(true, false, "z") == Shortcut(true, false) && ShortcutOf(true, false, "Z") == Shortcut(true, false)
    ensures ShortcutOf(true, false, "y") == Shortcut(false, true) && ShortcutOf(true, false, "Y") == Shortcut(false, true)
    ensures ShortcutOf(true, true, "y") == Shortcut(false, true) && ShortcutOf(true, true, "Y") == Shortcut(false, true)
    ensures ShortcutOf(true, true, "Z") == Shortcut(false, true) && ShortcutOf(true, true, "z") == Shortcut(false, true)
    ensures ShortcutOf(false, false, "z") == Shortcut(false, false)
  {
  }

  /** The editor application of the module version: shared state, the surface and the history. */
  class App {
    var isRestoring: bool
    var saveTimeout: bool
    var status: Status
    var store: Store
    const surface: Surface
    const history: HistoryStack

    function State(): Session
      reads this, history
    {
      Session(isRestoring, saveTimeout, status, store, history.State())
    }

    ghost predicate Valid()
      reads this, history
    {
      history.Valid()
    }

    /** The surface content is what it was. */
    twostate predicate SameContent()
      reads this, surface
    {
      surface.script == old(surface.script) && surface.panels == old(surface.panels) && surface.shots == old(surface.shots)
    }

    /**
     * The session is `before.Save(…)` with the two snapshots captured from the
     * current content with ids drawn from `n` on, and the id supply advanced
     * by what those captures drew: nothing when the save is swallowed, one
     * capture when the write fails, two otherwise.
     */
    ghost predicate SavedFrom(before: Session, n: nat, writeOk: bool)
      reads this, surface, history
      requires before.Valid()
    {
      State() == before.Save(surface.SnapFrom(n), surface.SnapFrom(n + surface.Count()), writeOk) &&
      surface.nextId == n + (if before.isRestoring then 0 else if writeOk then 2 * surface.Count() else surface.Count())
    }

    constructor (store: Store)
      ensures Valid() && State() == Initial.(store := store)
      ensures fresh(surface) && fresh(history)
    {
      isRestoring, saveTimeout, status := false, false, Idle;
      this.store := store;
      surface := new Surface();
      history := new HistoryStack();
    }

    /** `pushState`: capture the surface and push the capture. */
    method PushState()
      requires Valid()
      modifies surface`nextId, history
      ensures Valid() && SameContent()
      ensures State() == old(State()).(timeline := old(history.State()).Push(old(surface.Snap())))
      ensures surface.nextId == old(surface.nextId) + surface.Count()
    {
      var current := surface.Capture();
      history.Push(current);
    }

    /** `saveProjectData`; `writeOk` is whether the store accepts the write. */
    method SaveProjectData(writeOk: bool)
      requires Valid()
      modifies this, surface`nextId, history
      ensures Valid() && SameContent()
      ensures SavedFrom(old(State()), old(surface.nextId), writeOk)
    {
      if isRestoring {
        isRestoring := false;
        return;
      }
      status := Saving;
      var projectData := surface.Capture();
      if !writeOk {
        status := Error;
        return;
      }
      Record(projectData);
    }

    /** The successful branch of `saveProjectData`: write the capture, mark `saved`, push. */
    method Record(projectData: Snapshot)
      requires Valid()
      modifies this, surface`nextId, history
      ensures Valid() && SameContent()
      ensures isRestoring == old(isRestoring) && saveTimeout == old(saveTimeout)
      ensures status == Saved && store == old(store)[StorageKey := Json(ToData(projectData))]
      ensures history.State() == old(history.State()).Push(old(surface.Snap()))
      ensures surface.nextId == old(surface.nextId) + surface.Count()
    {
      store := store[StorageKey := Json(ToData(projectData))];
      status := Saved;
      PushState();
    }

    /** `debouncedSave`: status `saving` and the timer replaced. */
    method DebouncedSave()
      modifies this
      ensures State() == old(State()).Debounce()
    {
      status := Saving;
      saveTimeout := true;
    }

    /** The debounce timer runs out: the pending save, if any, runs. */
    method TimerFires(writeOk: bool)
      requires Valid()
      modifies this, surface`nextId, history
      ensures Valid() && SameContent()
      ensures !old(saveTimeout) ==> State() == old(State()) && surface.nextId == old(surface.nextId)
      ensures old(saveTimeout) ==> SavedFrom(old(State()).(pending := false), old(surface.nextId), writeOk)
    {
      if saveTimeout {
        saveTimeout := false;
        SaveProjectData(writeOk);
      }
    }

    /** `undo`: step back, raise the flag and restore the entry. */
    method Undo()
      requires Valid()
      modifies this, surface, history
      ensures Valid() && State() == old(State()).Undo()
      ensures old(history.State().CanUndo()) ==>
                surface.Shows(ToData(history.history[history.historyIndex]), old(surface.nextId))
      ensures !old(history.State().CanUndo()) ==> SameContent() && surface.nextId == old(surface.nextId)
    {
      var restore := history.Undo();
      if restore.Some? {
        isRestoring := true;
        surface.RenderProjectDataToDOM(ToData(restore.value));
      }
    }

    /** `redo`: step forward, raise the flag and restore the entry. */
    method Redo()
      requires Valid()
      modifies this, surface, history
      ensures Valid() && State() == old(State()).Redo()
      ensures old(history.State().CanRedo()) ==>
                surface.Shows(ToData(history.history[history.historyIndex]), old(surface.nextId))
      ensures !old(history.State().CanRedo()) ==> SameContent() && surface.nextId == old(surface.nextId)
    {
      var restore := history.Redo();
      if restore.Some? {
        isRestoring := true;
        surface.RenderProjectDataToDOM(ToData(restore.value));
      }
    }

    /** The keydown listener of `initializeHistory`. */
    method HistoryKeydown(ctrl: bool, shift: bool, key: string)
      requires Valid()
      modifies this, surface, history
      ensures Valid()
      ensures var k := ShortcutOf(ctrl, shift, key);
              State() == if k.undo then old(State()).Undo() else if k.redo then old(State()).Redo() else old(State())
      ensures var k := ShortcutOf(ctrl, shift, key);
              var moved := (k.undo && old(history.State().CanUndo())) || (k.redo && old(history.State().CanRedo()));
              (moved ==> surface.Shows(ToData(history.history[history.historyIndex]), old(surface.nextId))) &&
              (!moved ==> SameContent() && surface.nextId == old(surface.nextId))
    {
      var k := ShortcutOf(ctrl, shift, key);
      if k.undo {
        Undo();
      }
      if k.redo {
        Redo();
      }
    }

    /** The seeding push of `initializeHistory`, once its timer runs out. */
    method InitializeHistory()
      requires Valid()
      modifies surface`nextId, history
      ensures Valid() && SameContent()
      ensures State() == old(State()).(timeline := old(history.State()).Push(old(surface.Snap())))
    {
      PushState();
    }

    /** `loadProjectData`; `readOk` and `writeOk` are whether the store answers the read and accepts the write. */
    method LoadProjectData(readOk: bool, writeOk: bool)
      requires Valid()
      modifies this, surface, history
      ensures Valid()
      ensures State() == old(State()).Load(Lookup(old(store), readOk), writeOk)
      ensures Lookup(old(store), readOk).Stored? ==> surface.Shows(Lookup(old(store), readOk).data, old(surface.nextId))
      ensures Lookup(old(store), readOk).Nothing? ==> surface.Shows(ToData(NewProject), old(surface.nextId))
      ensures Lookup(old(store), readOk).ReadFailed? || Lookup(old(store), readOk).Unparsable? ==>
                SameContent() && surface.nextId == old(surface.nextId)
    {
      var found := Lookup(store, readOk);
      match found
      case ReadFailed =>
        status := Error;
      case Unparsable =>
        status := Error;
      case Stored(data) =>
        surface.RenderProjectDataToDOM(data);
        status := Saved;
      case Nothing =>
        surface.RenderProjectDataToDOM(ToData(NewProject));
        ghost var n := surface.nextId;
        assert surface.SnapFrom(n) == NewProject;
        SaveProjectData(writeOk);
        status := Saved;
    }

    /**
     * `importProject` once the chosen file is read; `parsed` is the parsed
     * text, `None` when it does not parse or parses to `null`; text that
     * parses to a number, a boolean, a string or an array is `Some(NoKeys)`,
     * which has no `scriptContent` key and so is refused.
     */
    method ImportProject(parsed: Option<ProjectData>, writeOk: bool)
      requires Valid()
      modifies this, surface, history
      ensures Valid()
      ensures !Importable(parsed) ==> State() == old(State()).Import(parsed, NewProject, NewProject, writeOk) &&
                                      SameContent() && surface.nextId == old(surface.nextId)
      ensures Importable(parsed) ==>
                surface.Shows(parsed.value, old(surface.nextId)) &&
                SavedFrom(old(State()).(status := Imported), old(surface.nextId) + Items(parsed.value), writeOk)
    {
      if Importable(parsed) {
        surface.RenderProjectDataToDOM(parsed.value);
        status := Imported;
        SaveProjectData(writeOk);
      } else {
        status := Error;
      }
    }
  }

  /** With every item carrying an id, both captures of a save answer the snapshot on screen. */
  lemma SaveOnScreen(app: App, before: Session, n: nat, writeOk: bool)
    requires before.Valid() && app.surface.IdsPresent() && app.SavedFrom(before, n, writeOk)
    ensures app.State() == before.Save(app.surface.Snap(), app.surface.Snap(), writeOk)
  {
    var sf := app.surface;
    CaptureIgnoresSupply(sf.script, sf.panels, sf.shots, n, sf.nextId);
    CaptureIgnoresSupply(sf.script, sf.panels, sf.shots, n + sf.Count(), sf.nextId);
  }
}
