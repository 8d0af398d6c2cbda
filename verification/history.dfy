/**
 * The undo/redo history: a bounded linear stack of snapshots and a cursor
 * designating the entry the editing surface reflects.
 *
 * `Timeline` is the value-level specification; `HistoryStack` is the
 * module-level state (`history`, `historyIndex`) updated in place, and each of
 * its methods is proved to follow the corresponding `Timeline` function.
 */
module History {
  import opened Document

  /** The number of entries kept; the oldest one is dropped beyond it. */
  const MaxEntries := 50

  datatype Timeline = Timeline(entries: seq<Snapshot>, cursor: int) {

    /** The cursor is -1 exactly when the stack is empty, otherwise an index of it; the stack is bounded. */
    ghost predicate Valid() {
      -1 <= cursor < |entries| &&
      (cursor == -1 <==> entries == []) &&
      |entries| <= MaxEntries
    }

    /** The undo button is enabled. */
    predicate CanUndo() {
      cursor > 0
    }

    /** The redo button is enabled. */
    predicate CanRedo() {
      cursor < |entries| - 1
    }

    /** The redo branch (everything after the cursor) discarded. */
    function Truncated(): (t: Timeline)
      requires Valid()
      ensures t.Valid() && t.cursor == cursor && !t.CanRedo()
      ensures t.entries == entries[..cursor + 1]
    {
      if cursor < |entries| - 1 then Timeline(entries[..cursor + 1], cursor) else this
    }

    /**
     * `pushState` applied to snapshot `s`: prune the redo branch, then skip a
     * snapshot equal to the current entry, otherwise append it, point the
     * cursor at it and drop the oldest entry beyond `MaxEntries`.
     */
    function Push(s: Snapshot): (t: Timeline)
      requires Valid()
      ensures t.Valid()
      ensures t.entries != [] && t.cursor == |t.entries| - 1 && t.entries[t.cursor] == s
    {
      var u := Truncated();
      if u.cursor > -1 && u.entries[u.cursor] == s then u
      else
        var e := u.entries + [s];
        if |e| > MaxEntries then Timeline(e[1..], |e| - 2) else Timeline(e, |e| - 1)
    }

    /** `undo`: one step back when there is an earlier entry. */
    function Undo(): (t: Timeline)
      requires Valid()
      ensures t.Valid() && t.entries == entries
      ensures CanUndo() ==> t.cursor == cursor - 1
      ensures !CanUndo() ==> t == this
    {
      if cursor > 0 then Timeline(entries, cursor - 1) else this
    }

    /** `redo`: one step forward when there is a later entry. */
    function Redo(): (t: Timeline)
      requires Valid()
      ensures t.Valid() && t.entries == entries
      ensures CanRedo() ==> t.cursor == cursor + 1
      ensures !CanRedo() ==> t == this
    {
      if cursor < |entries| - 1 then Timeline(entries, cursor + 1) else this
    }
  }

  const Empty := Timeline([], -1)

  /** A push of the current entry only prunes the redo branch, even though it is otherwise skipped. */
  lemma PushDuplicate(t: Timeline, s: Snapshot)
    requires t.Valid() && t.cursor >= 0 && t.entries[t.cursor] == s
    ensures t.Push(s) == Timeline(t.entries[..t.cursor + 1], t.cursor)
    ensures t.CanRedo() ==> |t.Push(s).entries| < |t.entries|
  {
  }

  /** A push of a new snapshot keeps everything up to the cursor, appends the snapshot and keeps at most `MaxEntries`. */
  lemma PushFresh(t: Timeline, s: Snapshot)
    requires t.Valid() && (t.cursor == -1 || t.entries[t.cursor] != s)
    ensures var kept := t.entries[..t.cursor + 1] + [s];
            t.Push(s).entries == if |kept| > MaxEntries then kept[1..] else kept
  {
  }

  /** Pushing the same snapshot twice in a row is the same as pushing it once. */
  lemma PushIdempotent(t: Timeline, s: Snapshot)
    requires t.Valid()
    ensures t.Push(s).Push(s) == t.Push(s)
  {
  }

  /** Undo then redo returns to the same position, and so does redo then undo. */
  lemma UndoRedoInverse(t: Timeline)
    requires t.Valid()
    ensures t.CanUndo() ==> t.Undo().Redo() == t
    ensures t.CanRedo() ==> t.Redo().Undo() == t
  {
  }

  /**
   * Three recorded states, two undos, then a new edit: the redo branch is
   * gone, the new state follows the first one and redo is disabled.
   */
  lemma PruneAfterUndo(a: Snapshot, b: Snapshot, c: Snapshot, d: Snapshot)
    requires a != b && b != c && a != d
    ensures var t := Empty.Push(a).Push(b).Push(c);
            t == Timeline([a, b, c], 2) &&
            t.Undo().Undo().Push(d) == Timeline([a, d], 1) &&
            !t.Undo().Undo().Push(d).CanRedo()
  {
    assert Empty.Push(a) == Timeline([a], 0);
    assert Empty.Push(a).Push(b) == Timeline([a, b], 1);
  }

  /** The result of pushing each snapshot of `ss` in turn. */
  function PushAll(t: Timeline, ss: seq<Snapshot>): (r: Timeline)
    requires t.Valid()
    ensures r.Valid()
    decreases |ss|
  {
    if ss == [] then t else PushAll(t.Push(ss[0]), ss[1..])
  }

  /** No snapshot of `ss` equals the one after it. */
  predicate ChangesEachTime(ss: seq<Snapshot>) {
    forall i :: 0 <= i < |ss| - 1 ==> ss[i] != ss[i + 1]
  }

  /** The last `n` items of `s` (all of them when there are fewer). */
  function LastN(s: seq<Snapshot>, n: nat): (r: seq<Snapshot>)
    ensures |r| == if |s| < n then |s| else n
  {
    if |s| <= n then s else s[|s| - n..]
  }

  /**
   * Recording a run of snapshots from the tip, each different from the one
   * before, keeps exactly the last `MaxEntries` of them with the cursor on the
   * newest.
   */
  lemma {:induction false} PushAllKeepsLast(t: Timeline, ss: seq<Snapshot>)
    requires t.Valid() && t.cursor == |t.entries| - 1
    requires ChangesEachTime(ss)
    requires t.entries != [] && ss != [] ==> t.entries[t.cursor] != ss[0]
    ensures PushAll(t, ss).entries == LastN(t.entries + ss, MaxEntries)
    ensures PushAll(t, ss).cursor == |PushAll(t, ss).entries| - 1
    decreases |ss|
  {
    if ss == [] {
      assert t.entries + ss == t.entries;
    } else {
      var u := t.Push(ss[0]);
      assert t.entries[..t.cursor + 1] == t.entries;
      PushFresh(t, ss[0]);
      assert u.entries == LastN(t.entries + [ss[0]], MaxEntries);
      assert ChangesEachTime(ss[1..]) by {
        forall i | 0 <= i < |ss[1..]| - 1 ensures ss[1..][i] != ss[1..][i + 1] {
          assert ss[1..][i] == ss[i + 1] && ss[1..][i + 1] == ss[i + 2];
        }
      }
      if |ss| > 1 {
        assert u.entries[u.cursor] == ss[0] && ss[0] != ss[1];
      }
      PushAllKeepsLast(u, ss[1..]);
      LastNAppend(t.entries + [ss[0]], ss[1..]);
      assert t.entries + [ss[0]] + ss[1..] == t.entries + ss;
    }
  }

  /** Taking the last `MaxEntries` before appending more changes nothing in the end. */
  lemma LastNAppend(a: seq<Snapshot>, b: seq<Snapshot>)
    ensures LastN(LastN(a, MaxEntries) + b, MaxEntries) == LastN(a + b, MaxEntries)
  {
    if |a| > MaxEntries {
      var a' := a[|a| - MaxEntries..];
      assert a + b == a[..|a| - MaxEntries] + (a' + b);
      assert (a + b)[|a + b| - MaxEntries..] == (a' + b)[|a' + b| - MaxEntries..];
    }
  }

  /**
   * Sixty distinct snapshots recorded on an empty history leave fifty entries,
   * the oldest being the eleventh snapshot recorded.
   */
  lemma BoundedGrowth(ss: seq<Snapshot>)
    requires |ss| == 60 && ChangesEachTime(ss)
    ensures |PushAll(Empty, ss).entries| == MaxEntries
    ensures PushAll(Empty, ss).entries[0] == ss[10]
    ensures PushAll(Empty, ss).cursor == MaxEntries - 1
  {
    PushAllKeepsLast(Empty, ss);
    assert Empty.entries + ss == ss;
  }

  /** The history as the module-level array and index that the editor updates in place. */
  class HistoryStack {
    var history: seq<Snapshot>
    var historyIndex: int

    function State(): Timeline
      reads this
    {
      Timeline(history, historyIndex)
    }

    ghost predicate Valid()
      reads this
    {
      State().Valid()
    }

    constructor ()
      ensures Valid() && State() == Empty
    {
      history := [];
      historyIndex := -1;
    }

    /** The stack part of `pushState`, given the snapshot just captured. */
    method Push(s: Snapshot)
      requires Valid()
      modifies this
      ensures Valid() && State() == old(State()).Push(s)
    {
      if historyIndex < |history| - 1 {
        history := history[..historyIndex + 1];
      }
      if historyIndex > -1 && history[historyIndex] == s {
        return;
      }
      history := history + [s];
      historyIndex := |history| - 1;
      if |history| > MaxEntries {
        history := history[1..];
        historyIndex := historyIndex - 1;
      }
    }

    /** The stack part of `undo`; answers the snapshot to restore, if any. */
    method Undo() returns (restore: Option<Snapshot>)
      requires Valid()
      modifies this
      ensures Valid() && State() == old(State()).Undo()
      ensures restore.Some? <==> old(State()).CanUndo()
      ensures restore.Some? ==> restore.value == history[historyIndex]
    {
      restore := None;
      if historyIndex > 0 {
        historyIndex := historyIndex - 1;
        restore := Some(history[historyIndex]);
      }
    }

    /** The stack part of `redo`; answers the snapshot to restore, if any. */
    method Redo() returns (restore: Option<Snapshot>)
      requires Valid()
      modifies this
      ensures Valid() && State() == old(State()).Redo()
      ensures restore.Some? <==> old(State()).CanRedo()
      ensures restore.Some? ==> restore.value == history[historyIndex]
    {
      restore := None;
      if historyIndex < |history| - 1 {
        historyIndex := historyIndex + 1;
        restore := Some(history[historyIndex]);
      }
    }

    /** The button states of `updateButtonStates`: each is enabled exactly when its action would move the cursor. */
    method ButtonStates() returns (canUndo: bool, canRedo: bool)
      requires Valid()
      ensures canUndo <==> State().Undo() != State()
      ensures canRedo <==> State().Redo() != State()
    {
      canUndo := historyIndex > 0;
      canRedo := historyIndex < |history| - 1;
    }
  }
}
