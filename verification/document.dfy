/**
 * The project document: the values that capture produces, that the history
 * keeps and that the store holds. The script body's markup is modelled by the
 * sequence of its top-level elements, each a class attribute and a text.
 */
module Document {
  import opened Text

  datatype Option<+T> = None | Some(value: T)

  function GetOr<T>(o: Option<T>, default: T): T {
    match o
    case Some(v) => v
    case None => default
  }

  /** A top-level element of the script editor. */
  datatype Element = Element(className: string, text: string)

  /** A storyboard panel of a snapshot; an empty `id` is an absent one (`||` treats both alike). */
  datatype Panel = Panel(id: string, panelNum: int, imageDataURL: string, notes: string)

  /** A row of the shot list; an empty `id` is an absent one. */
  datatype Shot = Shot(id: string, shotNum: int, sceneNum: string, shotType: string,
                       description: string, notes: string)

  /** A snapshot as capture produces it, with all three keys present. */
  datatype Snapshot = Snapshot(scriptContent: seq<Element>, storyboardPanels: seq<Panel>, shotList: seq<Shot>)

  /** A project value parsed from the store or from an imported file: any key may be absent. */
  datatype ProjectData = ProjectData(scriptContent: Option<seq<Element>>,
                                     storyboardPanels: Option<seq<Panel>>,
                                     shotList: Option<seq<Shot>>)

  /** Serialising a snapshot and parsing it back keeps every key. */
  function ToData(s: Snapshot): ProjectData {
    ProjectData(Some(s.scriptContent), Some(s.storyboardPanels), Some(s.shotList))
  }

  // The class names of the screenplay element types.
  const SceneHeading := "script-scene-heading"
  const Action := "script-action"
  const Character := "script-character"
  const Dialog := "script-dialog"
  const Parenthetical := "script-parenthetical"
  const Transition := "script-transition"

  /** The six element types. */
  predicate IsElementType(c: string) {
    c == SceneHeading || c == Action || c == Character || c == Dialog || c == Parenthetical || c == Transition
  }

  /**
   * The class tests of the editor use `includes`; none of the six class names
   * occurs inside another, so an element carrying exactly one of them passes
   * exactly one test.
   */
  lemma ClassNamesApart(c: string)
    requires IsElementType(c)
    ensures Contains(c, c)
    ensures c != SceneHeading ==> !Contains(c, SceneHeading)
    ensures c != Action ==> !Contains(c, Action)
    ensures c != Character ==> !Contains(c, Character)
    ensures c != Dialog ==> !Contains(c, Dialog)
    ensures c != Parenthetical ==> !Contains(c, Parenthetical)
    ensures c != Transition ==> !Contains(c, Transition)
  {
    assert c[..|c|] == c;
    if c == Action { ActionApart(); }
    else if c == Character { CharacterApart(); }
    else if c == Dialog { DialogApart(); }
    else if c == Parenthetical { ParentheticalApart(); }
    else if c == Transition { TransitionApart(); }
    else { SceneHeadingApart(); }
  }

  /**
   * The type an element is taken for by the editor's class tests: the first
   * of the six class names its class attribute contains, in the order scene
   * heading, action, character, dialog, parenthetical, transition, or "" when
   * it contains none.
   */
  function Kind(t: string): (k: string)
    ensures k == "" || IsElementType(k)
    ensures k != "" ==> Contains(t, k)
  {
    if Contains(t, SceneHeading) then SceneHeading
    else if Contains(t, Action) then Action
    else if Contains(t, Character) then Character
    else if Contains(t, Dialog) then Dialog
    else if Contains(t, Parenthetical) then Parenthetical
    else if Contains(t, Transition) then Transition
    else ""
  }

  /** An element carrying exactly one of the six class names is taken for that type. */
  lemma KindOfType(c: string)
    requires IsElementType(c)
    ensures Kind(c) == c
  {
    ClassNamesApart(c);
  }

  /** An attribute that contains none of the six names is taken for no type. */
  lemma KindOfUnknown(t: string)
    requires !Contains(t, SceneHeading) && !Contains(t, Action) && !Contains(t, Character)
    requires !Contains(t, Dialog) && !Contains(t, Parenthetical) && !Contains(t, Transition)
    ensures Kind(t) == ""
  {
  }

  lemma ActionNotDialog()
    ensures !Contains(Action, Dialog)
  {
    MissingChar(Action, Dialog, 'd');
  }

  /** `script-action` contains none of the other five class names. */
  lemma ActionApart()
    ensures !Contains(Action, SceneHeading) && !Contains(Action, Character) && !Contains(Action, Dialog) && !Contains(Action, Parenthetical) && !Contains(Action, Transition)
  {
    ActionNotDialog();
  }

  lemma CharacterNotAction()
    ensures !Contains(Character, Action)
  {
    MissingChar(Character, Action, 'o');
  }

  lemma CharacterNotDialog()
    ensures !Contains(Character, Dialog)
  {
    MissingChar(Character, Dialog, 'd');
  }

  /** `script-character` contains none of the other five class names. */
  lemma CharacterApart()
    ensures !Contains(Character, SceneHeading) && !Contains(Character, Action) && !Contains(Character, Dialog) && !Contains(Character, Parenthetical) && !Contains(Character, Transition)
  {
    CharacterNotAction(); CharacterNotDialog();
  }

  lemma DialogNotAction()
    ensures !Contains(Dialog, Action)
  {
    MissingChar(Dialog, Action, 'n');
  }

  /** `script-dialog` contains none of the other five class names. */
  lemma DialogApart()
    ensures !Contains(Dialog, SceneHeading) && !Contains(Dialog, Action) && !Contains(Dialog, Character) && !Contains(Dialog, Parenthetical) && !Contains(Dialog, Transition)
  {
    DialogNotAction();
  }

  lemma ParentheticalNotSceneHeading()
    ensures !Contains(Parenthetical, SceneHeading)
  {
    MissingChar(Parenthetical, SceneHeading, 'd');
  }

  lemma ParentheticalNotAction()
    ensures !Contains(Parenthetical, Action)
  {
    MissingChar(Parenthetical, Action, 'o');
  }

  lemma ParentheticalNotCharacter()
    ensures !Contains(Parenthetical, Character)
  {
    NotContainsNear(Parenthetical, Character, 7, 0, 0, 0, 0);
  }

  lemma ParentheticalNotDialog()
    ensures !Contains(Parenthetical, Dialog)
  {
    MissingChar(Parenthetical, Dialog, 'd');
  }

  lemma ParentheticalNotTransition()
    ensures !Contains(Parenthetical, Transition)
  {
    MissingChar(Parenthetical, Transition, 'o');
  }

  /** `script-parenthetical` contains none of the other five class names. */
  lemma ParentheticalApart()
    ensures !Contains(Parenthetical, SceneHeading) && !Contains(Parenthetical, Action) && !Contains(Parenthetical, Character) && !Contains(Parenthetical, Dialog) && !Contains(Parenthetical, Transition)
  {
    ParentheticalNotSceneHeading(); ParentheticalNotAction(); ParentheticalNotCharacter(); ParentheticalNotDialog(); ParentheticalNotTransition();
  }

  lemma TransitionNotAction()
    ensures !Contains(Transition, Action)
  {
    NotContainsNear(Transition, Action, 7, 0, 0, 0, 0);
  }

  lemma TransitionNotCharacter()
    ensures !Contains(Transition, Character)
  {
    MissingChar(Transition, Character, 'h');
  }

  lemma TransitionNotDialog()
    ensures !Contains(Transition, Dialog)
  {
    MissingChar(Transition, Dialog, 'd');
  }

  /** `script-transition` contains none of the other five class names. */
  lemma TransitionApart()
    ensures !Contains(Transition, SceneHeading) && !Contains(Transition, Action) && !Contains(Transition, Character) && !Contains(Transition, Dialog) && !Contains(Transition, Parenthetical)
  {
    TransitionNotAction(); TransitionNotCharacter(); TransitionNotDialog();
  }

  lemma SceneHeadingNotAction()
    ensures !Contains(SceneHeading, Action)
  {
    MissingChar(SceneHeading, Action, 'o');
  }

  lemma SceneHeadingNotCharacter()
    ensures !Contains(SceneHeading, Character)
  {
    NotContainsNear(SceneHeading, Character, 7, 0, 0, 0, 0);
  }

  lemma SceneHeadingNotDialog()
    ensures !Contains(SceneHeading, Dialog)
  {
    MissingChar(SceneHeading, Dialog, 'l');
  }

  lemma SceneHeadingNotParenthetical()
    ensures !Contains(SceneHeading, Parenthetical)
  {
    MissingChar(SceneHeading, Parenthetical, 'l');
  }

  lemma SceneHeadingNotTransition()
    ensures !Contains(SceneHeading, Transition)
  {
    MissingChar(SceneHeading, Transition, 'o');
  }

  /** `script-scene-heading` contains none of the other five class names. */
  lemma SceneHeadingApart()
    ensures !Contains(SceneHeading, Action) && !Contains(SceneHeading, Character) && !Contains(SceneHeading, Dialog) && !Contains(SceneHeading, Parenthetical) && !Contains(SceneHeading, Transition)
  {
    SceneHeadingNotAction(); SceneHeadingNotCharacter(); SceneHeadingNotDialog(); SceneHeadingNotParenthetical(); SceneHeadingNotTransition();
  }
}
