/**
 * The editable surface and its two directions: restore (rebuild the editor,
 * the storyboard grid and the shot-list body from a project value) and
 * capture (read them back into a snapshot).
 *
 * Fresh ids stand for `crypto.randomUUID()`: a counter `nextId` on the
 * surface supplies `FreshId(n)`, one number per panel or row visited.
 */
module Render {
  import opened Text
  import opened Document

  /** A storyboard panel on screen: its `data-id`, its "Panel n" heading, its image source and its notes. */
  datatype PanelView = PanelView(id: string, number: int, image: string, notes: string)

  /** A shot-list row on screen: its `data-id`, its shot number cell and its four inputs. */
  datatype ShotView = ShotView(id: string, number: int, sceneNum: string, shotType: string,
                               description: string, notes: string)

  /** The markup restored when a project has no script content. */
  const DefaultScript := [Element(SceneHeading, "SCENE 1"), Element(Action, "")]

  /** The prefix of an embedded-image data URI. */
  const ImagePrefix := "data:image"

  function FreshId(n: nat): (r: string)
    ensures r != ""
  {
    "uuid-" + Digits(n)
  }

  /** The editor content restored from a project's `scriptContent`. */
  function RestoredScript(content: Option<seq<Element>>): (r: seq<Element>)
    ensures r != []
    ensures content.Some? && content.value != [] ==> r == content.value
    ensures content.None? || content.value == [] ==> r == DefaultScript
  {
    if content.Some? && content.value != [] then content.value else DefaultScript
  }

  /** The panel built for `p`; `newId` is used when `p` has no id. */
  function PanelOf(p: Panel, newId: string): PanelView {
    PanelView(if p.id != "" then p.id else newId, p.panelNum, p.imageDataURL, p.notes)
  }

  /** The row built for `s`; `newId` is used when `s` has no id. */
  function ShotOf(s: Shot, newId: string): ShotView {
    ShotView(if s.id != "" then s.id else newId, s.shotNum, s.sceneNum, s.shotType, s.description, s.notes)
  }

  /** The grid built from `ps` with ids drawn from `n` on. */
  function RenderedPanels(ps: seq<Panel>, n: nat): (r: seq<PanelView>)
    ensures |r| == |ps|
    ensures forall i :: 0 <= i < |ps| ==> r[i] == PanelOf(ps[i], FreshId(n + i))
  {
    seq(|ps|, i requires 0 <= i < |ps| => PanelOf(ps[i], FreshId(n + i)))
  }

  /** The shot-list body built from `ss` with ids drawn from `n` on. */
  function RenderedShots(ss: seq<Shot>, n: nat): (r: seq<ShotView>)
    ensures |r| == |ss|
    ensures forall i :: 0 <= i < |ss| ==> r[i] == ShotOf(ss[i], FreshId(n + i))
  {
    seq(|ss|, i requires 0 <= i < |ss| => ShotOf(ss[i], FreshId(n + i)))
  }

  /** The panel of a snapshot read from the `index`-th panel on screen. */
  function CapturedPanel(v: PanelView, index: nat, newId: string): Panel {
    Panel(if v.id != "" then v.id else newId, index + 1,
          if StartsWith(v.image, ImagePrefix) then v.image else "", v.notes)
  }

  /** The shot of a snapshot read from the `index`-th row on screen. */
  function CapturedShot(v: ShotView, index: nat, newId: string): Shot {
    Shot(if v.id != "" then v.id else newId, index + 1, v.sceneNum, v.shotType, v.description, v.notes)
  }

  /**
   * The panels of a capture: numbered 1..n by position, every id present (an
   * existing one kept), every image empty or an embedded-image data URI.
   */
  function CapturedPanels(vs: seq<PanelView>, n: nat): (r: seq<Panel>)
    ensures |r| == |vs|
    ensures forall i :: 0 <= i < |vs| ==>
              r[i].panelNum == i + 1 && r[i].id != "" && (vs[i].id != "" ==> r[i].id == vs[i].id) &&
              r[i].notes == vs[i].notes &&
              (r[i].imageDataURL == "" || StartsWith(r[i].imageDataURL, ImagePrefix)) &&
              (StartsWith(vs[i].image, ImagePrefix) ==> r[i].imageDataURL == vs[i].image)
  {
    seq(|vs|, i requires 0 <= i < |vs| => CapturedPanel(vs[i], i, FreshId(n + i)))
  }

  /** The shots of a capture: numbered 1..n by position, every id present (an existing one kept), fields copied. */
  function CapturedShots(vs: seq<ShotView>, n: nat): (r: seq<Shot>)
    ensures |r| == |vs|
    ensures forall i :: 0 <= i < |vs| ==>
              r[i].shotNum == i + 1 && r[i].id != "" && (vs[i].id != "" ==> r[i].id == vs[i].id) &&
              r[i].sceneNum == vs[i].sceneNum && r[i].shotType == vs[i].shotType &&
              r[i].description == vs[i].description && r[i].notes == vs[i].notes
  {
    seq(|vs|, i requires 0 <= i < |vs| => CapturedShot(vs[i], i, FreshId(n + i)))
  }

  /** The snapshot a capture of this screen content yields, ids drawn from `n` on. */
  function Captured(script: seq<Element>, panels: seq<PanelView>, shots: seq<ShotView>, n: nat): Snapshot {
    Snapshot(script, CapturedPanels(panels, n), CapturedShots(shots, n + |panels|))
  }

  /**
   * The snapshots that survive a restore followed by a capture unchanged:
   * non-empty script, ids present, numbers dense from 1, images empty or
   * embedded-image data URIs.
   */
  ghost predicate Canonical(s: Snapshot) {
    s.scriptContent != [] &&
    (forall i :: 0 <= i < |s.storyboardPanels| ==>
       var p := s.storyboardPanels[i];
       p.id != "" && p.panelNum == i + 1 && (p.imageDataURL == "" || StartsWith(p.imageDataURL, ImagePrefix))) &&
    (forall i :: 0 <= i < |s.shotList| ==>
       s.shotList[i].id != "" && s.shotList[i].shotNum == i + 1)
  }

  /** Every capture of a non-empty editor is canonical. */
  lemma CaptureIsCanonical(script: seq<Element>, panels: seq<PanelView>, shots: seq<ShotView>, n: nat)
    requires script != []
    ensures Canonical(Captured(script, panels, shots, n))
  {
  }

  /** Capturing right after restoring a canonical snapshot gives the snapshot back, whatever ids were on hand. */
  lemma RestoreCaptureRoundTrip(s: Snapshot, n: nat, m: nat)
    requires Canonical(s)
    ensures var panels := RenderedPanels(s.storyboardPanels, n);
            var shots := RenderedShots(s.shotList, n + |s.storyboardPanels|);
            Captured(RestoredScript(Some(s.scriptContent)), panels, shots, m) == s
  {
    var panels := RenderedPanels(s.storyboardPanels, n);
    var shots := RenderedShots(s.shotList, n + |s.storyboardPanels|);
    var c := Captured(RestoredScript(Some(s.scriptContent)), panels, shots, m);
    assert c.storyboardPanels == s.storyboardPanels by {
      forall i | 0 <= i < |s.storyboardPanels| ensures c.storyboardPanels[i] == s.storyboardPanels[i] {
        var p := s.storyboardPanels[i];
        assert p.imageDataURL == "" ==> !StartsWith(p.imageDataURL, ImagePrefix);
      }
    }
    assert c.shotList == s.shotList;
  }

  /** An empty script restores to the default markup and is captured as such. */
  lemma EmptyScriptRestoresDefault(s: Snapshot, n: nat)
    requires s.scriptContent == []
    ensures Captured(RestoredScript(Some(s.scriptContent)), [], [], n).scriptContent == DefaultScript
  {
  }

  /** When every item on screen has an id, a capture does not depend on the id supply. */
  lemma CaptureIgnoresSupply(script: seq<Element>, panels: seq<PanelView>, shots: seq<ShotView>, n: nat, m: nat)
    requires forall i :: 0 <= i < |panels| ==> panels[i].id != ""
    requires forall i :: 0 <= i < |shots| ==> shots[i].id != ""
    ensures Captured(script, panels, shots, n) == Captured(script, panels, shots, m)
  {
    assert CapturedPanels(panels, n) == CapturedPanels(panels, m);
    assert CapturedShots(shots, n + |panels|) == CapturedShots(shots, m + |panels|);
  }

  /** The number of panels and shots of a project, absent lists counting as empty. */
  function Items(d: ProjectData): nat {
    |GetOr(d.storyboardPanels, [])| + |GetOr(d.shotList, [])|
  }

  /** The editor, the storyboard grid and the shot-list body. */
  class Surface {
    var script: seq<Element>
    var panels: seq<PanelView>
    var shots: seq<ShotView>
    var nextId: nat

    constructor ()
      ensures script == [] && panels == [] && shots == [] && nextId == 0
    {
      script, panels, shots, nextId := [], [], [], 0;
    }

    /** What a capture would answer with ids drawn from `n` on. */
    function SnapFrom(n: nat): Snapshot
      reads this
    {
      Captured(script, panels, shots, n)
    }

    /** What a capture would answer now. */
    function Snap(): Snapshot
      reads this
    {
      SnapFrom(nextId)
    }

    /** The number of ids a capture or a render of the current content draws. */
    function Count(): nat
      reads this
    {
      |panels| + |shots|
    }

    /** Every panel and row on screen carries an id. */
    predicate IdsPresent()
      reads this
    {
      (forall i :: 0 <= i < |panels| ==> panels[i].id != "") &&
      (forall i :: 0 <= i < |shots| ==> shots[i].id != "")
    }

    /** The surface shows project `d`, restored with ids drawn from `n` on. */
    ghost predicate Shows(d: ProjectData, n: nat)
      reads this
    {
      var ps := GetOr(d.storyboardPanels, []);
      script == RestoredScript(d.scriptContent) &&
      panels == RenderedPanels(ps, n) &&
      shots == RenderedShots(GetOr(d.shotList, []), n + |ps|)
    }

    /** `renderStoryboards`: empty the grid, then append one panel per item in order. */
    method RenderStoryboards(ps: seq<Panel>)
      modifies this`panels, this`nextId
      ensures panels == RenderedPanels(ps, old(nextId)) && nextId == old(nextId) + |ps|
    {
      panels := [];
      var i := 0;
      while i < |ps|
        invariant 0 <= i <= |ps| && nextId == old(nextId) + i
        invariant |panels| == i
        invariant forall k :: 0 <= k < i ==> panels[k] == PanelOf(ps[k], FreshId(old(nextId) + k))
      {
        panels := panels + [PanelOf(ps[i], FreshId(nextId))];
        nextId := nextId + 1;
        i := i + 1;
      }
    }

    /** `renderShotlist`: empty the body, then append one row per item in order. */
    method RenderShotlist(ss: seq<Shot>)
      modifies this`shots, this`nextId
      ensures shots == RenderedShots(ss, old(nextId)) && nextId == old(nextId) + |ss|
    {
      shots := [];
      var i := 0;
      while i < |ss|
        invariant 0 <= i <= |ss| && nextId == old(nextId) + i
        invariant |shots| == i
        invariant forall k :: 0 <= k < i ==> shots[k] == ShotOf(ss[k], FreshId(old(nextId) + k))
      {
        shots := shots + [ShotOf(ss[i], FreshId(nextId))];
        nextId := nextId + 1;
        i := i + 1;
      }
    }

    /** `renderProjectDataToDOM`: the script (or the default one), then the panels and rows, absent lists read as empty. */
    method RenderProjectDataToDOM(d: ProjectData)
      modifies this
      ensures Shows(d, old(nextId)) && nextId == old(nextId) + Items(d)
    {
      script := RestoredScript(d.scriptContent);
      RenderStoryboards(GetOr(d.storyboardPanels, []));
      RenderShotlist(GetOr(d.shotList, []));
    }

    /** `getProjectDataFromDOM`: read the editor, every panel and every row into a snapshot. */
    method Capture() returns (snap: Snapshot)
      modifies this`nextId
      ensures snap == old(Snap())
      ensures nextId == old(nextId) + |panels| + |shots|
    {
      var ps: seq<Panel> := [];
      var i := 0;
      while i < |panels|
        invariant 0 <= i <= |panels| && nextId == old(nextId) + i
        invariant |ps| == i
        invariant forall k :: 0 <= k < i ==> ps[k] == CapturedPanel(panels[k], k, FreshId(old(nextId) + k))
      {
        ps := ps + [CapturedPanel(panels[i], i, FreshId(nextId))];
        nextId := nextId + 1;
        i := i + 1;
      }
      var ss: seq<Shot> := [];
      var j := 0;
      while j < |shots|
        invariant 0 <= j <= |shots| && nextId == old(nextId) + |panels| + j
        invariant |ss| == j
        invariant forall k :: 0 <= k < j ==> ss[k] == CapturedShot(shots[k], k, FreshId(old(nextId) + |panels| + k))
      {
        ss := ss + [CapturedShot(shots[j], j, FreshId(nextId))];
        nextId := nextId + 1;
        j := j + 1;
      }
      snap := Snapshot(script, ps, ss);
    }
  }

  /** Once the surface shows a canonical snapshot, every capture answers that snapshot. */
  lemma ShowsThenCaptures(surface: Surface, s: Snapshot, n: nat, m: nat)
    requires Canonical(s) && surface.Shows(ToData(s), n)
    ensures surface.SnapFrom(m) == s
  {
    RestoreCaptureRoundTrip(s, n, m);
  }
}
