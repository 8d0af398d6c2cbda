/**
 * Edits of the script body as a sequence of top-level elements: inserting a
 * new element after the one holding the caret (or at the end), and changing
 * an element's type in place.
 */
module Script {
  import opened Document

  /** Where an inserted element lands: after element `at`, or at the end when there is none. */
  function InsertPosition(script: seq<Element>, at: Option<nat>): (p: nat)
    ensures p <= |script|
    ensures at.Some? && at.value < |script| ==> p == at.value + 1
  {
    if at.Some? && at.value < |script| then at.value + 1 else |script|
  }

  /** `currentEl.after(newEl)`, or `editor.appendChild(newEl)` when there is no current element. */
  function InsertAfter(script: seq<Element>, at: Option<nat>, e: Element): (r: seq<Element>)
    ensures var p := InsertPosition(script, at);
            |r| == |script| + 1 && r[p] == e &&
            (forall k :: 0 <= k < p ==> r[k] == script[k]) &&
            (forall k :: p <= k < |script| ==> r[k + 1] == script[k])
  {
    var p := InsertPosition(script, at);
    script[..p] + [e] + script[p..]
  }

  /** The sequence without its element `p`. */
  function RemoveAt<T>(s: seq<T>, p: nat): (r: seq<T>)
    requires p < |s|
    ensures |r| == |s| - 1
    ensures forall k :: 0 <= k < p ==> r[k] == s[k]
    ensures forall k :: p <= k < |r| ==> r[k] == s[k + 1]
  {
    s[..p] + s[p + 1..]
  }

  /** Removing the inserted element gives the script back. */
  lemma InsertThenRemove(script: seq<Element>, at: Option<nat>, e: Element)
    ensures RemoveAt(InsertAfter(script, at, e), InsertPosition(script, at)) == script
  {
    var p := InsertPosition(script, at);
    var r := InsertAfter(script, at, e);
    assert RemoveAt(r, p) == script;
  }

  /** Element `i` with class `c`, its text kept (`el.className = c`). */
  function Retyped(script: seq<Element>, i: nat, c: string): (r: seq<Element>)
    requires i < |script|
    ensures |r| == |script| && r[i] == Element(c, script[i].text)
    ensures forall k :: 0 <= k < |script| && k != i ==> r[k] == script[k]
  {
    script[i := Element(c, script[i].text)]
  }
}
