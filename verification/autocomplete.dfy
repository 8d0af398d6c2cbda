/**
 * The suggestion source of the editor's autocomplete: the distinct,
 * normalised texts of the elements of one class, in first-occurrence order.
 * Scene headings lose a leading `INT.`/`EXT.` and a trailing time of day.
 */
module Autocomplete {
  import opened Text
  import opened Document

  /** The words a scene heading may end in after a dash. */
  const TimesOfDay := ["DAY", "NIGHT", "MORNING", "EVENING", "LATER"]

  /** `s` with `^(INT\.|EXT\.)\s*` removed. */
  function StripHeadingPrefix(s: string): (r: string)
    ensures |r| <= |s| && r == s[|s| - |r|..]
    ensures StartsWith(s, "INT.") || StartsWith(s, "EXT.") ==> r == TrimStart(s[4..])
    ensures !StartsWith(s, "INT.") && !StartsWith(s, "EXT.") ==> r == s
  {
    if StartsWith(s, "INT.") || StartsWith(s, "EXT.") then TrimStart(s[4..]) else s
  }

  /** The start of the whitespace run that ends at position `j` of `s`. */
  function RunStart(s: string, j: nat): (i: nat)
    requires j <= |s|
    ensures i <= j && forall k :: i <= k < j ==> IsSpace(s[k])
    ensures i == 0 || !IsSpace(s[i - 1])
  {
    if j > 0 && IsSpace(s[j - 1]) then RunStart(s, j - 1) else j
  }

  /** The position where a trailing time-of-day word starts, if `s` ends in one. */
  function TimeOfDayAt(s: string): (p: Option<nat>)
    ensures p.Some? ==> p.value <= |s| && s[p.value..] in TimesOfDay
    ensures p.None? ==> forall w :: w in TimesOfDay ==> !EndsWith(s, w)
  {
    if EndsWith(s, "DAY") then Some(|s| - 3)
    else if EndsWith(s, "NIGHT") then Some(|s| - 5)
    else if EndsWith(s, "MORNING") then Some(|s| - 7)
    else if EndsWith(s, "EVENING") then Some(|s| - 7)
    else if EndsWith(s, "LATER") then Some(|s| - 5)
    else None
  }

  /**
   * `s` with `\s*-\s*(DAY|NIGHT|MORNING|EVENING|LATER)$` removed: the leftmost
   * match starts at the whitespace run before the dash that precedes the
   * trailing word and its own whitespace.
   */
  function StripTimeOfDay(s: string): (r: string)
    ensures |r| <= |s| && r == s[..|r|]
  {
    match TimeOfDayAt(s)
    case None => s
    case Some(p) =>
      var j := RunStart(s, p);
      if j > 0 && s[j - 1] == '-' then s[..RunStart(s, j - 1)] else s
  }

  /** All characters of `b` are blanks. */
  predicate Blanks(b: string) {
    forall k :: 0 <= k < |b| ==> IsSpace(b[k])
  }

  /**
   * What is removed is a whole match: blanks, a dash, blanks and a time of
   * day, and the match is the leftmost one (what remains does not end in a
   * blank).
   */
  lemma StripTimeOfDayRemovesMatch(s: string)
    ensures var r := StripTimeOfDay(s);
            r == s || ((r == [] || !IsSpace(r[|r| - 1])) &&
                       exists b1, b2, w :: Blanks(b1) && Blanks(b2) && w in TimesOfDay && s == r + b1 + "-" + b2 + w)
  {
    var r := StripTimeOfDay(s);
    var at := TimeOfDayAt(s);
    if at.Some? {
      var p := at.value;
      var j := RunStart(s, p);
      if j > 0 && s[j - 1] == '-' {
        var i := RunStart(s, j - 1);
        StripsAt(s, p, j);
        Decompose(s, i, j, p);
      }
    }
  }

  /** Splitting a string at the dash and the blank runs around it. */
  lemma Decompose(s: string, i: nat, j: nat, p: nat)
    requires i < j <= p <= |s| && s[j - 1] == '-' && s[p..] in TimesOfDay
    requires forall k :: i <= k < j - 1 ==> IsSpace(s[k])
    requires forall k :: j <= k < p ==> IsSpace(s[k])
    ensures exists b1, b2, w :: Blanks(b1) && Blanks(b2) && w in TimesOfDay && s == s[..i] + b1 + "-" + b2 + w
  {
    var b1, b2, w := s[i..j - 1], s[j..p], s[p..];
    assert Blanks(b1) by {
      forall k | 0 <= k < |b1| ensures IsSpace(b1[k]) {
        assert b1[k] == s[i + k];
      }
    }
    assert Blanks(b2) by {
      forall k | 0 <= k < |b2| ensures IsSpace(b2[k]) {
        assert b2[k] == s[j + k];
      }
    }
    assert s[j - 1..j] == "-";
    assert s == s[..i] + b1 + "-" + b2 + w;
  }

  /**
   * The converse: a trailing match is removed, all of it. Whatever precedes
   * the blanks before the dash is what remains.
   */
  lemma StripTimeOfDayRemovesTrailing(r: string, b1: string, b2: string, w: string)
    requires Blanks(b1) && Blanks(b2) && w in TimesOfDay
    requires r == [] || !IsSpace(r[|r| - 1])
    ensures StripTimeOfDay(r + b1 + "-" + b2 + w) == r
  {
    var dash := r + b1 + "-";
    var t := dash + b2;
    var s := t + w;
    var i, j, p := |r|, |dash|, |t|;
    assert forall m :: i <= m < j - 1 ==> IsSpace(s[m]) by {
      forall m | i <= m < j - 1 ensures IsSpace(s[m]) {
        assert s[m] == b1[m - i];
      }
    }
    assert forall m :: j <= m < p ==> IsSpace(s[m]) by {
      forall m | j <= m < p ensures IsSpace(s[m]) {
        assert s[m] == b2[m - j];
      }
    }
    assert s[j - 1] == '-' && (i == 0 || !IsSpace(s[i - 1])) && s[..i] == r;
    TimeOfDayAtEnd(t, w);
    RunStartOfBlanks(s, j, p);
    RunStartOfBlanks(s, i, j - 1);
    StripsAt(s, p, j);
  }

  /** The removal `StripTimeOfDay` makes once the word, the dash and the runs are located. */
  lemma StripsAt(s: string, p: nat, j: nat)
    requires TimeOfDayAt(s) == Some(p) && p <= |s| && RunStart(s, p) == j && 0 < j && s[j - 1] == '-'
    ensures StripTimeOfDay(s) == s[..RunStart(s, j - 1)]
  {
  }

  /** A word of `TimesOfDay` at the end of a string is found where it starts. */
  lemma TimeOfDayAtEnd(t: string, w: string)
    requires w in TimesOfDay
    ensures TimeOfDayAt(t + w) == Some(|t|)
  {
    var s := t + w;
    assert s[|t|..] == w;
    // every word but EVENING and MORNING ends in its own letter
    assert s[|s| - 1] == w[|w| - 1];
    if w == "EVENING" {
      assert s[|s| - 7..] == w;
    }
  }

  /** The blank run ending at `j` starts at `k` when `s[k..j]` is blank and `s[k - 1]` is not. */
  lemma {:induction false} RunStartOfBlanks(s: string, k: nat, j: nat)
    requires k <= j <= |s|
    requires forall m :: k <= m < j ==> IsSpace(s[m])
    requires k == 0 || !IsSpace(s[k - 1])
    ensures RunStart(s, j) == k
    decreases j - k
  {
    if j > k {
      RunStartOfBlanks(s, k, j - 1);
    }
  }

  /** A heading without a trailing time of day keeps its end. */
  lemma NoTimeOfDayKept(s: string)
    requires forall w :: w in TimesOfDay ==> !EndsWith(s, w)
    ensures StripTimeOfDay(s) == s
  {
  }

  /** The suggestion an element of class `cls` yields (empty when it yields none). */
  function Value(cls: string, text: string): (v: string)
    ensures v == Trim(v)
    ensures cls != SceneHeading ==> v == Trim(text)
  {
    TrimIsTrimmed(if cls == SceneHeading then StripTimeOfDay(StripHeadingPrefix(text)) else text);
    Trim(if cls == SceneHeading then StripTimeOfDay(StripHeadingPrefix(text)) else text)
  }

  /** Element `e` is of class `cls` and yields suggestion `v`. */
  predicate Yields(e: Element, cls: string, v: string) {
    e.className == cls && v != "" && Value(cls, e.text) == v
  }

  predicate NoDuplicates(s: seq<string>) {
    forall i, j :: 0 <= i < j < |s| ==> s[i] != s[j]
  }

  /** The non-empty strings of `vals`, each kept at its first occurrence (the insertion order of a `Set`). */
  function Dedup(vals: seq<string>): (r: seq<string>)
    ensures NoDuplicates(r)
    ensures forall i :: 0 <= i < |r| ==> r[i] != "" && r[i] in vals
  {
    if vals == [] then []
    else
      var prev := Dedup(vals[..|vals| - 1]);
      var v := vals[|vals| - 1];
      if v != "" && v !in prev then prev + [v] else prev
  }

  /** A string is kept exactly when it is non-empty and occurs. */
  lemma {:induction false} DedupMembers(vals: seq<string>, v: string)
    ensures v in Dedup(vals) <==> v != "" && v in vals
    decreases |vals|
  {
    if vals != [] {
      var init := vals[..|vals| - 1];
      DedupMembers(init, v);
      assert vals == init + [vals[|vals| - 1]];
    }
  }

  /** Kept strings follow first-occurrence order: an earlier one occurs before every occurrence of a later one. */
  lemma {:induction false} DedupOrder(vals: seq<string>, i: nat, j: nat, k: nat)
    requires i < j < |Dedup(vals)| && k < |vals| && vals[k] == Dedup(vals)[j]
    ensures exists k' :: 0 <= k' < k && vals[k'] == Dedup(vals)[i]
    decreases |vals|
  {
    var r := Dedup(vals);
    var init := vals[..|vals| - 1];
    var r' := Dedup(init);
    assert r == r' || r == r' + [vals[|vals| - 1]];
    assert forall n :: 0 <= n < |r'| ==> r[n] == r'[n];
    if k < |init| {
      assert init[k] == r[j];
      DedupMembers(init, r[j]);
      assert j < |r'|;
      DedupOrder(init, i, j, k);
      var k' :| 0 <= k' < k && init[k'] == r'[i];
      assert vals[k'] == r[i];
    } else if j < |r'| {
      DedupMembers(init, r[j]);
      var k0 :| 0 <= k0 < |init| && init[k0] == r[j];
      DedupOrder(init, i, j, k0);
      var k' :| 0 <= k' < k0 && init[k'] == r'[i];
      assert vals[k'] == r[i];
    } else {
      assert r[i] in r';
      DedupMembers(init, r[i]);
      var k' :| 0 <= k' < |init| && init[k'] == r[i];
      assert vals[k'] == r[i];
    }
  }

  /** The value each element offers: its normalised text when it is of class `cls`, nothing otherwise. */
  function Candidates(script: seq<Element>, cls: string): (r: seq<string>)
    ensures |r| == |script|
    ensures forall k :: 0 <= k < |script| ==> r[k] == if script[k].className == cls then Value(cls, script[k].text) else ""
  {
    seq(|script|, k requires 0 <= k < |script| => if script[k].className == cls then Value(cls, script[k].text) else "")
  }

  /** `getUniqueValues`: the distinct non-empty values of the elements of class `cls`, in first-occurrence order. */
  function UniqueValues(script: seq<Element>, cls: string): (r: seq<string>)
    ensures NoDuplicates(r)
    ensures forall i :: 0 <= i < |r| ==> r[i] != "" && Trim(r[i]) == r[i]
  {
    Dedup(Candidates(script, cls))
  }

  /** A value is suggested exactly when some element of the class yields it. */
  lemma UniqueValuesMembers(script: seq<Element>, cls: string, v: string)
    ensures v in UniqueValues(script, cls) <==> exists k :: 0 <= k < |script| && Yields(script[k], cls, v)
  {
    var c := Candidates(script, cls);
    DedupMembers(c, v);
    if v in c && v != "" {
      var k :| 0 <= k < |c| && c[k] == v;
      assert Yields(script[k], cls, v);
    }
  }

  /**
   * Suggestions follow document order of first occurrence: an earlier
   * suggestion is yielded before every element yielding a later one.
   */
  lemma UniqueValuesOrder(script: seq<Element>, cls: string, i: nat, j: nat, k: nat)
    requires i < j < |UniqueValues(script, cls)| && k < |script|
    requires Yields(script[k], cls, UniqueValues(script, cls)[j])
    ensures exists k' :: 0 <= k' < k && Yields(script[k'], cls, UniqueValues(script, cls)[i])
  {
    var c := Candidates(script, cls);
    var r := Dedup(c);
    DedupOrder(c, i, j, k);
    var k' :| 0 <= k' < k && c[k'] == r[i];
    assert Yields(script[k'], cls, r[i]);
  }

  /** A heading's prefix goes with the blanks after it. */
  lemma PrefixSample()
    ensures StripHeadingPrefix("INT. KITCHEN - NIGHT") == "KITCHEN - NIGHT"
  {
    var s := "INT. KITCHEN - NIGHT";
    var rest := "KITCHEN - NIGHT";
    assert s[..4] == "INT.";
    assert s[4..] == [' '] + rest;
    assert TrimStart(rest) == rest by {
      assert !IsSpace(rest[0]);
    }
    assert TrimStart(s[4..]) == TrimStart(rest);
  }

  /** The prefix test is case-sensitive. */
  lemma LowerCasePrefixSample()
    ensures StripHeadingPrefix("int. kitchen") == "int. kitchen"
  {
    var s := "int. kitchen";
    assert s[0] == 'i';
    assert s[..4][0] != "INT."[0] && s[..4][0] != "EXT."[0];
  }

  /** A dash and a time of day go with the blanks around them. */
  lemma TimeOfDaySample()
    ensures StripTimeOfDay("KITCHEN - NIGHT") == "KITCHEN"
  {
    assert "KITCHEN - NIGHT" == "KITCHEN" + " " + "-" + " " + "NIGHT";
    StripTimeOfDayRemovesTrailing("KITCHEN", " ", " ", "NIGHT");
  }

  /** The suggestion a sample heading yields. */
  lemma HeadingSample()
    ensures Value(SceneHeading, "INT. KITCHEN - NIGHT") == "KITCHEN"
  {
    PrefixSample();
    TimeOfDaySample();
    SolidTrimmed("KITCHEN");
    HeadingValue("INT. KITCHEN - NIGHT");
  }

  /** Text with no blank at either end is its own trim. */
  lemma SolidTrimmed(k: string)
    requires k != [] && !IsSpace(k[0]) && !IsSpace(k[|k| - 1])
    ensures Trim(k) == k
  {
  }

  /** A heading's suggestion is its trimmed text after both removals. */
  lemma HeadingValue(text: string)
    ensures Value(SceneHeading, text) == Trim(StripTimeOfDay(StripHeadingPrefix(text)))
  {
  }

  /** `getUniqueValues`: walk the elements of the class, adding each value to an insertion-ordered set. */
  method GetUniqueValues(script: seq<Element>, cls: string) returns (values: seq<string>)
    ensures values == UniqueValues(script, cls)
  {
    ghost var cands := Candidates(script, cls);
    values := [];
    var i := 0;
    while i < |script|
      invariant 0 <= i <= |script|
      invariant values == Dedup(cands[..i])
    {
      assert cands[..i + 1][..i] == cands[..i];
      assert Dedup(cands[..i + 1]) ==
             if cands[i] != "" && cands[i] !in values then values + [cands[i]] else values;
      var el := script[i];
      if el.className == cls {
        var text := Value(cls, el.text);
        if text != "" && text !in values {
          values := values + [text];
        }
      }
      i := i + 1;
    }
    assert cands[..|script|] == cands;
  }
}
