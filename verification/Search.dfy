/** The greedy choice of non-overlapping matches, for any set of hits. */
module Greedy {

  /** First position at which match k may start: behind match k - 1. */
  function Free(width: nat, os: seq<nat>, k: nat): nat
    requires k <= |os|
  {
    if k == 0 then 0 else os[k - 1] + width
  }

  ghost predicate NoneIn(hit: nat -> bool, from: nat, to: nat) {
    forall p: nat | from <= p < to :: !hit(p)
  }

  /** Match k is the first hit that does not overlap match k - 1. */
  ghost predicate IsNext(hit: nat -> bool, width: nat, os: seq<nat>, k: nat) {
    k < |os| && Free(width, os, k) <= os[k] && hit(os[k]) && NoneIn(hit, Free(width, os, k), os[k])
  }

  /** `os` lists the first `limit` hits below `end`, chosen greedily from the left. */
  ghost predicate Leftmost(hit: nat -> bool, width: nat, end: nat, limit: nat, os: seq<nat>) {
    && |os| <= limit
    && (forall k | 0 <= k < |os| :: IsNext(hit, width, os, k))
    && (|os| < limit ==> NoneIn(hit, Free(width, os, |os|), end))
  }

  /** Everything below `index` has been searched. */
  ghost predicate Scanned(hit: nat -> bool, width: nat, os: seq<nat>, index: nat) {
    && (forall k | 0 <= k < |os| :: IsNext(hit, width, os, k))
    && Free(width, os, |os|) <= index
    && NoneIn(hit, Free(width, os, |os|), index)
  }

  lemma SkipMiss(hit: nat -> bool, width: nat, os: seq<nat>, index: nat)
    requires Scanned(hit, width, os, index) && !hit(index)
    ensures Scanned(hit, width, os, index + 1)
  {
  }

  lemma TakeHit(hit: nat -> bool, width: nat, os: seq<nat>, index: nat)
    requires Scanned(hit, width, os, index) && hit(index)
    ensures Scanned(hit, width, os + [index], index + width)
  {
    forall k | 0 <= k < |os| + 1 ensures IsNext(hit, width, os + [index], k) {
      assert Free(width, os + [index], k) == Free(width, os, k);
      if k < |os| {
        assert IsNext(hit, width, os, k);
      }
    }
  }

  /** The greedy choice is determined: the description admits one list only. */
  lemma {:induction false} Unique(
      hit: nat -> bool, width: nat, end: nat, limit: nat, os: seq<nat>, qs: seq<nat>, k: nat)
    requires Leftmost(hit, width, end, limit, os) && Leftmost(hit, width, end, limit, qs)
    requires forall i | 0 <= i < |os| :: os[i] < end
    requires forall i | 0 <= i < |qs| :: qs[i] < end
    requires k <= |os| && k <= |qs| && os[..k] == qs[..k]
    ensures os == qs
    decreases |os| - k
  {
    assert Free(width, os, k) == Free(width, qs, k) by {
      if k > 0 {
        assert os[k - 1] == os[..k][k - 1] == qs[..k][k - 1] == qs[k - 1];
      }
    }
    if k < |os| && k < |qs| {
      assert IsNext(hit, width, os, k) && IsNext(hit, width, qs, k);
      Unique(hit, width, end, limit, os, qs, k + 1);
    } else {
      assert k < |os| ==> IsNext(hit, width, os, k);
      assert k < |qs| ==> IsNext(hit, width, qs, k);
      assert os == os[..k] && qs == qs[..k];
    }
  }

  /** Matches are ordered and never overlap. */
  lemma {:induction false} Disjoint(hit: nat -> bool, width: nat, end: nat, limit: nat, os: seq<nat>, i: nat, j: nat)
    requires Leftmost(hit, width, end, limit, os) && i < j < |os|
    ensures os[i] + width <= os[j]
  {
    assert IsNext(hit, width, os, j);
    if i < j - 1 {
      Disjoint(hit, width, end, limit, os, i, j - 1);
    }
  }

  ghost predicate Reported(width: nat, os: seq<nat>, p: nat) {
    exists k | 0 <= k < |os| :: os[k] <= p < os[k] + width
  }

  /** No hit is missed: each one is reported or starts inside a reported match, unless the
      limit was reached before it. */
  lemma {:induction false} Covered(
      hit: nat -> bool, width: nat, end: nat, limit: nat, os: seq<nat>, p: nat, k: nat)
    requires Leftmost(hit, width, end, limit, os)
    requires hit(p) && p < end && k <= |os| && Free(width, os, k) <= p
    ensures Reported(width, os, p) || (|os| == limit && Free(width, os, |os|) <= p)
    decreases |os| - k
  {
    if k < |os| {
      assert IsNext(hit, width, os, k);
      if os[k] + width <= p {
        Covered(hit, width, end, limit, os, p, k + 1);
      }
    }
  }
}

/** The resume.search_evidence windows: case-insensitive occurrences with a margin. */
module Search {
  import opened Evidence
  import opened Greedy

  const MARGIN := 80

  datatype Window = Window(offset: nat, text: string)

  ghost predicate Occurs(u: Unicode, text: string, query: string, i: nat) {
    FoundAt(Lowered(u, text), Lowered(u, query), i)
  }

  ghost function Hits(u: Unicode, text: string, query: string): nat -> bool {
    (i: nat) => Occurs(u, text, query, i)
  }

  function Offsets(ws: seq<Window>): seq<nat> {
    seq(|ws|, i requires 0 <= i < |ws| => ws[i].offset)
  }

  /** A window shows its match together with up to MARGIN runes on either side. */
  ghost predicate Shows(text: string, query: string, w: Window) {
    && w.offset + |query| <= |text|
    && var a := if w.offset < MARGIN then 0 else w.offset - MARGIN;
       var b := if w.offset + |query| + MARGIN > |text| then |text| else w.offset + |query| + MARGIN;
       w.text == text[a..b]
  }

  method WindowAt(text: string, query: string, index: nat) returns (w: Window)
    requires index + |query| <= |text|
    ensures w.offset == index && Shows(text, query, w)
  {
    var start := index - MARGIN;
    if start < 0 {
      start := 0;
    }
    var end := index + |query| + MARGIN;
    if end > |text| {
      end := |text|;
    }
    w := Window(index, text[start..end]);
  }

  method SearchWindows(u: Unicode, text: string, query: string, limit: nat) returns (results: seq<Window>)
    ensures query == [] ==> results == []
    ensures query != [] ==> Leftmost(Hits(u, text, query), |query|, |text| + 1, limit, Offsets(results))
    ensures forall k | 0 <= k < |results| :: Shows(text, query, results[k])
  {
    results := [];
    if |query| == 0 {
      return;
    }
    ghost var hit := Hits(u, text, query);
    var lowerText, lowerQuery := Lowered(u, text), Lowered(u, query);
    var index := 0;
    while index + |lowerQuery| <= |lowerText| && |results| < limit
      invariant |results| <= limit
      invariant Scanned(hit, |query|, Offsets(results), index)
      invariant forall k | 0 <= k < |results| :: Shows(text, query, results[k])
    {
      assert hit(index) == (lowerText[index..index + |lowerQuery|] == lowerQuery);
      if lowerText[index..index + |lowerQuery|] != lowerQuery {
        SkipMiss(hit, |query|, Offsets(results), index);
        index := index + 1;
        continue;
      }
      TakeHit(hit, |query|, Offsets(results), index);
      var window := WindowAt(text, query, index);
      assert Offsets(results + [window]) == Offsets(results) + [index];
      results := results + [window];
      index := index + (|lowerQuery| - 1);
      index := index + 1;
    }
    NoHitsBehind(u, text, query, index, |results| < limit);
  }

  lemma NoHitsBehind(u: Unicode, text: string, query: string, index: nat, exhausted: bool)
    requires exhausted ==> index + |query| > |text|
    ensures exhausted ==> NoneIn(Hits(u, text, query), index, |text| + 1)
  {
  }

  /** The query occurs at a place exactly if it fits and agrees there rune by rune, whatever the case. */
  lemma OccursIff(u: Unicode, text: string, query: string, i: nat)
    ensures Occurs(u, text, query, i) <==>
      i + |query| <= |text| && forall k | 0 <= k < |query| :: u.lower(text[i + k]) == u.lower(query[k])
  {
    var lowerText, lowerQuery := Lowered(u, text), Lowered(u, query);
    if i + |query| <= |text| {
      var slice := lowerText[i..i + |query|];
      assert forall k | 0 <= k < |query| :: slice[k] == u.lower(text[i + k]) && lowerQuery[k] == u.lower(query[k]);
    }
  }

  /** What a search shows: at most the limit of windows, at places where the query occurs whatever the case, each with
      up to 80 runes on either side. */
  lemma WindowsShowMatches(u: Unicode, text: string, query: string, limit: nat, results: seq<Window>)
    requires Leftmost(Hits(u, text, query), |query|, |text| + 1, limit, Offsets(results))
    requires forall k | 0 <= k < |results| :: Shows(text, query, results[k])
    ensures |results| <= limit && forall k | 0 <= k < |results| :: results[k].offset + |query| <= |text|
    ensures forall k, i | 0 <= k < |results| && 0 <= i < |query| :: u.lower(text[results[k].offset + i]) == u.lower(query[i])
    ensures forall k | 0 <= k < |results| ::
      var start, end := results[k].offset - 80, results[k].offset + |query| + 80;
      results[k].text == text[if start < 0 then 0 else start..if end > |text| then |text| else end]
  {
    forall k | 0 <= k < |results| ensures Occurs(u, text, query, results[k].offset) {
      assert IsNext(Hits(u, text, query), |query|, Offsets(results), k);
    }
    forall k, i | 0 <= k < |results| && 0 <= i < |query|
      ensures u.lower(text[results[k].offset + i]) == u.lower(query[i])
    {
      OccursIff(u, text, query, results[k].offset);
    }
  }

  /** Text shown by the search tool can be quoted back: a window passes the evidence gate
      exactly when it has four visible runes. */
  lemma WindowPassesGate(u: Unicode, text: string, query: string, w: Window)
    requires Shows(text, query, w)
    ensures ContainsNormalized(u, text, w.text) <==> Visible(u, w.text) >= MIN_QUOTE
  {
    GateIff(u, text, w.text);
  }
}
