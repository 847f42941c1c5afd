/** Lines of a resume, as paged by resume.read_sections. */
module Lines {
  import opened Evidence

  /** strings.Split(text, "\n"). */
  function Split(s: string): (lines: seq<string>)
    ensures |lines| >= 1
  {
    if s == [] then [""]
    else
      var rest := Split(s[1..]);
      if s[0] == '\n' then [""] + rest else [[s[0]] + rest[0]] + rest[1..]
  }

  /** Lines written one after the other, separated by the given strings. */
  function JoinWith(lines: seq<string>, separators: seq<string>): string
    requires |lines| <= |separators| + 1
  {
    if lines == [] then ""
    else if |lines| == 1 then lines[0]
    else lines[0] + separators[0] + JoinWith(lines[1..], separators[1..])
  }

  function Newlines(n: nat): (s: seq<string>)
    ensures |s| == n && forall i | 0 <= i < n :: s[i] == "\n"
  {
    if n == 0 then [] else ["\n"] + Newlines(n - 1)
  }

  lemma {:induction false} LinesHoldNoNewline(s: string)
    ensures forall line | line in Split(s) :: '\n' !in line
  {
    if s != [] {
      LinesHoldNoNewline(s[1..]);
    }
  }

  lemma {:induction false} JoinBack(s: string)
    ensures JoinWith(Split(s), Newlines(|Split(s)| - 1)) == s
  {
    if s != [] {
      JoinBack(s[1..]);
      var rest, lines := Split(s[1..]), Split(s);
      assert s == [s[0]] + s[1..];
      if s[0] == '\n' {
        assert lines[1..] == rest;
        assert Newlines(|lines| - 1)[1..] == Newlines(|rest| - 1);
      } else if |rest| > 1 {
        assert lines[1..] == rest[1..];
      }
    }
  }

  /** Splitting loses nothing: the lines joined by newlines are the text, and no line holds one. */
  lemma JoinSplit(s: string)
    ensures JoinWith(Split(s), Newlines(|Split(s)| - 1)) == s
    ensures forall line | line in Split(s) :: '\n' !in line
  {
    JoinBack(s);
    LinesHoldNoNewline(s);
  }

  /** The visible content of several lines. */
  function NormalizeAll(u: Unicode, lines: seq<string>): string {
    if lines == [] then [] else Normalize(u, lines[0]) + NormalizeAll(u, lines[1..])
  }

  lemma {:induction false} NormalizeAllConcat(u: Unicode, a: seq<string>, b: seq<string>)
    ensures NormalizeAll(u, a + b) == NormalizeAll(u, a) + NormalizeAll(u, b)
  {
    if a == [] {
      assert a + b == b;
    } else {
      calc {
        NormalizeAll(u, a + b);
        { assert (a + b)[0] == a[0] && (a + b)[1..] == a[1..] + b; }
        Normalize(u, a[0]) + NormalizeAll(u, a[1..] + b);
        { NormalizeAllConcat(u, a[1..], b); }
        Normalize(u, a[0]) + (NormalizeAll(u, a[1..]) + NormalizeAll(u, b));
        (Normalize(u, a[0]) + NormalizeAll(u, a[1..])) + NormalizeAll(u, b);
      }
    }
  }

  ghost predicate AllSpace(u: Unicode, s: string) {
    forall i | 0 <= i < |s| :: u.isSpace(s[i])
  }

  lemma {:induction false} SpaceVanishes(u: Unicode, s: string)
    requires AllSpace(u, s)
    ensures Normalize(u, s) == []
  {
    if s != [] {
      SpaceVanishes(u, s[1..]);
    }
  }

  lemma {:induction false} NormalizeJoin(u: Unicode, lines: seq<string>, separators: seq<string>)
    requires |lines| <= |separators| + 1
    requires forall i | 0 <= i < |separators| :: AllSpace(u, separators[i])
    ensures Normalize(u, JoinWith(lines, separators)) == NormalizeAll(u, lines)
  {
    if |lines| == 1 {
      assert NormalizeAll(u, lines[1..]) == [];
    } else if |lines| > 1 {
      var rest := JoinWith(lines[1..], separators[1..]);
      NormalizeJoin(u, lines[1..], separators[1..]);
      SpaceVanishes(u, separators[0]);
      NormalizeConcat(u, lines[0] + separators[0], rest);
      NormalizeConcat(u, lines[0], separators[0]);
    }
  }

  lemma RunContained(u: Unicode, lines: seq<string>, a: nat, b: nat)
    requires a <= b <= |lines|
    ensures Contains(NormalizeAll(u, lines), NormalizeAll(u, lines[a..b]))
  {
    assert lines == lines[..a] + (lines[a..b] + lines[b..]);
    NormalizeAllConcat(u, lines[..a], lines[a..b] + lines[b..]);
    NormalizeAllConcat(u, lines[a..b], lines[b..]);
    var x, y, z := NormalizeAll(u, lines[..a]), NormalizeAll(u, lines[a..b]), NormalizeAll(u, lines[b..]);
    assert FoundAt(x + (y + z), y, |x|);
  }

  /** Any run of consecutive lines, joined with any white space, passes the evidence gate
      exactly when it has four visible runes. */
  lemma LinesPassGate(u: Unicode, text: string, a: nat, b: nat, separators: seq<string>)
    requires u.isSpace('\n')
    requires a <= b <= |Split(text)| && b - a <= |separators| + 1
    requires forall i | 0 <= i < |separators| :: AllSpace(u, separators[i])
    ensures var quote := JoinWith(Split(text)[a..b], separators);
            ContainsNormalized(u, text, quote) <==> Visible(u, quote) >= MIN_QUOTE
  {
    var lines := Split(text);
    JoinSplit(text);
    NormalizeJoin(u, lines, Newlines(|lines| - 1));
    NormalizeJoin(u, lines[a..b], separators);
    NormalizeLength(u, JoinWith(lines[a..b], separators));
    RunContained(u, lines, a, b);
  }

  // ----- Paging -----

  datatype Page = Page(start: nat, next: nat, total: nat, lines: seq<string>)

  function PageOf(lines: seq<string>, start: nat, limit: nat): (page: Page) {
    var from := if start > |lines| then |lines| else start;
    var to := if from + limit > |lines| then |lines| else from + limit;
    Page(from, to, |lines|, lines[from..to])
  }

  /** Reads page after page from `start`, always continuing at next_line, with a new limit each time. */
  function ReadOn(lines: seq<string>, start: nat, limits: seq<nat>): (seq<string>, nat)
    decreases |limits|
  {
    if limits == [] then ([], start)
    else
      var page := PageOf(lines, start, limits[0]);
      var (rest, stop) := ReadOn(lines, page.next, limits[1..]);
      (page.lines + rest, stop)
  }

  /** Following next_line reads every line once and in order, and |lines| reads always suffice. */
  lemma {:induction false} PagingReadsEverything(lines: seq<string>, start: nat, limits: seq<nat>)
    requires start <= |lines| && forall i | 0 <= i < |limits| :: limits[i] >= 1
    ensures var (read, stop) := ReadOn(lines, start, limits);
            && start <= stop <= |lines|
            && read == lines[start..stop]
            && (stop == |lines| || stop >= start + |limits|)
    decreases |limits|
  {
    if limits != [] {
      var page := PageOf(lines, start, limits[0]);
      PagingReadsEverything(lines, page.next, limits[1..]);
    }
  }
}
