/** The evidence gate of the Agent Kernel: text normalisation and the quote check.
    Text is a sequence of runes.  The Unicode tables are parameters, so every statement
    holds for all of them. */
module Evidence {

  /** unicode.IsSpace, unicode.ToLower and the length of a rune in UTF-8. */
  datatype Unicode = Unicode(isSpace: char -> bool, lower: char -> char, width: char -> nat)

  /** Drops white space and lowers every other rune. */
  function Normalize(u: Unicode, s: string): string {
    if s == [] then []
    else (if u.isSpace(s[0]) then [] else [u.lower(s[0])]) + Normalize(u, s[1..])
  }

  /** strings.ToLower, rune by rune. */
  function Lowered(u: Unicode, s: string): (t: string)
    ensures |t| == |s| && forall i | 0 <= i < |s| :: t[i] == u.lower(s[i])
  {
    if s == [] then [] else [u.lower(s[0])] + Lowered(u, s[1..])
  }

  predicate FoundAt(text: string, needle: string, i: nat) {
    i + |needle| <= |text| && text[i..i + |needle|] == needle
  }

  /** strings.Contains. */
  predicate Contains(text: string, needle: string) {
    exists i: nat | i <= |text| :: FoundAt(text, needle, i)
  }

  const MIN_QUOTE := 4

  predicate ContainsNormalized(u: Unicode, text: string, quote: string) {
    var needle := Normalize(u, quote);
    |needle| >= MIN_QUOTE && Contains(Normalize(u, text), needle)
  }

  /** The number of runes that are not white space. */
  function Visible(u: Unicode, s: string): nat {
    if s == [] then 0 else (if u.isSpace(s[0]) then 0 else 1) + Visible(u, s[1..])
  }

  lemma {:induction false} NormalizeLength(u: Unicode, s: string)
    ensures |Normalize(u, s)| == Visible(u, s)
  {
    if s != [] {
      NormalizeLength(u, s[1..]);
    }
  }

  lemma {:induction false} NormalizeConcat(u: Unicode, s: string, t: string)
    ensures Normalize(u, s + t) == Normalize(u, s) + Normalize(u, t)
  {
    if s == [] {
      assert s + t == t;
    } else {
      var head := if u.isSpace(s[0]) then [] else [u.lower(s[0])];
      calc {
        Normalize(u, s + t);
        { assert (s + t)[1..] == s[1..] + t; }
        head + Normalize(u, s[1..] + t);
        { NormalizeConcat(u, s[1..], t); }
        head + (Normalize(u, s[1..]) + Normalize(u, t));
        (head + Normalize(u, s[1..])) + Normalize(u, t);
      }
    }
  }

  lemma CutAfterHead(head: string, rest: string, k: nat)
    requires |head| <= k <= |head| + |rest|
    ensures (head + rest)[..k] == head + rest[..k - |head|]
    ensures (head + rest)[k..] == rest[k - |head|..]
  {
  }

  /** Every prefix of a normalised text is the normal form of some prefix of the text. */
  lemma {:induction false} PrefixPreimage(u: Unicode, s: string, k: nat) returns (p: nat)
    requires k <= |Normalize(u, s)|
    ensures p <= |s|
    ensures Normalize(u, s[..p]) == Normalize(u, s)[..k]
    ensures Normalize(u, s[p..]) == Normalize(u, s)[k..]
  {
    if k == 0 {
      p := 0;
      assert s[0..] == s;
    } else {
      var first, rest := [s[0]], s[1..];
      assert s == first + rest;
      NormalizeConcat(u, first, rest);
      var head := Normalize(u, first);
      NormalizeLength(u, first);
      var q := PrefixPreimage(u, rest, k - |head|);
      p := q + 1;
      assert s[..p] == first + rest[..q] && s[p..] == rest[q..];
      NormalizeConcat(u, first, rest[..q]);
      CutAfterHead(head, Normalize(u, rest), k);
    }
  }

  /** Every slice of a normalised text is the normal form of some slice of the text. */
  lemma SlicePreimage(u: Unicode, text: string, i: nat, j: nat) returns (a: nat, b: nat)
    requires i <= j <= |Normalize(u, text)|
    ensures a <= b <= |text|
    ensures Normalize(u, text[a..b]) == Normalize(u, text)[i..j]
  {
    a := PrefixPreimage(u, text, i);
    var n := PrefixPreimage(u, text[a..], j - i);
    b := a + n;
    assert text[a..b] == text[a..][..n];
  }

  /** The normal form of a slice occurs in the normal form of the text. */
  lemma SliceOccurs(u: Unicode, text: string, a: nat, b: nat)
    requires a <= b <= |text|
    ensures Contains(Normalize(u, text), Normalize(u, text[a..b]))
  {
    var x, y, z := Normalize(u, text[..a]), Normalize(u, text[a..b]), Normalize(u, text[b..]);
    assert text == text[..a] + (text[a..b] + text[b..]);
    NormalizeConcat(u, text[..a], text[a..b] + text[b..]);
    NormalizeConcat(u, text[a..b], text[b..]);
    assert FoundAt(x + (y + z), y, |x|);
  }

  /** A quote passes the gate exactly when it has four visible runes and some contiguous
      slice of the resume normalises to the same string. */
  lemma GateIff(u: Unicode, text: string, quote: string)
    ensures ContainsNormalized(u, text, quote)
       <==> && Visible(u, quote) >= 4
            && exists a: nat, b: nat | a <= b <= |text| ::
                 Normalize(u, text[a..b]) == Normalize(u, quote)
  {
    NormalizeLength(u, quote);
    var needle, hay := Normalize(u, quote), Normalize(u, text);
    if Contains(hay, needle) {
      var i: nat :| i <= |hay| && FoundAt(hay, needle, i);
      var a, b := SlicePreimage(u, text, i, i + |needle|);
      assert Normalize(u, text[a..b]) == needle;
    }
    if a: nat, b: nat :| a <= b <= |text| && Normalize(u, text[a..b]) == needle {
      SliceOccurs(u, text, a, b);
    }
  }

  /** A slice of the resume passes the gate exactly when it has four visible runes. */
  lemma SliceContained(u: Unicode, text: string, a: nat, b: nat)
    requires a <= b <= |text|
    ensures ContainsNormalized(u, text, text[a..b]) <==> Visible(u, text[a..b]) >= MIN_QUOTE
  {
    NormalizeLength(u, text[a..b]);
    SliceOccurs(u, text, a, b);
  }

  /** The texts differ only in white space, which may stand anywhere, and in the case of other runes. */
  predicate SameApartFromCaseAndSpace(u: Unicode, s: string, t: string)
    decreases |s| + |t|
  {
    if s != [] && u.isSpace(s[0]) then SameApartFromCaseAndSpace(u, s[1..], t)
    else if t != [] && u.isSpace(t[0]) then SameApartFromCaseAndSpace(u, s, t[1..])
    else if s == [] || t == [] then s == t
    else u.lower(s[0]) == u.lower(t[0]) && SameApartFromCaseAndSpace(u, s[1..], t[1..])
  }

  lemma {:induction false} NormalFormsAgreeIff(u: Unicode, s: string, t: string)
    ensures Normalize(u, s) == Normalize(u, t) <==> SameApartFromCaseAndSpace(u, s, t)
    decreases |s| + |t|
  {
    if s != [] && u.isSpace(s[0]) {
      NormalFormsAgreeIff(u, s[1..], t);
    } else if t != [] && u.isSpace(t[0]) {
      NormalFormsAgreeIff(u, s, t[1..]);
    } else if s != [] && t != [] {
      NormalFormsAgreeIff(u, s[1..], t[1..]);
      assert Normalize(u, s)[1..] == Normalize(u, s[1..]) && Normalize(u, t)[1..] == Normalize(u, t[1..]);
    }
  }

  /** The gate ignores the case and the white space of both arguments. */
  lemma GateIgnoresCaseAndSpace(u: Unicode, text: string, quote: string, text': string, quote': string)
    requires SameApartFromCaseAndSpace(u, text, text') && SameApartFromCaseAndSpace(u, quote, quote')
    ensures ContainsNormalized(u, text, quote) == ContainsNormalized(u, text', quote')
  {
    NormalFormsAgreeIff(u, text, text');
    NormalFormsAgreeIff(u, quote, quote');
  }
}
