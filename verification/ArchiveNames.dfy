/** Names of the members of the exported archive. */
module ArchiveNames {
  import opened Wrappers
  import opened Decimal

  lemma MiddleIsDetermined(front: string, a: string, b: string, back: string)
    requires front + a + back == front + b + back
    ensures a == b
  {
    var s := front + a + back;
    assert |a| == |b|;
    assert a == s[|front|..|front| + |a|] && b == s[|front|..|front| + |b|];
  }

  // ----- Candidate names -----

  /** Everything before the last dot and the rest; a name whose dots all lead it has no extension. */
  function SplitExtension(name: string): (r: (string, string))
    ensures r.0 + r.1 == name
    ensures r.1 != "" ==> r.1[0] == '.' && '.' !in r.1[1..] && exists i | 0 <= i < |r.0| :: r.0[i] != '.'
    ensures r.1 == "" ==> forall i, dot | 0 <= i < dot < |name| && name[dot] == '.' :: name[i] == '.'
  {
    var dot := LastDot(name);
    if dot < |name| && exists i | 0 <= i < dot :: name[i] != '.' then (name[..dot], name[dot..]) else (name, "")
  }

  /** The position of the last dot, or the length. */
  function LastDot(name: string): (dot: nat)
    ensures dot <= |name| && (dot < |name| ==> name[dot] == '.')
    ensures forall i | dot < i < |name| :: name[i] != '.'
    ensures dot == |name| ==> '.' !in name
  {
    if name == "" then 0
    else
      var n := |name| - 1;
      if name[n] == '.' then n
      else
        var dot := LastDot(name[..n]);
        if dot < n then dot else n + 1
  }

  /** A file to be stored: the application it belongs to, and its name on disk. */
  datatype File = File(applyId: string, name: string)

  function Stem(file: File): string {
    SplitExtension(file.name).0
  }

  function Extension(file: File): string {
    SplitExtension(file.name).1
  }

  /** The folder of the stored files and the marks around an application, which are the same for all. */
  datatype Style = Style(folder: string, open: string, close: string)

  function Front(style: Style, file: File): string {
    style.folder + Stem(file) + style.open + file.applyId + "-"
  }

  function Back(style: Style, file: File): string {
    style.close + Extension(file)
  }

  function Numbered(style: Style, file: File, suffix: nat): string {
    Front(style, file) + Digits(suffix) + Back(style, file)
  }

  /** The name tried first: the name on disk, with the application added if the name is shared. */
  function Base(style: Style, file: File, shared: bool): string {
    if shared then style.folder + Stem(file) + style.open + file.applyId + style.close + Extension(file)
    else style.folder + file.name
  }

  lemma NumberedIsInjective(style: Style, file: File, a: nat, b: nat)
    requires Numbered(style, file, a) == Numbered(style, file, b)
    ensures a == b
  {
    MiddleIsDetermined(Front(style, file), Digits(a), Digits(b), Back(style, file));
    DigitsAreInjective(a, b);
  }

  /** At most as many numbered names are taken as there are taken names. */
  lemma {:induction false} TakenNumbersAreBounded(style: Style, file: File, k: nat, used: set<string>)
    requires k >= 2 && forall i | 2 <= i < k :: Numbered(style, file, i) in used
    ensures k - 2 <= |used|
  {
    if k > 2 {
      var last := Numbered(style, file, k - 1);
      forall i | 2 <= i < k - 1 ensures Numbered(style, file, i) in used - {last} {
        if Numbered(style, file, i) == last {
          NumberedIsInjective(style, file, i, k - 1);
        }
      }
      TakenNumbersAreBounded(style, file, k - 1, used - {last});
    }
  }

  /** The name is the first free one of the base name and the numbered names from 2 on. */
  ghost predicate FirstFree(style: Style, file: File, shared: bool, used: set<string>, name: string) {
    && name !in used
    && (name == Base(style, file, shared) ||
        (Base(style, file, shared) in used && exists k: nat :: k >= 2 && IsNumber(style, file, used, name, k)))
  }

  ghost predicate IsNumber(style: Style, file: File, used: set<string>, name: string, k: nat) {
    name == Numbered(style, file, k) && forall i | 2 <= i < k :: Numbered(style, file, i) in used
  }

  /** Finds a free name; the search ends for every set of used names. */
  method FreeName(style: Style, file: File, shared: bool, used: set<string>) returns (name: string)
    ensures FirstFree(style, file, shared, used, name)
  {
    name := Base(style, file, shared);
    if name in used {
      var suffix := 2;
      while name in used
        invariant suffix >= 2
        invariant forall i | 2 <= i < suffix - 1 :: Numbered(style, file, i) in used
        invariant if suffix == 2 then name == Base(style, file, shared) else name == Numbered(style, file, suffix - 1)
        decreases |used| + 2 - suffix
      {
        TakenNumbersAreBounded(style, file, suffix, used);
        name := Numbered(style, file, suffix);
        suffix := suffix + 1;
      }
      assert IsNumber(style, file, used, name, suffix - 1);
    }
  }

  // ----- Naming all files -----

  function NamesOf(files: seq<File>): (names: seq<string>)
    ensures |names| == |files| && forall i | 0 <= i < |files| :: names[i] == files[i].name
  {
    if files == [] then [] else NamesOf(files[..|files| - 1]) + [files[|files| - 1].name]
  }

  /** More than one file has this name on disk. */
  predicate Shared(files: seq<File>, name: string) {
    multiset(NamesOf(files))[name] > 1
  }

  function Elements(s: seq<string>): (r: set<string>)
    ensures forall x :: x in r <==> x in s
  {
    set x | x in s
  }

  /** How often every name on disk occurs. */
  method CountNames(files: seq<File>) returns (counts: map<string, nat>)
    ensures forall x :: x in counts <==> x in NamesOf(files)
    ensures forall x | x in counts :: counts[x] == multiset(NamesOf(files))[x]
  {
    var names := NamesOf(files);
    counts := map[];
    for i := 0 to |names|
      invariant forall x :: x in counts <==> x in names[..i]
      invariant forall x | x in counts :: counts[x] == multiset(names[..i])[x]
    {
      TakeNext(names, i);
      var name := names[i];
      assert multiset(names[..i + 1]) == multiset(names[..i]) + multiset{name};
      counts := counts[name := if name in counts then counts[name] + 1 else 1];
    }
    assert names[..|names|] == names;
  }

  /** File k has the first name free after the files before it. */
  ghost predicate WellNamed(style: Style, files: seq<File>, names: seq<string>, k: nat) {
    k < |names| <= |files| && FirstFree(style, files[k], Shared(files, files[k].name), Elements(names[..k]), names[k])
  }

  lemma NamedNext(style: Style, files: seq<File>, names: seq<string>, name: string)
    requires |names| < |files| && Distinct(names) && forall k: nat | k < |names| :: WellNamed(style, files, names, k)
    requires FirstFree(style, files[|names|], Shared(files, files[|names|].name), Elements(names), name)
    ensures Distinct(names + [name]) && forall k: nat | k < |names| + 1 :: WellNamed(style, files, names + [name], k)
  {
    var names' := names + [name];
    assert name !in Elements(names);
    assert forall i | 0 <= i < |names| :: names[i] in names;
    forall k: nat | k < |names'| ensures WellNamed(style, files, names', k) {
      if k < |names| {
        assert WellNamed(style, files, names, k) && names'[..k] == names[..k];
      } else {
        assert names'[..k] == names;
      }
    }
  }

  lemma ElementsNext(names: seq<string>, name: string)
    ensures Elements(names + [name]) == Elements(names) + {name}
  {
  }

  /** Every stored file gets its own name: the first free one of its candidates, in the order of the files. */
  method NameFiles(style: Style, files: seq<File>) returns (names: seq<string>)
    ensures |names| == |files| && Distinct(names)
    ensures forall k: nat | k < |files| :: WellNamed(style, files, names, k)
  {
    var counts: map<string, nat> := CountNames(files);
    var used: set<string> := {};
    names := [];
    for i := 0 to |files|
      invariant |names| == i && Distinct(names) && used == Elements(names)
      invariant forall k: nat | k < i :: WellNamed(style, files, names, k)
    {
      assert NamesOf(files)[i] in NamesOf(files);
      var name := FreeName(style, files[i], counts[files[i].name] > 1, used);
      NamedNext(style, files, names, name);
      ElementsNext(names, name);
      used := used + {name};
      names := names + [name];
    }
  }

  /** A name with the application, and with a number if it is not 0, between stem and extension. */
  predicate HasApplication(style: Style, file: File, name: string, number: nat) {
    var (stem, extension) := SplitExtension(file.name);
    name == style.folder + stem + style.open + file.applyId + (if number == 0 then "" else "-" + Digits(number)) + style.close + extension
  }

  lemma SharedNameShape(style: Style, file: File)
    ensures HasApplication(style, file, Base(style, file, true), 0)
  {
    var front := style.folder + Stem(file) + style.open + file.applyId;
    assert front + "" == front;
  }

  lemma NumberedShape(style: Style, file: File, n: nat)
    requires n >= 1
    ensures HasApplication(style, file, Numbered(style, file, n), n)
  {
    var front, digits := style.folder + Stem(file) + style.open + file.applyId, Digits(n);
    assert front + "-" + digits + (style.close + Extension(file)) == front + ("-" + digits) + style.close + Extension(file);
  }

  /** What the names look like: the name on disk if it is the only file of that name, else with the application between
      stem and extension; and if that is taken, with the application and a number from 2. */
  lemma NameShapes(style: Style, files: seq<File>, names: seq<string>, k: nat)
    requires |names| == |files| && WellNamed(style, files, names, k)
    ensures var occurrences := multiset(NamesOf(files))[files[k].name];
      || (occurrences <= 1 && names[k] == style.folder + files[k].name)
      || (occurrences > 1 && HasApplication(style, files[k], names[k], 0))
      || exists n: nat | n >= 2 :: HasApplication(style, files[k], names[k], n)
  {
    var shared := Shared(files, files[k].name);
    if names[k] != Base(style, files[k], shared) {
      var n: nat :| n >= 2 && IsNumber(style, files[k], Elements(names[..k]), names[k], n);
      NumberedShape(style, files[k], n);
    } else if shared {
      SharedNameShape(style, files[k]);
    }
  }
}
