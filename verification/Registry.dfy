/** The read-only tools offered to the model. */
module Registry {
  import opened Wrappers
  import opened Evidence
  import opened Search
  import opened Greedy
  import Lines

  /** A decoded JSON argument. */
  datatype Json = Text(s: string) | Number(x: real) | List(items: seq<Json>) | Other

  datatype ToolCall = ToolCall(id: string, name: string, arguments: map<string, Json>)

  datatype Verdict = Verdict(quote: string, verified: bool)

  datatype Payload =
    | FixedConstraints
    | FixedJob
    | Sections(page: Lines.Page)
    | Matches(query: string, windows: seq<Window>)
    | Verdicts(items: seq<Verdict>, allVerified: bool)

  datatype Output = Output(payload: Payload, count: nat)

  datatype ToolError = NotAllowlisted | UnexpectedArgument | BadStartLine | BadMaxLines | BadQuery | BadQuotes | BadQuote

  const ALLOWED := {
    "case.read_constraints", "job.read_fixed_context", "resume.read_sections",
    "resume.search_evidence", "evidence.verify_quotes"}

  function ArgumentKeys(name: string): set<string> {
    if name == "resume.read_sections" then {"start_line", "max_lines"}
    else if name == "resume.search_evidence" then {"query"}
    else if name == "evidence.verify_quotes" then {"quotes"}
    else {}
  }

  function IntegerArg(arguments: map<string, Json>, key: string, fallback: int): Option<int> {
    if key !in arguments then Some(fallback)
    else if arguments[key].Number? && arguments[key].x == arguments[key].x.Floor as real then Some(arguments[key].x.Floor)
    else None
  }

  function TrimLeft(u: Unicode, s: string): string {
    if s != [] && u.isSpace(s[0]) then TrimLeft(u, s[1..]) else s
  }

  function TrimRight(u: Unicode, s: string): string {
    if s != [] && u.isSpace(s[|s| - 1]) then TrimRight(u, s[..|s| - 1]) else s
  }

  function Trim(u: Unicode, s: string): string {
    TrimRight(u, TrimLeft(u, s))
  }

  function QueryOf(u: Unicode, arguments: map<string, Json>): string {
    if "query" in arguments && arguments["query"].Text? then Trim(u, arguments["query"].s) else ""
  }

  predicate Quotable(u: Unicode, raw: Json) {
    raw.Text? && Visible(u, raw.s) > 0 && |raw.s| <= 500
  }

  /** The first reason to reject a call, in the order of the checks. */
  function Rejection(u: Unicode, call: ToolCall): Option<ToolError> {
    if call.name !in ALLOWED then Some(NotAllowlisted)
    else if !(call.arguments.Keys <= ArgumentKeys(call.name)) then Some(UnexpectedArgument)
    else if call.name == "resume.read_sections" then
      var start, limit := IntegerArg(call.arguments, "start_line", 0), IntegerArg(call.arguments, "max_lines", 120);
      if start.None? || start.value < 0 then Some(BadStartLine)
      else if limit.None? || !(1 <= limit.value <= 200) then Some(BadMaxLines)
      else None
    else if call.name == "resume.search_evidence" then
      if 1 <= |QueryOf(u, call.arguments)| <= 256 then None else Some(BadQuery)
    else if call.name == "evidence.verify_quotes" then
      if "quotes" !in call.arguments || !call.arguments["quotes"].List? || !(1 <= |call.arguments["quotes"].items| <= 20)
      then Some(BadQuotes)
      else if exists raw | raw in call.arguments["quotes"].items :: !Quotable(u, raw) then Some(BadQuote)
      else None
    else None
  }

  ghost predicate Judges(u: Unicode, text: string, quotes: seq<Json>, items: seq<Verdict>) {
    && |items| == |quotes|
    && forall i | 0 <= i < |quotes| ::
         quotes[i].Text? && items[i] == Verdict(quotes[i].s, ContainsNormalized(u, text, quotes[i].s))
  }

  /** What an accepted call reports about the resume. */
  ghost predicate Answers(u: Unicode, text: string, call: ToolCall, out: Output)
    requires Rejection(u, call).None?
  {
    match out.payload
    case FixedConstraints => call.name == "case.read_constraints" && out.count == 1
    case FixedJob => call.name == "job.read_fixed_context" && out.count == 1
    case Sections(page) =>
      && call.name == "resume.read_sections"
      && page == Lines.PageOf(
           Lines.Split(text), IntegerArg(call.arguments, "start_line", 0).value, IntegerArg(call.arguments, "max_lines", 120).value)
      && out.count == |page.lines|
    case Matches(query, windows) =>
      && call.name == "resume.search_evidence"
      && query == QueryOf(u, call.arguments)
      && Leftmost(Hits(u, text, query), |query|, |text| + 1, 5, Offsets(windows))
      && (forall k | 0 <= k < |windows| :: Shows(text, query, windows[k]))
      && out.count == |windows|
    case Verdicts(items, allVerified) =>
      && call.name == "evidence.verify_quotes"
      && Judges(u, text, call.arguments["quotes"].items, items)
      && (allVerified <==> forall i | 0 <= i < |items| :: items[i].verified)
      && out.count == |items|
  }

  method Execute(u: Unicode, text: string, call: ToolCall) returns (r: Result<Output, ToolError>)
    ensures r.Err? <==> Rejection(u, call).Some?
    ensures r.Err? ==> r.error == Rejection(u, call).value
    ensures r.Ok? ==> Answers(u, text, call, r.value)
    ensures r == Err(NotAllowlisted) <==>
      call.name !in {"case.read_constraints", "job.read_fixed_context", "resume.read_sections", "resume.search_evidence",
                     "evidence.verify_quotes"}
    ensures r.Ok? ==>
      && (call.name == "resume.read_sections" ==> call.arguments.Keys <= {"start_line", "max_lines"})
      && (call.name == "resume.search_evidence" ==> call.arguments.Keys <= {"query"})
      && (call.name == "evidence.verify_quotes" ==> call.arguments.Keys <= {"quotes"})
      && (call.name in {"case.read_constraints", "job.read_fixed_context"} ==> call.arguments == map[])
    ensures r.Ok? && r.value.payload.Matches? ==>
      && "query" in call.arguments && call.arguments["query"].Text?
      && r.value.payload.query == Trim(u, call.arguments["query"].s) && 1 <= |r.value.payload.query| <= 256
  {
    if call.name !in ALLOWED {
      return Err(NotAllowlisted);
    }
    if !(call.arguments.Keys <= ArgumentKeys(call.name)) {
      return Err(UnexpectedArgument);
    }
    match call.name
    case "case.read_constraints" =>
      return Ok(Output(FixedConstraints, 1));
    case "job.read_fixed_context" =>
      return Ok(Output(FixedJob, 1));
    case "resume.read_sections" =>
      r := ReadSections(text, call.arguments);
    case "resume.search_evidence" =>
      var query := QueryOf(u, call.arguments);
      if query == "" || |query| > 256 {
        return Err(BadQuery);
      }
      var windows := SearchWindows(u, text, query, 5);
      return Ok(Output(Matches(query, windows), |windows|));
    case _ =>
      r := VerifyQuotes(u, text, call.arguments);
  }

  method ReadSections(text: string, arguments: map<string, Json>) returns (r: Result<Output, ToolError>)
    ensures var start, limit := IntegerArg(arguments, "start_line", 0), IntegerArg(arguments, "max_lines", 120);
      && (r == Err(BadStartLine) <==> start.None? || start.value < 0)
      && (r == Err(BadMaxLines) <==> start.Some? && start.value >= 0 && (limit.None? || !(1 <= limit.value <= 200)))
      && (r.Err? ==> r.error in {BadStartLine, BadMaxLines})
      && (r.Ok? ==>
            && r.value.payload == Sections(Lines.PageOf(Lines.Split(text), start.value, limit.value))
            && r.value.count == |r.value.payload.page.lines|)
    ensures r.Ok? ==>
      && ("start_line" in arguments ==> arguments["start_line"].Number?)
      && ("max_lines" in arguments ==> arguments["max_lines"].Number?)
      && var lines, page := Lines.Split(text), r.value.payload.page;
         var start := if "start_line" in arguments then arguments["start_line"].x else 0.0;
         var limit := if "max_lines" in arguments then arguments["max_lines"].x else 120.0;
         && start >= 0.0 && start == start.Floor as real && 1.0 <= limit <= 200.0 && limit == limit.Floor as real
         && page.total == |lines| && page.start == (if start.Floor > |lines| then |lines| else start.Floor)
         && page.next == (if page.start + limit.Floor > |lines| then |lines| else page.start + limit.Floor)
         && page.lines == lines[page.start..page.next]
  {
    var startArg := IntegerArg(arguments, "start_line", 0);
    if startArg.None? || startArg.value < 0 {
      return Err(BadStartLine);
    }
    var limitArg := IntegerArg(arguments, "max_lines", 120);
    if limitArg.None? || limitArg.value < 1 || limitArg.value > 200 {
      return Err(BadMaxLines);
    }
    var lines, start := Lines.Split(text), startArg.value;
    if start > |lines| {
      start := |lines|;
    }
    var end := start + limitArg.value;
    if end > |lines| {
      end := |lines|;
    }
    return Ok(Output(Sections(Lines.Page(start, end, |lines|, lines[start..end])), |lines[start..end]|));
  }

  /** Trimming removes exactly the white space at both ends. */
  lemma TrimIsSlice(u: Unicode, s: string) returns (a: nat, b: nat)
    ensures a <= b <= |s| && Trim(u, s) == s[a..b]
    ensures forall i | 0 <= i < a || b <= i < |s| :: u.isSpace(s[i])
    ensures a < b ==> !u.isSpace(s[a]) && !u.isSpace(s[b - 1])
  {
    a := TrimLeftIsSuffix(u, s);
    var n := TrimRightIsPrefix(u, s[a..]);
    b := a + n;
    assert s[a..][..n] == s[a..b];
    forall i | b <= i < |s| ensures u.isSpace(s[i]) {
      assert s[i] == s[a..][i - a];
    }
    if a < b {
      assert s[a..][0] == s[a] && s[a..][n - 1] == s[b - 1];
    }
  }

  lemma {:induction false} TrimLeftIsSuffix(u: Unicode, s: string) returns (a: nat)
    ensures a <= |s| && TrimLeft(u, s) == s[a..] && (a < |s| ==> !u.isSpace(s[a]))
    ensures forall i | 0 <= i < a :: u.isSpace(s[i])
  {
    if s != [] && u.isSpace(s[0]) {
      var c := TrimLeftIsSuffix(u, s[1..]);
      a := c + 1;
      assert s[1..][c..] == s[a..];
      forall i | 0 <= i < a ensures u.isSpace(s[i]) {
        assert i > 0 ==> s[i] == s[1..][i - 1];
      }
    } else {
      a := 0;
    }
  }

  lemma {:induction false} TrimRightIsPrefix(u: Unicode, s: string) returns (b: nat)
    ensures b <= |s| && TrimRight(u, s) == s[..b] && (b > 0 ==> !u.isSpace(s[b - 1]))
    ensures forall i | b <= i < |s| :: u.isSpace(s[i])
  {
    if s != [] && u.isSpace(s[|s| - 1]) {
      var t := s[..|s| - 1];
      b := TrimRightIsPrefix(u, t);
      assert t[..b] == s[..b];
      forall i | b <= i < |s| ensures u.isSpace(s[i]) {
        assert i < |t| ==> s[i] == t[i];
      }
    } else {
      b := |s|;
    }
  }

  method VerifyQuotes(u: Unicode, text: string, arguments: map<string, Json>) returns (r: Result<Output, ToolError>)
    ensures r == Err(BadQuotes) <==>
      "quotes" !in arguments || !arguments["quotes"].List? || !(1 <= |arguments["quotes"].items| <= 20)
    ensures r == Err(BadQuote) <==>
      && "quotes" in arguments && arguments["quotes"].List? && 1 <= |arguments["quotes"].items| <= 20
      && exists raw | raw in arguments["quotes"].items :: !Quotable(u, raw)
    ensures r.Err? ==> r.error in {BadQuotes, BadQuote}
    ensures r.Ok? ==>
      && r.value.payload.Verdicts?
      && Judges(u, text, arguments["quotes"].items, r.value.payload.items)
      && (r.value.payload.allVerified <==> forall i | 0 <= i < |r.value.payload.items| :: r.value.payload.items[i].verified)
      && r.value.count == |r.value.payload.items|
    ensures r.Ok? ==> forall raw | raw in arguments["quotes"].items :: raw.Text? && Visible(u, raw.s) > 0 && |raw.s| <= 500
  {
    if "quotes" !in arguments || !arguments["quotes"].List? || |arguments["quotes"].items| == 0 || |arguments["quotes"].items| > 20 {
      return Err(BadQuotes);
    }
    r := JudgeAll(u, text, arguments["quotes"].items);
  }

  method JudgeAll(u: Unicode, text: string, raws: seq<Json>) returns (r: Result<Output, ToolError>)
    ensures r == Err(BadQuote) <==> exists raw | raw in raws :: !Quotable(u, raw)
    ensures r.Err? ==> r.error == BadQuote
    ensures r.Ok? ==>
      && r.value.payload.Verdicts?
      && Judges(u, text, raws, r.value.payload.items)
      && (r.value.payload.allVerified <==> forall i | 0 <= i < |r.value.payload.items| :: r.value.payload.items[i].verified)
      && r.value.count == |r.value.payload.items|
  {
    var items: seq<Verdict>, verified := [], 0;
    for i := 0 to |raws|
      invariant Judges(u, text, raws[..i], items)
      invariant forall k | 0 <= k < i :: Quotable(u, raws[k])
      invariant 0 <= verified <= i
      invariant verified == i <==> forall k | 0 <= k < i :: items[k].verified
    {
      if !raws[i].Text? || Visible(u, raws[i].s) == 0 || |raws[i].s| > 500 {
        assert raws[i] in raws && !Quotable(u, raws[i]);
        return Err(BadQuote);
      }
      var found := ContainsNormalized(u, text, raws[i].s);
      if found {
        verified := verified + 1;
      }
      JudgesNext(u, text, raws, i, items, found);
      items := items + [Verdict(raws[i].s, found)];
    }
    assert raws[..|raws|] == raws;
    return Ok(Output(Verdicts(items, verified == |items|), |items|));
  }

  lemma JudgesNext(u: Unicode, text: string, raws: seq<Json>, i: nat, items: seq<Verdict>, found: bool)
    requires i < |raws| && raws[i].Text? && Judges(u, text, raws[..i], items) && found == ContainsNormalized(u, text, raws[i].s)
    ensures Judges(u, text, raws[..i + 1], items + [Verdict(raws[i].s, found)])
  {
  }
}
