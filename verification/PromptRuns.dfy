/** Any number of administrators working on the prompt store and the model connection. */
module PromptRuns {
  import opened Wrappers
  import opened PromptHarness
  import opened PromptStore

  /** A prompt test in progress: what it has read so far, outside any transaction. */
  datatype Session =
    | Checked
    | HasDraft(d: nat, hash: string)
    | Running(d: nat, hash: string, fingerprint: string)

  datatype State = State(records: seq<Record>, link: Link, sessions: map<nat, Session>)

  datatype Step =
    | SaveConnection(p: Payload)
    | FailConnectionTest
    | MarkConnection(mode: Option<Mode>)
    | Save(raw: RawModules, lock: int)
    | Reset(toActive: bool, lock: int)
    | Restore(i: nat, version: Version, lock: int)
    | Publish(lock: int)
    | TestCheck(id: nat)
    | TestRead(id: nat)
    | TestStart(id: nat)
    | TestPass(id: nat, modelName: string)
    | TestFail(id: nat)

  ghost predicate Enabled(s: State, step: Step) {
    && Usable(s.records)
    && (forall id | id in s.sessions && !s.sessions[id].Checked? :: s.sessions[id].d < |s.records|)
    && match step
       case Restore(i, version, _) => Restorable(s.records, version, i)
       case TestCheck(id) => id !in s.sessions
       case TestRead(id) => id in s.sessions && s.sessions[id].Checked?
       case TestStart(id) => id in s.sessions && s.sessions[id].HasDraft?
       case TestPass(id, _) => id in s.sessions && s.sessions[id].Running?
       case TestFail(id) => id in s.sessions && s.sessions[id].Running?
       case _ => true
  }

  ghost function Either(s: State, r: Result<seq<Record>, Error>): (State, Option<Error>) {
    match r
    case Ok(records) => (s.(records := records), None)
    case Err(error) => (s, Some(error))
  }

  /** One atomic step and the error it reports, if any. */
  ghost function Apply(env: Env, s: State, step: Step): (State, Option<Error>)
    requires Enabled(s, step)
  {
    match step
    case SaveConnection(p) =>
      (match Connected(env, s.link, p)
       case Ok(link) => (s.(link := link, records := Cleared(s.records)), None)
       case Err(error) => (s, Some(error)))
    case FailConnectionTest => (s.(link := Invalidated(s.link), records := Cleared(s.records)), None)
    case MarkConnection(mode) =>
      var (records, link, error) := Marked(env, s.records, s.link, mode);
      (s.(records := records, link := link), error)
    case Save(raw, lock) => Either(s, Saved(env, s.records, raw, lock))
    case Reset(toActive, lock) =>
      Either(s, Replaced(env, s.records, if toActive then Some(Find(s.records, Active)) else None, lock))
    case Restore(i, _, lock) => Either(s, Replaced(env, s.records, Some(i), lock))
    case Publish(lock) => Either(s, Published(env, s.records, s.link, lock))
    case TestCheck(id) =>
      if ConnectionTested(env, s.link) then (s.(sessions := s.sessions[id := Checked]), None) else (s, Some(NotTested))
    case TestRead(id) =>
      var d := Find(s.records, Draft);
      (s.(sessions := s.sessions[id := HasDraft(d, s.records[d].hash)]), None)
    case TestStart(id) =>
      (match Fingerprint(env, s.link)
       case None => (s.(sessions := s.sessions - {id}), Some(NotConfigured))
       case Some(f) => (s.(sessions := s.sessions[id := Running(s.sessions[id].d, s.sessions[id].hash, f)]), None))
    case TestPass(id, modelName) =>
      var t := s.sessions[id];
      Either(s.(sessions := s.sessions - {id}), Recorded(env, s.records, s.link, t.d, Test(t.hash, t.fingerprint, modelName)))
    case TestFail(id) =>
      var t := s.sessions[id];
      (s.(sessions := s.sessions - {id}, records := ClearedIfUnchanged(s.records, t.d, t.hash)), None)
  }

  // ----- The layout of the store -----

  /** The last record is the draft, the one before it is active, and the earlier ones are archived;
      a published record carries its position as release sequence, and every hash fits its modules. */
  ghost predicate RecordOk(env: Env, records: seq<Record>, i: nat)
    requires i < |records|
  {
    var r, n := records[i], |records|;
    && r.status == (if i == n - 1 then Draft else if i == n - 2 then Active else Archived)
    && r.sequence == (if i == n - 1 then None else Some(i))
    && (if i == n - 1 then r.version.DraftAfter?
        else if i == 0 then r.version.Seed?
        else r.version.Release? && r.version.sequence == i)
    && r.hash == env.digest(r.modules)
  }

  ghost predicate Layout(env: Env, records: seq<Record>) {
    |records| >= 2 && forall i | 0 <= i < |records| :: RecordOk(env, records, i)
  }

  ghost predicate SessionsOk(s: State) {
    forall id | id in s.sessions && !s.sessions[id].Checked? :: s.sessions[id].d < |s.records|
  }

  ghost predicate Inv(env: Env, s: State) {
    Layout(env, s.records) && SessionsOk(s)
  }

  lemma LayoutUsable(env: Env, records: seq<Record>)
    requires Layout(env, records)
    ensures Usable(records)
    ensures Find(records, Draft) == |records| - 1 && Find(records, Active) == |records| - 2
  {
    var n := |records|;
    assert RecordOk(env, records, n - 1) && RecordOk(env, records, n - 2);
    assert records[..n - 1][n - 2] == records[n - 2];
  }

  lemma LayoutSequence(env: Env, records: seq<Record>)
    requires Layout(env, records)
    ensures NextSequence(records) == |records| - 1
  {
    assert RecordOk(env, records, |records| - 1);
    NextSequenceOfPrefix(env, records, |records| - 1);
  }

  lemma {:induction false} NextSequenceOfPrefix(env: Env, records: seq<Record>, k: nat)
    requires Layout(env, records) && 1 <= k < |records|
    ensures NextSequence(records[..k]) == k
  {
    assert RecordOk(env, records, k - 1);
    assert records[..k][..k - 1] == records[..k - 1];
    if k > 1 {
      NextSequenceOfPrefix(env, records, k - 1);
    }
  }

  // ----- The three kinds of change -----

  /** Only test fields differ. */
  ghost predicate SameButTests(r: seq<Record>, q: seq<Record>) {
    |r| == |q| && forall i | 0 <= i < |r| :: q[i] == r[i].(test := q[i].test)
  }

  /** The draft got new content: its lock moved on and its test is gone. */
  ghost predicate ContentWritten(env: Env, r: seq<Record>, q: seq<Record>, lock: int) {
    && |r| == |q| >= 1
    && var d := |r| - 1;
       && r[d].lock == lock
       && (forall i | 0 <= i < d :: q[i] == r[i])
       && q[d] == Rewritten(env, r[d], q[d].modules, q[d].restoredFrom)
  }

  /** The draft became the active release, with the content it had, and a new draft follows it. */
  ghost predicate Released(r: seq<Record>, q: seq<Record>, lock: int) {
    && |q| == |r| + 1 && |r| >= 2
    && var d := |r| - 1;
       && r[d].lock == lock
       && (forall i | 0 <= i < d - 1 :: q[i] == r[i])
       && q[d - 1] == r[d - 1].(status := Archived)
       && q[d] == r[d].(status := Active, version := q[d].version, sequence := Some(d), lock := lock + 1)
       && q[d].version.Release? && q[d].version.sequence == d
       && q[d + 1] == Record(DraftAfter(q[d].version), Draft, None, r[d].modules, r[d].hash, 0, None, Some(d))
  }

  predicate WritesContent(step: Step) {
    step.Save? || step.Reset? || step.Restore?
  }

  ghost predicate Changed(env: Env, s: State, step: Step, s': State, error: Option<Error>) {
    if error.None? && WritesContent(step) then ContentWritten(env, s.records, s'.records, step.lock)
    else if error.None? && step.Publish? then Released(s.records, s'.records, step.lock)
    else SameButTests(s.records, s'.records)
  }

  lemma PublishChanges(env: Env, records: seq<Record>, link: Link, lock: int)
    requires Layout(env, records) && Usable(records)
    ensures match Published(env, records, link, lock)
            case Ok(q) => Released(records, q, lock)
            case Err(_) => true
  {
    LayoutUsable(env, records);
    LayoutSequence(env, records);
  }

  lemma WriteChanges(env: Env, s: State, step: Step)
    requires Inv(env, s) && Enabled(s, step) && WritesContent(step)
    ensures Changed(env, s, step, Apply(env, s, step).0, Apply(env, s, step).1)
  {
    LayoutUsable(env, s.records);
  }

  lemma StepChanges(env: Env, s: State, step: Step)
    requires Inv(env, s) && Enabled(s, step)
    ensures Changed(env, s, step, Apply(env, s, step).0, Apply(env, s, step).1)
  {
    if step.Publish? {
      PublishChanges(env, s.records, s.link, step.lock);
    } else if WritesContent(step) {
      WriteChanges(env, s, step);
    }
  }

  lemma SameButTestsKeeps(env: Env, r: seq<Record>, q: seq<Record>)
    requires Layout(env, r) && SameButTests(r, q)
    ensures Layout(env, q)
  {
    forall i | 0 <= i < |q| ensures RecordOk(env, q, i) {
      assert RecordOk(env, r, i);
    }
  }

  lemma ContentWrittenKeeps(env: Env, r: seq<Record>, q: seq<Record>, lock: int)
    requires Layout(env, r) && ContentWritten(env, r, q, lock)
    ensures Layout(env, q)
  {
    forall i | 0 <= i < |q| ensures RecordOk(env, q, i) {
      assert RecordOk(env, r, i);
    }
  }

  lemma ReleasedKeeps(env: Env, r: seq<Record>, q: seq<Record>, lock: int)
    requires Layout(env, r) && Released(r, q, lock)
    ensures Layout(env, q)
  {
    forall i | 0 <= i < |q| ensures RecordOk(env, q, i) {
      assert RecordOk(env, r, if i < |r| then i else i - 1);
    }
  }

  lemma StepKeepsSessions(env: Env, s: State, step: Step)
    requires Inv(env, s) && Enabled(s, step)
    ensures |s.records| <= |Apply(env, s, step).0.records| ==> SessionsOk(Apply(env, s, step).0)
  {
    LayoutUsable(env, s.records);
  }

  lemma StepKeeps(env: Env, s: State, step: Step)
    requires Inv(env, s) && Enabled(s, step)
    ensures Inv(env, Apply(env, s, step).0)
  {
    var (s', error) := Apply(env, s, step);
    StepChanges(env, s, step);
    StepKeepsSessions(env, s, step);
    if error.None? && WritesContent(step) {
      ContentWrittenKeeps(env, s.records, s'.records, step.lock);
    } else if error.None? && step.Publish? {
      ReleasedKeeps(env, s.records, s'.records, step.lock);
    } else {
      SameButTestsKeeps(env, s.records, s'.records);
    }
  }

  // ----- Whole runs -----

  /** The states of the system, the steps between them and what each step reported. */
  datatype Run = Run(states: seq<State>, steps: seq<Step>, errors: seq<Option<Error>>)

  /** A fresh installation: the seeded active version and its draft, nothing tested. */
  ghost predicate Start(env: Env, s: State) {
    && Layout(env, s.records) && |s.records| == 2 && s.sessions == map[]
    && s.records[0].test.None? && s.records[1].test.None? && s.link.testedFingerprint.None?
  }

  ghost predicate Follows(env: Env, run: Run, i: nat) {
    && |run.states| == |run.steps| + 1 == |run.errors| + 1 && i < |run.steps|
    && Enabled(run.states[i], run.steps[i])
    && (run.states[i + 1], run.errors[i]) == Apply(env, run.states[i], run.steps[i])
  }

  ghost predicate IsRun(env: Env, run: Run) {
    && |run.states| == |run.steps| + 1 == |run.errors| + 1
    && Start(env, run.states[0])
    && forall i: nat | i < |run.steps| :: Follows(env, run, i)
  }

  lemma {:induction false} RunInv(env: Env, run: Run, i: nat)
    requires IsRun(env, run) && i < |run.states|
    ensures Inv(env, run.states[i])
  {
    if i > 0 {
      RunInv(env, run, i - 1);
      assert Follows(env, run, i - 1);
      StepKeeps(env, run.states[i - 1], run.steps[i - 1]);
    }
  }

  lemma RunChanges(env: Env, run: Run, i: nat)
    requires IsRun(env, run) && i < |run.steps|
    ensures Inv(env, run.states[i]) && Inv(env, run.states[i + 1])
    ensures Follows(env, run, i)
    ensures Changed(env, run.states[i], run.steps[i], run.states[i + 1], run.errors[i])
  {
    RunInv(env, run, i);
    RunInv(env, run, i + 1);
    assert Follows(env, run, i);
    StepChanges(env, run.states[i], run.steps[i]);
  }

  lemma PublishedStep(env: Env, s: State, step: Step, s': State, error: Option<Error>, r: nat)
    requires Changed(env, s, step, s', error) && Layout(env, s.records) && Layout(env, s'.records)
    requires r < |s.records| && !s.records[r].status.Draft?
    ensures r < |s'.records| && !s'.records[r].status.Draft?
    ensures s'.records[r] == s.records[r].(status := s'.records[r].status, test := s'.records[r].test)
  {
    assert RecordOk(env, s.records, r);
    assert RecordOk(env, s'.records, r);
  }

  /** Once published, a record keeps its content, version, sequence and lock for ever. */
  lemma {:induction false} PublishedRecordsAreImmutable(env: Env, run: Run, i: nat, j: nat, r: nat)
    requires IsRun(env, run) && i <= j < |run.states|
    requires r < |run.states[i].records| && !run.states[i].records[r].status.Draft?
    ensures r < |run.states[j].records| && !run.states[j].records[r].status.Draft?
    ensures var before, after := run.states[i].records[r], run.states[j].records[r];
      after == before.(status := after.status, test := after.test)
  {
    if i < j {
      PublishedRecordsAreImmutable(env, run, i, j - 1, r);
      RunChanges(env, run, j - 1);
      PublishedStep(env, run.states[j - 1], run.steps[j - 1], run.states[j], run.errors[j - 1], r);
    }
  }

  /** Release sequences grow with every publication, and no two versions share a name. */
  lemma ReleasesAreOrdered(env: Env, run: Run, i: nat, a: nat, b: nat)
    requires IsRun(env, run) && i < |run.states| && a < b < |run.states[i].records|
    ensures var records := run.states[i].records;
      && records[a].version != records[b].version
      && records[a].sequence.Some?
      && (records[b].sequence.Some? ==> records[a].sequence.value < records[b].sequence.value)
  {
    RunInv(env, run, i);
    assert RecordOk(env, run.states[i].records, a) && RecordOk(env, run.states[i].records, b);
  }

  /** In every reachable store exactly one record is the draft and exactly one is active, and every
      hash fits its modules. */
  lemma OneDraftOneActive(env: Env, run: Run, i: nat, r: nat)
    requires IsRun(env, run) && i < |run.states| && r < |run.states[i].records|
    ensures var records := run.states[i].records;
      && (records[r].status.Draft? <==> r == |records| - 1)
      && (records[r].status.Active? <==> r == |records| - 2)
      && records[r].hash == env.digest(records[r].modules)
  {
    RunInv(env, run, i);
    assert RecordOk(env, run.states[i].records, r);
  }

  // ----- The optimistic lock -----

  /** The lock of record d did not go back, and if it stood still so did the content. */
  ghost predicate Advanced(r: seq<Record>, q: seq<Record>, d: nat) {
    && d < |r| && d < |q| && r[d].lock <= q[d].lock
    && (r[d].lock == q[d].lock ==> q[d] == r[d].(status := q[d].status, test := q[d].test))
  }

  /** Step i wrote content: a save, reset or restore that was accepted. */
  predicate Wrote(run: Run, i: nat) {
    i < |run.steps| && i < |run.errors| && WritesContent(run.steps[i]) && run.errors[i].None?
  }

  lemma StepAdvances(env: Env, run: Run, i: nat, d: nat)
    requires IsRun(env, run) && i < |run.steps| && d < |run.states[i].records|
    ensures Advanced(run.states[i].records, run.states[i + 1].records, d)
    ensures Wrote(run, i) && d == |run.states[i].records| - 1 ==>
      run.states[i].records[d].lock == run.steps[i].lock < run.states[i + 1].records[d].lock
  {
    RunChanges(env, run, i);
  }

  lemma {:induction false} LockCountsContent(env: Env, run: Run, i: nat, j: nat, d: nat)
    requires IsRun(env, run) && i <= j < |run.states| && d < |run.states[i].records|
    ensures Advanced(run.states[i].records, run.states[j].records, d)
  {
    if i < j {
      LockCountsContent(env, run, i, j - 1, d);
      StepAdvances(env, run, j - 1, d);
    }
  }

  /** An accepted write whose lock value was read in state i is the first write to that draft since:
      in between its content stood still and every accepted write went to another record. */
  lemma AcceptedWriteSawLatestContent(env: Env, run: Run, i: nat, k: nat, m: nat)
    requires IsRun(env, run) && i <= m < k < |run.steps| && Wrote(run, k)
    requires var d := |run.states[k].records| - 1;
      0 <= d < |run.states[i].records| && run.states[i].records[d].lock == run.steps[k].lock
    ensures var d := |run.states[k].records| - 1;
      && d < |run.states[m].records|
      && run.states[m].records[d].modules == run.states[i].records[d].modules == run.states[k].records[d].modules
      && (Wrote(run, m) ==> |run.states[m].records| - 1 != d)
  {
    var d := |run.states[k].records| - 1;
    StepAdvances(env, run, k, d);
    LockCountsContent(env, run, i, m, d);
    StepAdvances(env, run, m, d);
    LockCountsContent(env, run, m + 1, k, d);
  }

  // ----- Where the content comes from -----

  /** After an accepted write, the draft holds exactly the cleaned submission, the cleaned modules of the restored
      version, or the cleaned active or default ones; its hash fits, its lock has moved on by one, its test is
      gone, and nothing else has changed. */
  lemma AcceptedWriteStores(env: Env, run: Run, k: nat)
    requires IsRun(env, run) && Wrote(run, k)
    ensures var before, after, step := run.states[k].records, run.states[k + 1].records, run.steps[k];
      var d := |before| - 1;
      && d >= 1 && |after| == |before| && (forall i | 0 <= i < d :: after[i] == before[i])
      && Some(after[d].modules) == env.normalize(
           match step
           case Save(raw, _) => raw
           case Restore(i, _, _) => if i < d then AsRaw(before[i].modules) else NotAnObject
           case Reset(toActive, _) => AsRaw(if toActive then before[d - 1].modules else env.defaults)
           case _ => NotAnObject)
      && (step.Restore? ==> step.i < d && before[step.i].version == step.version)
      && after[d].hash == env.digest(after[d].modules) && after[d].test.None?
      && before[d].lock == step.lock && after[d].lock == step.lock + 1
      && after[d].version == before[d].version && before[d].status.Draft? && after[d].status.Draft?
  {
    RunChanges(env, run, k);
    var before := run.states[k].records;
    LayoutUsable(env, before);
    assert RecordOk(env, before, |before| - 1) && RecordOk(env, run.states[k + 1].records, |before| - 1);
    if run.steps[k].Restore? {
      assert RecordOk(env, before, run.steps[k].i);
    }
  }

  /** An accepted write to record r in step k. */
  predicate WroteTo(run: Run, k: nat, r: nat) {
    Wrote(run, k) && k < |run.states| && |run.states[k].records| == r + 1
  }

  lemma ContentStep(env: Env, run: Run, k: nat, r: nat)
    requires IsRun(env, run) && k < |run.steps| && r < |run.states[k + 1].records|
    ensures r < |run.states[k].records| && !WroteTo(run, k, r) ==>
      run.states[k + 1].records[r].modules == run.states[k].records[r].modules
    ensures r >= |run.states[k].records| ==>
      r == |run.states[k].records| >= 2 && run.states[k + 1].records[r].modules == run.states[k].records[r - 1].modules
  {
    RunChanges(env, run, k);
  }

  lemma FirstRecords(env: Env, run: Run)
    requires IsRun(env, run)
    ensures |run.states[0].records| == 2
  {
  }

  /** The content of every record, published or not, is that of the last accepted write to it.  A record that
      was never written to holds what it started with: the seeded content, or that of the release before it. */
  lemma {:induction false} ContentOrigin(env: Env, run: Run, j: nat, r: nat) returns (last: Option<nat>)
    requires IsRun(env, run) && j < |run.states| && r < |run.states[j].records|
    ensures match last
      case Some(k) =>
        && k < j && WroteTo(run, k, r) && r < |run.states[k + 1].records|
        && run.states[j].records[r].modules == run.states[k + 1].records[r].modules
        && forall m | k < m < j :: !WroteTo(run, m, r)
      case None =>
        && (forall m | 0 <= m < j :: !WroteTo(run, m, r))
        && if r < 2 then |run.states[0].records| == 2 && run.states[j].records[r].modules == run.states[0].records[r].modules
           else run.states[j].records[r].modules == run.states[j].records[r - 1].modules
  {
    if j == 0 {
      FirstRecords(env, run);
      last := None;
    } else {
      ContentStep(env, run, j - 1, r);
      if r < |run.states[j - 1].records| {
        last := ContentOrigin(env, run, j - 1, r);
        if WroteTo(run, j - 1, r) {
          last := Some(j - 1);
        } else if last.None? && r >= 2 {
          PredecessorStands(env, run, j - 1, r);
        }
      } else {
        last := None;
        CreatedLater(env, run, j - 1, r);
        PredecessorStands(env, run, j - 1, r);
      }
    }
  }

  /** A published predecessor keeps its content. */
  lemma PredecessorStands(env: Env, run: Run, k: nat, r: nat)
    requires IsRun(env, run) && k < |run.steps| && 2 <= r <= |run.states[k].records| && r < |run.states[k + 1].records|
    ensures r - 1 < |run.states[k].records| && run.states[k + 1].records[r - 1].modules == run.states[k].records[r - 1].modules
  {
    RunChanges(env, run, k);
  }

  /** There is nothing to write to before a record exists. */
  lemma {:induction false} CreatedLater(env: Env, run: Run, j: nat, r: nat)
    requires IsRun(env, run) && j < |run.states| && |run.states[j].records| <= r
    ensures forall m | 0 <= m <= j :: |run.states[m].records| <= r && !WroteTo(run, m, r)
  {
    if j > 0 {
      RunChanges(env, run, j - 1);
      CreatedLater(env, run, j - 1, r);
    }
  }

  // ----- What stands behind a publication -----

  /** Steps that void the connection test and with it the test of the draft. */
  predicate Invalidates(step: Step, error: Option<Error>) {
    || step.FailConnectionTest?
    || (step.SaveConnection? && error.None?)
    || (step.MarkConnection? && error.Some?)
  }

  /** The step records a test of draft d, as read and started by its session. */
  ghost predicate RecordsTest(env: Env, s: State, step: Step, error: Option<Error>, d: nat, t: Test) {
    && step.TestPass? && error.None? && step.id in s.sessions
    && s.sessions[step.id] == Running(d, t.contentHash, t.fingerprint)
    && ConnectionTested(env, s.link) && Fingerprint(env, s.link) == Some(t.fingerprint)
  }

  ghost predicate DraftIs(s: State, d: nat, r: Record) {
    |s.records| == d + 1 && s.records[d] == r
  }

  /** The step records the test that the draft has afterwards, or leaves draft and connection test alone. */
  ghost predicate TestBacked(env: Env, s: State, step: Step, d: nat, r: Record)
    requires Enabled(s, step) && r.test.Some?
  {
    var error := Apply(env, s, step).1;
    RecordsTest(env, s, step, error, d, r.test.value) || (DraftIs(s, d, r) && !Invalidates(step, error))
  }

  ghost predicate DraftAfterwards(env: Env, s: State, step: Step, d: nat, r: Record) {
    Enabled(s, step) && DraftIs(Apply(env, s, step).0, d, r) && r.test.Some?
  }

  lemma ContentTests(env: Env, s: State, step: Step, d: nat, r: Record)
    requires Inv(env, s) && DraftAfterwards(env, s, step, d, r) && (WritesContent(step) || step.Publish?)
    ensures TestBacked(env, s, step, d, r)
  {
    StepChanges(env, s, step);
  }

  lemma ConnectionTests(env: Env, s: State, step: Step, d: nat, r: Record)
    requires Inv(env, s) && DraftAfterwards(env, s, step, d, r)
    requires step.SaveConnection? || step.FailConnectionTest? || step.MarkConnection?
    ensures TestBacked(env, s, step, d, r)
  {
    LayoutUsable(env, s.records);
  }

  lemma SessionTests(env: Env, s: State, step: Step, d: nat, r: Record)
    requires Inv(env, s) && DraftAfterwards(env, s, step, d, r)
    requires step.TestCheck? || step.TestRead? || step.TestStart? || step.TestPass? || step.TestFail?
    ensures TestBacked(env, s, step, d, r)
  {
    LayoutUsable(env, s.records);
  }

  lemma StepTests(env: Env, s: State, step: Step, d: nat, r: Record)
    requires Inv(env, s) && DraftAfterwards(env, s, step, d, r)
    ensures TestBacked(env, s, step, d, r)
  {
    if WritesContent(step) || step.Publish? {
      ContentTests(env, s, step, d, r);
    } else if step.SaveConnection? || step.FailConnectionTest? || step.MarkConnection? {
      ConnectionTests(env, s, step, d, r);
    } else {
      SessionTests(env, s, step, d, r);
    }
  }

  lemma RunTests(env: Env, run: Run, i: nat, d: nat, r: Record)
    requires IsRun(env, run) && i < |run.steps| && DraftIs(run.states[i + 1], d, r) && r.test.Some?
    ensures || RecordsTest(env, run.states[i], run.steps[i], run.errors[i], d, r.test.value)
            || (DraftIs(run.states[i], d, r) && !Invalidates(run.steps[i], run.errors[i]))
  {
    RunInv(env, run, i);
    assert Follows(env, run, i);
    StepTests(env, run.states[i], run.steps[i], d, r);
  }

  /** Test fields of the draft were recorded by some step c, and from then on neither the record,
      nor its content, nor its test changed, and no connection test was invalidated. */
  lemma {:induction false} TestOrigin(env: Env, run: Run, j: nat, d: nat, r: Record) returns (c: nat)
    requires IsRun(env, run) && j < |run.states| && DraftIs(run.states[j], d, r) && r.test.Some?
    ensures c < j && RecordsTest(env, run.states[c], run.steps[c], run.errors[c], d, r.test.value)
    ensures forall m | c < m <= j :: DraftIs(run.states[m], d, r)
    ensures forall m | c < m < j :: !Invalidates(run.steps[m], run.errors[m])
  {
    assert j > 0;
    RunTests(env, run, j - 1, d, r);
    if RecordsTest(env, run.states[j - 1], run.steps[j - 1], run.errors[j - 1], d, r.test.value) {
      c := j - 1;
    } else {
      c := TestOrigin(env, run, j - 1, d, r);
    }
  }

  ghost predicate MarksTested(env: Env, step: Step, s': State, error: Option<Error>) {
    step.MarkConnection? && error.None? && Fingerprint(env, s'.link) == s'.link.testedFingerprint
  }

  lemma StepLinks(env: Env, s: State, step: Step)
    requires Enabled(s, step) && Apply(env, s, step).0.link.testedFingerprint.Some?
    ensures var (s', error) := Apply(env, s, step);
      MarksTested(env, step, s', error) || (s'.link == s.link && !Invalidates(step, error))
  {
  }

  /** A stored fingerprint was stored by a successful connection test, and the connection has not
      changed or been invalidated since. */
  lemma {:induction false} MarkOrigin(env: Env, run: Run, j: nat) returns (b: nat)
    requires IsRun(env, run) && j < |run.states| && run.states[j].link.testedFingerprint.Some?
    ensures b < j && MarksTested(env, run.steps[b], run.states[b + 1], run.errors[b])
    ensures forall m | b < m <= j :: run.states[m].link == run.states[j].link
    ensures forall m | b < m < j :: !Invalidates(run.steps[m], run.errors[m])
  {
    assert j > 0;
    assert Follows(env, run, j - 1);
    StepLinks(env, run.states[j - 1], run.steps[j - 1]);
    if MarksTested(env, run.steps[j - 1], run.states[j], run.errors[j - 1]) {
      b := j - 1;
    } else {
      b := MarkOrigin(env, run, j - 1);
    }
  }

  /** What a running session has read: the hash of its draft, and later the fingerprint, each at some
      moment of the run and in this order. */
  lemma {:induction false} SessionOrigin(env: Env, run: Run, j: nat, id: nat) returns (p: nat, q: nat)
    requires IsRun(env, run) && j < |run.states| && id in run.states[j].sessions && !run.states[j].sessions[id].Checked?
    ensures var t := run.states[j].sessions[id];
      && p < j && run.steps[p] == TestRead(id) && run.states[p].records != []
      && t.d == |run.states[p].records| - 1 && run.states[p].records[t.d].hash == t.hash
      && (t.Running? ==> p < q < j && run.steps[q] == TestStart(id) && Fingerprint(env, run.states[q].link) == Some(t.fingerprint))
  {
    assert j > 0;
    RunInv(env, run, j - 1);
    var s, step := run.states[j - 1], run.steps[j - 1];
    LayoutUsable(env, s.records);
    assert Follows(env, run, j - 1);
    if step == TestRead(id) {
      p, q := j - 1, 0;
    } else {
      p, q := SessionOrigin(env, run, j - 1, id);
      if step == TestStart(id) {
        q := j - 1;
      }
    }
  }

  /** A successful publication in step k is backed, in this order, by the last invalidation of the
      connection test, a successful connection test b, and a recorded prompt test c of the same
      record for exactly the published hash.  Between c and k the record did not change at all, and
      the connection is the one recorded by the test. */
  lemma PublicationIsBacked(env: Env, run: Run, k: nat) returns (b: nat, c: nat, d: nat, t: Test)
    requires IsRun(env, run) && k < |run.steps| && run.steps[k].Publish? && run.errors[k].None?
    ensures b < c < k
    ensures MarksTested(env, run.steps[b], run.states[b + 1], run.errors[b])
    ensures forall m | b < m < k :: !Invalidates(run.steps[m], run.errors[m])
    ensures RecordsTest(env, run.states[c], run.steps[c], run.errors[c], d, t)
    ensures |run.states[k].records| == d + 1 && Released(run.states[k].records, run.states[k + 1].records, run.steps[k].lock)
    ensures run.states[k].records[d].hash == t.contentHash && Fingerprint(env, run.states[k].link) == Some(t.fingerprint)
    ensures forall m | c < m <= k :: DraftIs(run.states[m], d, run.states[k].records[d])
  {
    var s := run.states[k];
    RunChanges(env, run, k);
    LayoutUsable(env, s.records);
    d := |s.records| - 1;
    t := s.records[d].test.value;
    c := TestOrigin(env, run, k, d, s.records[d]);
    b := MarkOrigin(env, run, c);
  }
}
