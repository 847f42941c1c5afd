/** Two further facts about whole runs: stored prompts stay usable, and an API key stays with the
    address it was saved for. */
module PromptContent {
  import opened Wrappers
  import opened Evidence
  import opened PromptHarness
  import opened PromptStore
  import opened PromptRuns

  ghost predicate Normal(env: Env, modules: Modules) {
    env.normalize(AsRaw(modules)) == Some(modules)
  }

  /** Cleaned modules pass the cleaning unchanged. */
  ghost predicate Idempotent(env: Env) {
    forall raw | env.normalize(raw).Some? :: Normal(env, env.normalize(raw).value)
  }

  /** The cleaning of the prompt harness has this property, whatever the Unicode tables are. */
  lemma HarnessIsIdempotent(env: Env, u: Unicode)
    requires forall raw :: env.normalize(raw) == Normalized(u, raw)
    ensures Idempotent(env)
  {
    forall raw | env.normalize(raw).Some? ensures Normal(env, env.normalize(raw).value) {
      NormalizeIsIdempotent(u, raw);
    }
  }

  ghost predicate AllNormal(env: Env, records: seq<Record>) {
    forall i | 0 <= i < |records| :: Normal(env, records[i].modules)
  }

  /** What is written to the draft has been cleaned. */
  lemma WrittenIsNormal(env: Env, s: State, step: Step)
    requires Idempotent(env) && Inv(env, s) && Enabled(s, step) && AllNormal(env, s.records)
    requires WritesContent(step) && Apply(env, s, step).1.None?
    ensures AllNormal(env, Apply(env, s, step).0.records)
  {
    LayoutUsable(env, s.records);
    assert Normal(env, Apply(env, s, step).0.records[Find(s.records, Draft)].modules);
  }

  lemma ChangeKeepsNormal(env: Env, s: State, step: Step, s': State, error: Option<Error>)
    requires Changed(env, s, step, s', error) && !(error.None? && WritesContent(step)) && AllNormal(env, s.records)
    ensures AllNormal(env, s'.records)
  {
    forall i | 0 <= i < |s'.records| ensures Normal(env, s'.records[i].modules) {
      assert Normal(env, s.records[if i < |s.records| then i else i - 1].modules);
    }
  }

  lemma StepKeepsNormal(env: Env, s: State, step: Step)
    requires Idempotent(env) && Inv(env, s) && Enabled(s, step) && AllNormal(env, s.records)
    ensures AllNormal(env, Apply(env, s, step).0.records)
  {
    if WritesContent(step) && Apply(env, s, step).1.None? {
      WrittenIsNormal(env, s, step);
    } else {
      StepChanges(env, s, step);
      ChangeKeepsNormal(env, s, step, Apply(env, s, step).0, Apply(env, s, step).1);
    }
  }

  lemma {:induction false} RunKeepsNormal(env: Env, run: Run, i: nat)
    requires Idempotent(env) && IsRun(env, run) && i < |run.states| && AllNormal(env, run.states[0].records)
    ensures AllNormal(env, run.states[i].records)
  {
    if i > 0 {
      RunKeepsNormal(env, run, i - 1);
      RunInv(env, run, i - 1);
      assert Follows(env, run, i - 1);
      StepKeepsNormal(env, run.states[i - 1], run.steps[i - 1]);
    }
  }

  /** Going back to the active prompt or to any earlier version never fails validation: only a stale
      lock can refuse it. */
  lemma StoredVersionsStayUsable(env: Env, run: Run, i: nat)
    requires Idempotent(env) && IsRun(env, run) && i < |run.steps| && AllNormal(env, run.states[0].records)
    requires run.steps[i].Restore? || (run.steps[i].Reset? && run.steps[i].toActive)
    ensures run.errors[i] in {None, Some(StaleLock)}
  {
    RunKeepsNormal(env, run, i);
    RunInv(env, run, i);
    var s := run.states[i];
    LayoutUsable(env, s.records);
    assert Follows(env, run, i);
    var from := if run.steps[i].Restore? then run.steps[i].i else Find(s.records, Active);
    assert Normal(env, s.records[from].modules);
  }

  /** Going back to version i gives exactly the modules that version i has, and going back to the active prompt
      those of the active prompt. */
  lemma RestoringGivesBackTheVersion(env: Env, run: Run, k: nat)
    requires Idempotent(env) && IsRun(env, run) && Wrote(run, k) && AllNormal(env, run.states[0].records)
    requires run.steps[k].Restore? || (run.steps[k].Reset? && run.steps[k].toActive)
    ensures var before, after, step := run.states[k].records, run.states[k + 1].records, run.steps[k];
      var d := |before| - 1;
      d >= 1 && |after| == d + 1 && after[d].modules == if step.Restore? && step.i < d then before[step.i].modules else before[d - 1].modules
  {
    AcceptedWriteStores(env, run, k);
    RunKeepsNormal(env, run, k);
    var before, step := run.states[k].records, run.steps[k];
    var from := if step.Restore? then step.i else |before| - 2;
    assert Normal(env, before[from].modules);
  }

  // ----- The API key -----

  ghost predicate SavesKey(env: Env, step: Step, error: Option<Error>, key: string) {
    step.SaveConnection? && error.None? && env.strip(step.p.apiKey) == key != "" && !step.p.clearKey
  }

  ghost predicate SameAddress(env: Env, a: Link, b: Link) {
    env.cleanUrl(a.baseUrl) == env.cleanUrl(b.baseUrl)
  }

  lemma StepKeys(env: Env, s: State, step: Step)
    requires Enabled(s, step) && Apply(env, s, step).0.link.apiKey.Some?
    ensures var (s', error) := Apply(env, s, step);
      SavesKey(env, step, error, s'.link.apiKey.value) || (s'.link.apiKey == s.link.apiKey && SameAddress(env, s.link, s'.link))
  {
  }

  /** A stored key was submitted by some step b, and from then on it was never stored under any other
      address. */
  lemma {:induction false} KeyOrigin(env: Env, run: Run, j: nat) returns (b: nat)
    requires IsRun(env, run) && j < |run.states|
    requires run.states[0].link.apiKey.None? && run.states[j].link.apiKey.Some?
    ensures b < j && SavesKey(env, run.steps[b], run.errors[b], run.states[j].link.apiKey.value)
    ensures forall m | b < m <= j :: SameAddress(env, run.states[m].link, run.states[j].link)
  {
    assert j > 0;
    assert Follows(env, run, j - 1);
    StepKeys(env, run.states[j - 1], run.steps[j - 1]);
    if SavesKey(env, run.steps[j - 1], run.errors[j - 1], run.states[j].link.apiKey.value) {
      b := j - 1;
    } else {
      b := KeyOrigin(env, run, j - 1);
    }
  }

  /** get_ai_discovery_config: the address to query and the key to send. */
  function DiscoveryConfig(env: Env, link: Link, baseUrl: string, submitted: string): Option<(string, string)> {
    match env.cleanUrl(baseUrl)
    case None => None
    case Some(url) =>
      var key := env.strip(submitted);
      Some((url, if key == "" && link.apiKey.Some? && UrlsMatch(env, link.baseUrl, url) then link.apiKey.value else key))
  }

  /** Model discovery sends a stored key only to the address under which it was saved in step b. */
  lemma StoredKeyGoesToItsAddress(env: Env, run: Run, j: nat, baseUrl: string, submitted: string) returns (b: nat)
    requires IsRun(env, run) && j < |run.states| && run.states[0].link.apiKey.None?
    requires var config := DiscoveryConfig(env, run.states[j].link, baseUrl, submitted);
      config.Some? && config.value.1 != env.strip(submitted)
    ensures b < j && var (url, key) := DiscoveryConfig(env, run.states[j].link, baseUrl, submitted).value;
      && SavesKey(env, run.steps[b], run.errors[b], key)
      && env.cleanUrl(url) == env.cleanUrl(run.states[b + 1].link.baseUrl)
  {
    b := KeyOrigin(env, run, j);
    assert SameAddress(env, run.states[b + 1].link, run.states[j].link);
  }
}
