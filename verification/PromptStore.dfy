/** Prompt versions and the model connection: what each administrator action does.
    A record is identified by its position in the list of all records ever created. */
module PromptStore {
  import opened Wrappers
  import opened PromptHarness

  datatype Status = Draft | Active | Archived

  /** Names given to versions: the seeded one, a release number with a piece of the content hash,
      and the draft that follows a version. */
  datatype Version = Seed(name: string) | Release(sequence: nat, prefix: string) | DraftAfter(base: Version)

  /** The fields written by a successful prompt test. */
  datatype Test = Test(contentHash: string, fingerprint: string, modelName: string)

  datatype Record = Record(
    version: Version, status: Status, sequence: Option<nat>, modules: Modules, hash: string,
    lock: int, test: Option<Test>, restoredFrom: Option<nat>)

  datatype Style = Responses | ChatJson | OtherStyle

  datatype Mode = StrictSchema | JsonCompat | OtherMode

  /** The configuration rows of the model connection. */
  datatype Link = Link(
    style: Option<Style>, modelName: string, baseUrl: string, apiKey: Option<string>,
    testedFingerprint: Option<string>, mode: Option<Mode>)

  datatype Payload = Payload(style: Style, modelName: string, baseUrl: string, apiKey: string, clearKey: bool)

  /** The cleaning of submitted modules, the URL check, string trimming, the connection fingerprint,
      the content hash and the default modules. */
  datatype Env = Env(
    normalize: RawModules -> Option<Modules>, cleanUrl: string -> Option<string>, strip: string -> string,
    fingerprint: (Style, string, string, string) -> string, digest: Modules -> string, defaults: Modules)

  datatype Error =
    | InvalidConnection | NotConfigured | InvalidMode | InvalidModules | InvalidSource | StaleLock
    | NotTested | TestOutdated | ContentChanged | ConnectionChanged | NoSuchVersion

  // ----- Reading -----

  /** current_ai_connection_fingerprint; None when it raises. */
  function Fingerprint(env: Env, link: Link): Option<string> {
    if link.style.Some? && !link.style.value.OtherStyle? && env.strip(link.modelName) != "" && env.cleanUrl(link.baseUrl).Some?
    then Some(env.fingerprint(link.style.value, link.modelName, link.baseUrl, if link.apiKey.Some? then link.apiKey.value else ""))
    else None
  }

  predicate ConnectionTested(env: Env, link: Link) {
    && link.testedFingerprint.Some? && link.testedFingerprint.value != ""
    && Fingerprint(env, link) == link.testedFingerprint
  }

  predicate DraftTestValid(env: Env, link: Link, record: Record) {
    && record.status.Draft?
    && record.test.Some?
    && record.test.value.contentHash == record.hash
    && record.test.value.fingerprint != ""
    && ConnectionTested(env, link)
    && Fingerprint(env, link) == Some(record.test.value.fingerprint)
  }

  /** Position of the only record with the given status. */
  function Find(records: seq<Record>, status: Status): (i: nat)
    requires exists i | 0 <= i < |records| :: records[i].status == status
    ensures i < |records| && records[i].status == status
  {
    if records[|records| - 1].status == status then |records| - 1 else Find(records[..|records| - 1], status)
  }

  function NextSequence(records: seq<Record>): (n: nat) {
    if records == [] then 1
    else
      var rest, last := NextSequence(records[..|records| - 1]), records[|records| - 1].sequence;
      if last.Some? && last.value + 1 > rest then last.value + 1 else rest
  }

  lemma {:induction false} NextSequenceIsNew(records: seq<Record>)
    ensures NextSequence(records) >= 1
    ensures forall i | 0 <= i < |records| && records[i].sequence.Some? :: records[i].sequence.value < NextSequence(records)
  {
    if records != [] {
      NextSequenceIsNew(records[..|records| - 1]);
    }
  }

  /** The fingerprint tells connections apart, as long as the hash behind it does: a tested connection has the
      style, model, address and key that were tested, where a missing key counts as an empty one. */
  lemma FingerprintIdentifies(env: Env, a: Link, b: Link)
    requires forall s, m, u, k, s', m', u', k' :: env.fingerprint(s, m, u, k) == env.fingerprint(s', m', u', k') ==>
      s == s' && m == m' && u == u' && k == k'
    requires Fingerprint(env, a).Some? && Fingerprint(env, a) == Fingerprint(env, b)
    ensures a.style == b.style && a.modelName == b.modelName && a.baseUrl == b.baseUrl
    ensures a.apiKey == b.apiKey || (a.apiKey in {None, Some("")} && b.apiKey in {None, Some("")})
  {
  }

  /** The database constraints that every action relies on: one draft, and one active record. */
  ghost predicate Usable(records: seq<Record>) {
    && (exists i | 0 <= i < |records| :: records[i].status == Draft)
    && (exists i | 0 <= i < |records| :: records[i].status == Active)
  }

  // ----- What the actions do -----

  ghost function Rewritten(env: Env, record: Record, modules: Modules, from: Option<nat>): Record {
    record.(modules := modules, hash := env.digest(modules), lock := record.lock + 1, test := None, restoredFrom := from)
  }

  ghost function Saved(env: Env, records: seq<Record>, raw: RawModules, lock: int): Result<seq<Record>, Error>
    requires Usable(records)
  {
    var d := Find(records, Draft);
    if env.normalize(raw).None? then Err(InvalidModules)
    else if records[d].lock != lock then Err(StaleLock)
    else Ok(records[d := Rewritten(env, records[d], env.normalize(raw).value, None)])
  }

  /** Replaces the draft by the modules of record `from`, or by the defaults. */
  ghost function Replaced(env: Env, records: seq<Record>, from: Option<nat>, lock: int): Result<seq<Record>, Error>
    requires Usable(records) && (from.Some? ==> from.value < |records|)
  {
    var d := Find(records, Draft);
    var modules := env.normalize(AsRaw(if from.Some? then records[from.value].modules else env.defaults));
    if records[d].lock != lock then Err(StaleLock)
    else if modules.None? then Err(InvalidModules)
    else Ok(records[d := Rewritten(env, records[d], modules.value, from)])
  }

  ghost predicate Restorable(records: seq<Record>, version: Version, i: nat) {
    i < |records| && records[i].version == version && !records[i].status.Draft?
  }

  ghost function Published(env: Env, records: seq<Record>, link: Link, lock: int): Result<seq<Record>, Error>
    requires Usable(records)
  {
    var a, d := Find(records, Active), Find(records, Draft);
    if records[d].lock != lock then Err(StaleLock)
    else if !DraftTestValid(env, link, records[d]) then Err(TestOutdated)
    else
      var n := NextSequence(records);
      var version := Release(n, if |records[d].hash| < 8 then records[d].hash else records[d].hash[..8]);
      Ok(records[a := records[a].(status := Archived)]
                [d := records[d].(status := Active, version := version, sequence := Some(n), lock := records[d].lock + 1)]
         + [Record(DraftAfter(version), Draft, None, records[d].modules, records[d].hash, 0, None, Some(d))])
  }

  function Untested(record: Record): Record {
    record.(test := None)
  }

  /** clear_shared_draft_test: the draft loses its test, every other record is left alone. */
  ghost function Cleared(records: seq<Record>): seq<Record>
    requires Usable(records)
  {
    var d := Find(records, Draft);
    records[d := Untested(records[d])]
  }

  ghost function Invalidated(link: Link): Link {
    link.(testedFingerprint := None, mode := None)
  }

  predicate UrlsMatch(env: Env, left: string, right: string) {
    env.cleanUrl(left).Some? && env.cleanUrl(left) == env.cleanUrl(right)
  }

  ghost function Connected(env: Env, link: Link, p: Payload): Result<Link, Error> {
    if p.style.OtherStyle? || env.strip(p.modelName) == "" || env.cleanUrl(p.baseUrl).None? then Err(InvalidConnection)
    else
      var url := env.cleanUrl(p.baseUrl).value;
      var key :=
        if p.clearKey then None
        else if env.strip(p.apiKey) != "" then Some(env.strip(p.apiKey))
        else if !UrlsMatch(env, link.baseUrl, url) then None
        else link.apiKey;
      Ok(Invalidated(Link(Some(p.style), env.strip(p.modelName), url, key, None, None)))
  }

  /** The final transaction of a prompt test that ran on record d with the given hash and fingerprint. */
  ghost function Recorded(env: Env, records: seq<Record>, link: Link, d: nat, test: Test): Result<seq<Record>, Error>
    requires d < |records|
  {
    if records[d].hash != test.contentHash then Err(ContentChanged)
    else if !ConnectionTested(env, link) || Fingerprint(env, link) != Some(test.fingerprint) then Err(ConnectionChanged)
    else Ok(records[d := records[d].(test := Some(test))])
  }

  ghost function ClearedIfUnchanged(records: seq<Record>, d: nat, hash: string): seq<Record>
    requires d < |records|
  {
    if records[d].hash == hash then records[d := Untested(records[d])] else records
  }

  // ----- The service -----

  class Service {
    const env: Env
    var records: seq<Record>
    var link: Link

    constructor (env: Env, records: seq<Record>, link: Link)
      ensures this.env == env && this.records == records && this.link == link
    {
      this.env, this.records, this.link := env, records, link;
    }

    method ClearSharedDraftTest()
      requires Usable(records)
      modifies this`records
      ensures records == Cleared(old(records))
      ensures var d := Find(old(records), Draft);
        |records| == |old(records)| && records[d] == old(records)[d].(test := None)
        && forall i | 0 <= i < |records| && i != d :: records[i] == old(records)[i]
    {
      var d := Find(records, Draft);
      records := records[d := Untested(records[d])];
    }

    method InvalidateConnectionTest()
      requires Usable(records)
      modifies this
      ensures records == Cleared(old(records)) && link == Invalidated(old(link))
      ensures link == old(link).(testedFingerprint := None, mode := None)
      ensures var d := Find(old(records), Draft); records == old(records)[d := old(records)[d].(test := None)]
    {
      link := link.(testedFingerprint := None, mode := None);
      ClearSharedDraftTest();
    }

    method SaveConnection(p: Payload) returns (error: Option<Error>)
      requires Usable(records)
      modifies this
      ensures error.Some? ==> records == old(records) && link == old(link) && Connected(env, old(link), p) == Err(error.value)
      ensures error.None? ==> Connected(env, old(link), p) == Ok(link) && records == Cleared(old(records))
      ensures error in {None, Some(InvalidConnection)}
      ensures error.None? <==> !p.style.OtherStyle? && env.strip(p.modelName) != "" && env.cleanUrl(p.baseUrl).Some?
      ensures error.None? ==>
        && link.style == Some(p.style) && link.modelName == env.strip(p.modelName) && Some(link.baseUrl) == env.cleanUrl(p.baseUrl)
        && link.testedFingerprint.None? && link.mode.None?
        && (p.clearKey ==> link.apiKey.None?)
        && (!p.clearKey && env.strip(p.apiKey) != "" ==> link.apiKey == Some(env.strip(p.apiKey)))
        && (!p.clearKey && env.strip(p.apiKey) == "" ==>
              link.apiKey == if env.cleanUrl(old(link).baseUrl).Some? && env.cleanUrl(old(link).baseUrl) == env.cleanUrl(link.baseUrl)
                             then old(link).apiKey else None)
      ensures error.None? ==> var d := Find(old(records), Draft); records == old(records)[d := old(records)[d].(test := None)]
    {
      if p.style.OtherStyle? || env.strip(p.modelName) == "" || env.cleanUrl(p.baseUrl).None? {
        return Some(InvalidConnection);
      }
      var url := env.cleanUrl(p.baseUrl).value;
      var key := env.strip(p.apiKey);
      var unchangedUrl := UrlsMatch(env, link.baseUrl, url);
      link := link.(style := Some(p.style), modelName := env.strip(p.modelName), baseUrl := url);
      if p.clearKey {
        link := link.(apiKey := None);
      } else if key != "" {
        link := link.(apiKey := Some(key));
      } else if !unchangedUrl {
        link := link.(apiKey := None);
      }
      InvalidateConnectionTest();
      return None;
    }

    /** A mode that differs from the stored one clears the draft's test.  Without a complete
        connection the caller's error path invalidates everything. */
    method MarkConnectionTested(mode: Option<Mode>) returns (error: Option<Error>)
      requires Usable(records)
      modifies this
      ensures var (records', link', error') := Marked(env, old(records), old(link), mode);
        records == records' && link == link' && error == error'
      ensures error == Some(InvalidMode) <==> mode == Some(OtherMode)
      ensures error.None? ==>
        && link == old(link).(testedFingerprint := Fingerprint(env, link), mode := if mode.Some? then mode else old(link).mode)
        && link.testedFingerprint.Some?
        && var d := Find(old(records), Draft);
           records == if mode.Some? && mode != old(link).mode then old(records)[d := old(records)[d].(test := None)] else old(records)
      ensures error.Some? ==>
        && error in {Some(InvalidMode), Some(NotConfigured)} && link == old(link).(testedFingerprint := None, mode := None)
        && var d := Find(old(records), Draft); records == old(records)[d := old(records)[d].(test := None)]
    {
      if mode.Some? {
        if mode.value.OtherMode? {
          InvalidateConnectionTest();
          return Some(InvalidMode);
        }
        var previous := link.mode;
        link := link.(mode := mode);
        if previous != mode {
          ClearSharedDraftTest();
        }
      }
      var fingerprint := Fingerprint(env, link);
      if fingerprint.None? {
        ClearedTwice(old(records));
        InvalidateConnectionTest();
        return Some(NotConfigured);
      }
      link := link.(testedFingerprint := fingerprint);
      return None;
    }

    /** Writes new content into a draft record and saves it. */
    method Rewrite(d: nat, modules: Modules, from: Option<nat>)
      requires d < |records|
      modifies this`records
      ensures records == old(records)[d := Rewritten(env, old(records)[d], modules, from)]
    {
      var draft := records[d];
      draft := draft.(modules := modules, hash := env.digest(modules));
      draft := draft.(lock := draft.lock + 1, restoredFrom := from);
      draft := Untested(draft);
      records := records[d := draft];
    }

    method SaveDraft(raw: RawModules, lock: int) returns (error: Option<Error>)
      requires Usable(records)
      modifies this`records
      ensures error.Some? ==> records == old(records) && Saved(env, records, raw, lock) == Err(error.value)
      ensures error.None? ==> Saved(env, old(records), raw, lock) == Ok(records)
      ensures error in {None, Some(InvalidModules), Some(StaleLock)}
      ensures error == Some(InvalidModules) <==> env.normalize(raw).None?
      ensures error.None? <==> env.normalize(raw).Some? && old(records)[Find(old(records), Draft)].lock == lock
      ensures error.None? ==>
        var d, modules := Find(old(records), Draft), env.normalize(raw);
        && records == old(records)[d := records[d]]
        && records[d].modules == modules.value && records[d].hash == env.digest(modules.value)
        && records[d].lock == lock + 1 && records[d].test.None? && records[d].restoredFrom == None
        && records[d].version == old(records)[d].version && records[d].sequence == old(records)[d].sequence
        && records[d].status.Draft?
    {
      var normalized := env.normalize(raw);
      if normalized.None? {
        return Some(InvalidModules);
      }
      var d := Find(records, Draft);
      if records[d].lock != lock {
        return Some(StaleLock);
      }
      Rewrite(d, normalized.value, None);
      return None;
    }

    method ReplaceDraft(from: Option<nat>, lock: int) returns (error: Option<Error>)
      requires Usable(records) && (from.Some? ==> from.value < |records|)
      modifies this`records
      ensures error.Some? ==> records == old(records) && Replaced(env, records, from, lock) == Err(error.value)
      ensures error.None? ==> Replaced(env, old(records), from, lock) == Ok(records)
      ensures error in {None, Some(InvalidModules), Some(StaleLock)}
      ensures error == Some(StaleLock) <==> old(records)[Find(old(records), Draft)].lock != lock
      ensures error.None? ==>
        var d := Find(old(records), Draft);
        var modules := env.normalize(AsRaw(if from.Some? then old(records)[from.value].modules else env.defaults));
        && modules.Some?
        && records == old(records)[d := records[d]]
        && records[d].modules == modules.value && records[d].hash == env.digest(modules.value)
        && records[d].lock == lock + 1 && records[d].test.None? && records[d].restoredFrom == from
        && records[d].version == old(records)[d].version && records[d].sequence == old(records)[d].sequence
        && records[d].status.Draft?
    {
      var d := Find(records, Draft);
      if records[d].lock != lock {
        return Some(StaleLock);
      }
      var normalized := env.normalize(AsRaw(if from.Some? then records[from.value].modules else env.defaults));
      if normalized.None? {
        return Some(InvalidModules);
      }
      Rewrite(d, normalized.value, from);
      return None;
    }

    method ResetDraft(toActive: bool, lock: int) returns (error: Option<Error>)
      requires Usable(records)
      modifies this`records
      ensures var from := if toActive then Some(Find(old(records), Active)) else None;
        && (error.Some? ==> records == old(records) && Replaced(env, old(records), from, lock) == Err(error.value))
        && (error.None? ==> Replaced(env, old(records), from, lock) == Ok(records))
      ensures error == Some(StaleLock) <==> old(records)[Find(old(records), Draft)].lock != lock
      ensures error.None? ==>
        var a, d := Find(old(records), Active), Find(old(records), Draft);
        var modules := env.normalize(AsRaw(if toActive then old(records)[a].modules else env.defaults));
        && modules.Some?
        && records == old(records)[d := records[d]]
        && records[d].modules == modules.value && records[d].hash == env.digest(modules.value)
        && records[d].lock == lock + 1 && records[d].test.None? && records[d].restoredFrom == (if toActive then Some(a) else None)
        && records[d].version == old(records)[d].version && records[d].sequence == old(records)[d].sequence
        && records[d].status.Draft?
    {
      error := ReplaceDraft(if toActive then Some(Find(records, Active)) else None, lock);
    }

    /** Looks the version up among the active and archived records. */
    method RestoreVersion(version: Version, lock: int) returns (error: Option<Error>)
      requires Usable(records)
      modifies this`records
      ensures error == Some(NoSuchVersion) <==> forall i: nat :: !Restorable(old(records), version, i)
      ensures error.Some? ==> records == old(records)
      ensures error.None? ==> exists i: nat | Restorable(old(records), version, i) ::
        Replaced(env, old(records), Some(i), lock) == Ok(records)
      ensures error.Some? && error != Some(NoSuchVersion) ==> exists i: nat | Restorable(old(records), version, i) ::
        Replaced(env, old(records), Some(i), lock) == Err(error.value)
      ensures error.None? ==>
        var d := Find(old(records), Draft);
        && old(records)[d].lock == lock && records == old(records)[d := records[d]]
        && records[d].restoredFrom.Some? && records[d].restoredFrom.value < |old(records)|
        && var source := old(records)[records[d].restoredFrom.value];
           && source.version == version && !source.status.Draft?
           && env.normalize(AsRaw(source.modules)) == Some(records[d].modules) && records[d].hash == env.digest(records[d].modules)
           && records[d].lock == lock + 1 && records[d].test.None? && records[d].version == old(records)[d].version
    {
      var i := 0;
      while i < |records| && (records[i].version != version || records[i].status.Draft?)
        invariant i <= |records| && forall k: nat | k < i :: !Restorable(records, version, k)
      {
        i := i + 1;
      }
      if i == |records| {
        return Some(NoSuchVersion);
      }
      assert Restorable(records, version, i);
      error := ReplaceDraft(Some(i), lock);
    }

    method RecordTest(d: nat, test: Test) returns (error: Option<Error>)
      requires d < |records|
      modifies this`records
      ensures error.Some? ==> records == old(records) && Recorded(env, records, link, d, test) == Err(error.value)
      ensures error.None? ==> Recorded(env, old(records), link, d, test) == Ok(records)
      ensures error.None? ==>
        && old(records)[d].hash == test.contentHash && ConnectionTested(env, link) && Fingerprint(env, link) == Some(test.fingerprint)
        && |records| == |old(records)| && records[d] == old(records)[d].(test := Some(test))
        && forall i | 0 <= i < |records| && i != d :: records[i] == old(records)[i]
      ensures error == Some(ContentChanged) <==> old(records)[d].hash != test.contentHash
      ensures error in {None, Some(ContentChanged), Some(ConnectionChanged)}
    {
      if records[d].hash != test.contentHash {
        return Some(ContentChanged);
      }
      if !ConnectionTested(env, link) || Fingerprint(env, link) != Some(test.fingerprint) {
        return Some(ConnectionChanged);
      }
      records := records[d := records[d].(test := Some(test))];
      return None;
    }

    method ClearFailedTest(d: nat, hash: string)
      requires d < |records|
      modifies this`records
      ensures records == ClearedIfUnchanged(old(records), d, hash)
      ensures |records| == |old(records)| && forall i | 0 <= i < |records| ::
        records[i] == if i == d && old(records)[d].hash == hash then old(records)[d].(test := None) else old(records)[i]
    {
      if records[d].hash == hash {
        records := records[d := Untested(records[d])];
      }
    }

    method PublishDraft(lock: int) returns (error: Option<Error>)
      requires Usable(records)
      modifies this`records
      ensures error.Some? ==> records == old(records) && Published(env, records, link, lock) == Err(error.value)
      ensures error.None? ==> Published(env, old(records), link, lock) == Ok(records)
      ensures error in {None, Some(StaleLock), Some(TestOutdated)}
      ensures error == Some(StaleLock) <==> old(records)[Find(old(records), Draft)].lock != lock
      ensures error.None? ==>
        var a, d, n := Find(old(records), Active), Find(old(records), Draft), |old(records)|;
        var before, after, next := old(records)[d], records[d], records[n];
        && |records| == n + 1 && (forall i | 0 <= i < n && i != a && i != d :: records[i] == old(records)[i])
        && records[a] == old(records)[a].(status := Archived)
        && after.status.Active? && after.modules == before.modules && after.hash == before.hash && after.test == before.test
        && after.lock == lock + 1 && after.restoredFrom == before.restoredFrom
        && after.sequence.Some? && after.version.Release? && after.version.sequence == after.sequence.value
        && after.version.prefix == (if |before.hash| < 8 then before.hash else before.hash[..8])
        && (forall i | 0 <= i < n && old(records)[i].sequence.Some? :: old(records)[i].sequence.value < after.sequence.value)
        && next == Record(DraftAfter(after.version), Draft, None, before.modules, before.hash, 0, None, Some(d))
      ensures error.None? ==> var before := old(records)[Find(old(records), Draft)];
        && before.lock == lock && before.test.Some? && before.test.value.contentHash == before.hash
        && ConnectionTested(env, link) && Fingerprint(env, link) == Some(before.test.value.fingerprint)
    {
      var a, d := Find(records, Active), Find(records, Draft);
      if records[d].lock != lock {
        return Some(StaleLock);
      }
      if !DraftTestValid(env, link, records[d]) {
        return Some(TestOutdated);
      }
      var n := NextSequence(records);
      NextSequenceIsNew(records);
      var hash := records[d].hash;
      var version := Release(n, if |hash| < 8 then hash else hash[..8]);
      records := records[a := records[a].(status := Archived)];
      var draft := records[d].(status := Active, version := version, sequence := Some(n));
      draft := draft.(lock := draft.lock + 1);
      records := records[d := draft];
      records := records + [Record(DraftAfter(version), Draft, None, draft.modules, draft.hash, 0, None, Some(d))];
      return None;
    }
  }

  /** mark_ai_connection_tested together with the error path of its caller. */
  ghost function Marked(env: Env, records: seq<Record>, link: Link, mode: Option<Mode>): (seq<Record>, Link, Option<Error>)
    requires Usable(records)
  {
    if mode.Some? && mode.value.OtherMode? then (Cleared(records), Invalidated(link), Some(InvalidMode))
    else
      var moded := if mode.Some? then link.(mode := mode) else link;
      var records' := if mode.Some? && link.mode != mode then Cleared(records) else records;
      match Fingerprint(env, moded)
      case None => (Cleared(records), Invalidated(link), Some(NotConfigured))
      case Some(f) => (records', moded.(testedFingerprint := Some(f)), None)
  }

  lemma ClearedTwice(records: seq<Record>)
    requires Usable(records)
    ensures Usable(Cleared(records)) && Cleared(Cleared(records)) == Cleared(records)
  {
    FindInCleared(records);
  }

  lemma FindInCleared(records: seq<Record>)
    requires Usable(records)
    ensures Usable(Cleared(records)) && Find(Cleared(records), Draft) == Find(records, Draft)
  {
    var d := Find(records, Draft);
    var a :| 0 <= a < |records| && records[a].status == Active;
    assert Cleared(records)[d].status == Draft && Cleared(records)[a].status == Active;
    SameStatusSameFind(records, Cleared(records), Draft);
  }

  lemma {:induction false} SameStatusSameFind(r: seq<Record>, q: seq<Record>, status: Status)
    requires |r| == |q| && forall i | 0 <= i < |r| :: r[i].status == q[i].status
    requires exists i | 0 <= i < |r| :: r[i].status == status
    requires exists i | 0 <= i < |q| :: q[i].status == status
    ensures Find(r, status) == Find(q, status)
  {
    if r[|r| - 1].status != status {
      SameStatusSameFind(r[..|r| - 1], q[..|q| - 1], status);
    }
  }
}
