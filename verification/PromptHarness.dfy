/** Cleaning and validation of the five prompt modules. */
module PromptHarness {
  import opened Wrappers
  import opened Evidence
  import opened Registry

  datatype ModuleKey =
    | ScreeningRoleGoal | ScreeningRuleGuardrails | ScreeningJobEvaluation | ScreeningAiSpecialist | SchoolProvinceInference
    | Unknown(name: string)

  const MODULE_KEYS := [
    ScreeningRoleGoal, ScreeningRuleGuardrails, ScreeningJobEvaluation, ScreeningAiSpecialist, SchoolProvinceInference]

  const MODULE_MAX_CHARS := 8_000
  const TOTAL_MAX_CHARS := 24_000

  /** Submitted JSON: an object of module texts, or something else. */
  datatype RawText = Characters(s: string) | NotAString
  datatype RawModules = Object(entries: map<ModuleKey, RawText>) | NotAnObject

  type Modules = map<ModuleKey, string>

  function WithoutNul(s: string): (t: string)
    ensures '\0' !in t
    ensures '\0' !in s ==> t == s
  {
    if s == [] then [] else (if s[0] == '\0' then [] else [s[0]]) + WithoutNul(s[1..])
  }

  function Clean(u: Unicode, s: string): string {
    Trim(u, WithoutNul(s))
  }

  function Cleaner(u: Unicode): string -> string {
    (s: string) => Clean(u, s)
  }

  function TotalLength(modules: Modules, keys: seq<ModuleKey>): nat
    requires forall k | k in keys :: k in modules
  {
    if keys == [] then 0 else TotalLength(modules, keys[..|keys| - 1]) + |modules[keys[|keys| - 1]]|
  }

  predicate ProperText(clean: string -> string, raw: RawText) {
    raw.Characters? && 1 <= |clean(raw.s)| <= MODULE_MAX_CHARS
  }

  predicate Complete(clean: string -> string, raw: RawModules, keys: seq<ModuleKey>) {
    && raw.Object?
    && (forall k | k in keys :: k in raw.entries && ProperText(clean, raw.entries[k]))
    && (forall k | k in raw.entries :: k in keys)
  }

  function CleanAll(clean: string -> string, raw: RawModules, keys: seq<ModuleKey>): Modules
    requires Complete(clean, raw, keys)
  {
    map k | k in raw.entries :: clean(raw.entries[k].s)
  }

  function NormalizedFor(clean: string -> string, raw: RawModules, keys: seq<ModuleKey>): Option<Modules> {
    if Complete(clean, raw, keys) && TotalLength(CleanAll(clean, raw, keys), keys) <= TOTAL_MAX_CHARS then Some(CleanAll(clean, raw, keys))
    else None
  }

  /** The cleaned modules, or None when the submission is refused. */
  function Normalized(u: Unicode, raw: RawModules): Option<Modules> {
    NormalizedFor(Cleaner(u), raw, MODULE_KEYS)
  }

  lemma {:induction false} TotalLengthExtensional(a: Modules, b: Modules, keys: seq<ModuleKey>)
    requires forall k | k in keys :: k in a && k in b && a[k] == b[k]
    ensures TotalLength(a, keys) == TotalLength(b, keys)
  {
    if keys != [] {
      TotalLengthExtensional(a, b, keys[..|keys| - 1]);
    }
  }

  ghost predicate CleanedSoFar(clean: string -> string, raw: RawModules, normalized: Modules, keys: seq<ModuleKey>, total: nat) {
    && raw.Object? && (forall k | k in keys :: k in normalized)
    && (forall k | k in normalized :: k in keys && k in raw.entries)
    && (forall k | k in normalized :: ProperText(clean, raw.entries[k]) && normalized[k] == clean(raw.entries[k].s))
    && total == TotalLength(normalized, keys)
  }

  lemma AddModule(clean: string -> string, raw: RawModules, normalized: Modules, keys: seq<ModuleKey>, total: nat, key: ModuleKey)
    requires raw.Object? && key in raw.entries && ProperText(clean, raw.entries[key]) && key !in keys
    requires CleanedSoFar(clean, raw, normalized, keys, total)
    ensures var text := clean(raw.entries[key].s);
            CleanedSoFar(clean, raw, normalized[key := text], keys + [key], total + |text|)
  {
    var longer := normalized[key := clean(raw.entries[key].s)];
    TotalLengthExtensional(normalized, longer, keys);
    assert (keys + [key])[..|keys|] == keys;
  }

  lemma AllCleaned(clean: string -> string, raw: RawModules, normalized: Modules, keys: seq<ModuleKey>, total: nat)
    requires raw.Object? && CleanedSoFar(clean, raw, normalized, keys, total)
    requires forall k | k in raw.entries :: k in keys
    ensures Complete(clean, raw, keys) && CleanAll(clean, raw, keys) == normalized
    ensures TotalLength(CleanAll(clean, raw, keys), keys) == total
  {
    assert CleanAll(clean, raw, keys) == normalized;
  }

  method NormalizeFor(clean: string -> string, raw: RawModules, keys: seq<ModuleKey>) returns (r: Option<Modules>)
    requires forall i, j | 0 <= i < j < |keys| :: keys[i] != keys[j]
    ensures r == NormalizedFor(clean, raw, keys)
  {
    if raw.NotAnObject? || exists key | key in keys :: key !in raw.entries {
      return None;
    }
    if exists key | key in raw.entries :: key !in keys {
      return None;
    }
    var normalized: Modules := map[];
    var total: nat := 0;
    for i := 0 to |keys|
      invariant CleanedSoFar(clean, raw, normalized, keys[..i], total)
    {
      var key := keys[i];
      var value := raw.entries[key];
      assert key in keys;
      if value.NotAString? {
        return None;
      }
      var text := clean(value.s);
      if text == "" || |text| > MODULE_MAX_CHARS {
        return None;
      }
      AddModule(clean, raw, normalized, keys[..i], total, key);
      TakeNext(keys, i);
      normalized := normalized[key := text];
      total := total + |text|;
    }
    assert keys[..|keys|] == keys;
    AllCleaned(clean, raw, normalized, keys, total);
    return if total > TOTAL_MAX_CHARS then None else Some(normalized);
  }

  method NormalizeModules(u: Unicode, raw: RawModules) returns (r: Option<Modules>)
    ensures r == Normalized(u, raw)
    ensures r.Some? ==> raw.Object? && r.value.Keys == raw.entries.Keys
    ensures r.Some? ==> forall key | key in r.value ::
      raw.entries[key].Characters? && r.value[key] == Clean(u, raw.entries[key].s)
  {
    r := NormalizeFor(Cleaner(u), raw, MODULE_KEYS);
  }

  lemma TotalOfFive(m: Modules)
    requires forall key | key in MODULE_KEYS :: key in m
    ensures TotalLength(m, MODULE_KEYS) == |m[ScreeningRoleGoal]| + |m[ScreeningRuleGuardrails]| + |m[ScreeningJobEvaluation]|
      + |m[ScreeningAiSpecialist]| + |m[SchoolProvinceInference]|
  {
    assert MODULE_KEYS[..4][..3] == MODULE_KEYS[..3] && MODULE_KEYS[..3][..2] == MODULE_KEYS[..2];
    assert MODULE_KEYS[..2][..1] == MODULE_KEYS[..1] && MODULE_KEYS[..1][..0] == [];
    assert TotalLength(m, MODULE_KEYS[..2]) == TotalLength(m, MODULE_KEYS[..1]) + |m[ScreeningRuleGuardrails]|;
    assert TotalLength(m, MODULE_KEYS[..4]) == TotalLength(m, MODULE_KEYS[..3]) + |m[ScreeningAiSpecialist]|;
  }

  /** The cleaned length of a submitted text, or 0. */
  function CleanLength(u: Unicode, raw: RawModules, key: ModuleKey): nat {
    if raw.Object? && key in raw.entries && raw.entries[key].Characters? then |Clean(u, raw.entries[key].s)| else 0
  }

  /** A submission is accepted exactly if it holds the five texts and no others, each with 1 to 8000 characters after
      cleaning, and at most 24000 together. */
  lemma AcceptedIff(u: Unicode, raw: RawModules)
    ensures Normalized(u, raw).Some? <==>
      && raw.Object? && (forall key :: key in raw.entries <==> key in MODULE_KEYS)
      && (forall key | key in MODULE_KEYS :: raw.entries[key].Characters? && 1 <= CleanLength(u, raw, key) <= 8_000)
      && CleanLength(u, raw, ScreeningRoleGoal) + CleanLength(u, raw, ScreeningRuleGuardrails)
         + CleanLength(u, raw, ScreeningJobEvaluation) + CleanLength(u, raw, ScreeningAiSpecialist)
         + CleanLength(u, raw, SchoolProvinceInference) <= 24_000
  {
    if Complete(Cleaner(u), raw, MODULE_KEYS) {
      TotalOfFive(CleanAll(Cleaner(u), raw, MODULE_KEYS));
      assert forall key | key in MODULE_KEYS :: CleanLength(u, raw, key) == |CleanAll(Cleaner(u), raw, MODULE_KEYS)[key]|;
    }
  }

  lemma NulVanishes(c: char)
    ensures WithoutNul([c]) == if c == '\0' then [] else [c]
  {
    assert [c][1..] == [];
  }

  /** Dropping the NUL characters keeps all others in order. */
  lemma {:induction false} WithoutNulConcat(s: string, t: string)
    ensures WithoutNul(s + t) == WithoutNul(s) + WithoutNul(t)
  {
    if s == [] {
      assert s + t == t;
    } else {
      var head := if s[0] == '\0' then [] else [s[0]];
      calc {
        WithoutNul(s + t);
        { assert (s + t)[1..] == s[1..] + t && (s + t)[0] == s[0]; }
        head + WithoutNul(s[1..] + t);
        { WithoutNulConcat(s[1..], t); }
        head + (WithoutNul(s[1..]) + WithoutNul(t));
        (head + WithoutNul(s[1..])) + WithoutNul(t);
      }
    }
  }

  /** Cleaning drops the NUL characters and then exactly the white space at both ends. */
  lemma CleanIsTrimmed(u: Unicode, s: string) returns (a: nat, b: nat)
    ensures a <= b <= |WithoutNul(s)| && Clean(u, s) == WithoutNul(s)[a..b]
    ensures forall i | 0 <= i < a || b <= i < |WithoutNul(s)| :: u.isSpace(WithoutNul(s)[i])
    ensures a < b ==> !u.isSpace(WithoutNul(s)[a]) && !u.isSpace(WithoutNul(s)[b - 1])
  {
    a, b := TrimIsSlice(u, WithoutNul(s));
  }

  // ----- Idempotence -----

  lemma {:induction false} TrimLeftFixed(u: Unicode, s: string)
    ensures '\0' !in s ==> '\0' !in TrimLeft(u, s)
    ensures TrimLeft(u, s) != [] ==> !u.isSpace(TrimLeft(u, s)[0])
  {
    if s != [] && u.isSpace(s[0]) {
      TrimLeftFixed(u, s[1..]);
    }
  }

  lemma {:induction false} TrimRightFixed(u: Unicode, s: string)
    ensures TrimRight(u, s) <= s
    ensures TrimRight(u, s) != [] ==> !u.isSpace(TrimRight(u, s)[|TrimRight(u, s)| - 1])
  {
    if s != [] && u.isSpace(s[|s| - 1]) {
      TrimRightFixed(u, s[..|s| - 1]);
    }
  }

  lemma CleanIsIdempotent(u: Unicode, s: string)
    ensures Clean(u, Clean(u, s)) == Clean(u, s)
  {
    var t := WithoutNul(s);
    TrimLeftFixed(u, t);
    TrimRightFixed(u, TrimLeft(u, t));
    var c := Clean(u, s);
    assert forall i | 0 <= i < |c| :: c[i] == TrimLeft(u, t)[i];
    assert WithoutNul(c) == c && TrimLeft(u, c) == c;
  }

  function AsRaw(modules: Modules): RawModules {
    Object(map k | k in modules :: Characters(modules[k]))
  }

  lemma NormalizeForIsIdempotent(clean: string -> string, raw: RawModules, keys: seq<ModuleKey>)
    requires forall s :: clean(clean(s)) == clean(s)
    requires NormalizedFor(clean, raw, keys).Some?
    ensures NormalizedFor(clean, AsRaw(NormalizedFor(clean, raw, keys).value), keys) == NormalizedFor(clean, raw, keys)
  {
    var modules := NormalizedFor(clean, raw, keys).value;
    assert CleanAll(clean, AsRaw(modules), keys) == modules;
  }

  /** Cleaned modules are accepted again and unchanged, so a stored set can always be reused. */
  lemma NormalizeIsIdempotent(u: Unicode, raw: RawModules)
    requires Normalized(u, raw).Some?
    ensures Normalized(u, AsRaw(Normalized(u, raw).value)) == Normalized(u, raw)
  {
    forall s ensures Cleaner(u)(Cleaner(u)(s)) == Cleaner(u)(s) {
      CleanIsIdempotent(u, s);
    }
    NormalizeForIsIdempotent(Cleaner(u), raw, MODULE_KEYS);
  }
}
