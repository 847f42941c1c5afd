/** Reading a job file: which rows are imported, and which files are refused. */
module JobFile {
  import opened Wrappers
  import opened Departments
  import opened JobImport

  datatype ImportError =
    | MissingSecondary(row: nat)
    | RepeatedRows(groups: seq<seq<nat>>)
    | RepeatedJobs(ids: set<nat>)

  // ----- Reading the file -----

  predicate IsNamed(row: Row) {
    row.positionName != "" || row.publicName != ""
  }

  predicate IsUsable(row: Row) {
    row.details.responsibilities != ""
  }

  /** The rows that name a position. */
  function Named(file: seq<Row>): (rows: seq<Row>)
    ensures forall row :: row in rows <==> row in file && IsNamed(row)
  {
    if file == [] then []
    else
      var n := |file| - 1;
      Named(file[..n]) + if IsNamed(file[n]) then [file[n]] else []
  }

  /** The rows that are imported. */
  function Usable(file: seq<Row>): (rows: seq<Row>)
    ensures forall row :: row in rows <==> row in file && IsNamed(row) && IsUsable(row)
  {
    if file == [] then []
    else
      var n := |file| - 1;
      Usable(file[..n]) + if IsNamed(file[n]) && IsUsable(file[n]) then [file[n]] else []
  }

  /** The named rows are those with the name of a position or a public name, in the order of the file. */
  lemma {:induction false} NamedAreKept(file: seq<Row>)
    ensures Named(file) == Kept(file, (row: Row) => row.positionName != "" || row.publicName != "")
  {
    if file != [] {
      NamedAreKept(file[..|file| - 1]);
    }
  }

  /** The imported rows are the named rows with responsibilities, in the order of the file. */
  lemma {:induction false} UsableAreKept(file: seq<Row>)
    ensures Usable(file) ==
      Kept(file, (row: Row) => (row.positionName != "" || row.publicName != "") && row.details.responsibilities != "")
  {
    if file != [] {
      UsableAreKept(file[..|file| - 1]);
    }
  }

  lemma {:induction false} UsableAmongNamed(file: seq<Row>, i: nat) returns (a: nat)
    requires i < |Usable(file)|
    ensures a < |Named(file)| && Named(file)[a] == Usable(file)[i]
  {
    var n := |file| - 1;
    if i < |Usable(file[..n])| {
      a := UsableAmongNamed(file[..n], i);
    } else {
      a := |Named(file[..n])|;
    }
  }

  lemma {:induction false} UsablePairAmongNamed(file: seq<Row>, i: nat, k: nat) returns (a: nat, b: nat)
    requires i < k < |Usable(file)|
    ensures a < b < |Named(file)| && Named(file)[a] == Usable(file)[i] && Named(file)[b] == Usable(file)[k]
  {
    var n := |file| - 1;
    if k < |Usable(file[..n])| {
      a, b := UsablePairAmongNamed(file[..n], i, k);
    } else {
      a := UsableAmongNamed(file[..n], i);
      b := |Named(file[..n])|;
    }
  }

  /** Dropping rows from a file without repeated keys leaves one without repeated keys. */
  lemma UsableKeysAreDistinct(norm: Norm, file: seq<Row>)
    requires Distinct(RowKeys(norm, Named(file)))
    ensures Distinct(RowKeys(norm, Usable(file)))
  {
    var keys, usable := RowKeys(norm, Named(file)), RowKeys(norm, Usable(file));
    forall i: nat, k: nat | i < k < |usable| ensures usable[i] != usable[k] {
      var a, b := UsablePairAmongNamed(file, i, k);
      assert keys[a] != keys[b];
    }
  }

  // ----- Grouping by key -----

  /** The positions of a key, in order. */
  function Positions<K(==)>(keys: seq<K>, key: K): (r: seq<nat>)
    ensures forall a | 0 <= a < |r| :: r[a] < |keys| && keys[r[a]] == key
    ensures forall i: nat | i < |keys| && keys[i] == key :: i in r
  {
    if keys == [] then []
    else
      var n := |keys| - 1;
      var before := Positions(keys[..n], key);
      if keys[n] == key then before + [n] else before
  }

  lemma {:induction false} PositionsAscend<K>(keys: seq<K>, key: K)
    ensures forall a, b | 0 <= a < b < |Positions(keys, key)| :: Positions(keys, key)[a] < Positions(keys, key)[b]
  {
    if keys != [] {
      PositionsAscend(keys[..|keys| - 1], key);
    }
  }

  lemma PositionsNext<K>(keys: seq<K>, i: nat, key: K)
    requires i < |keys|
    ensures Positions(keys[..i + 1], key) == if keys[i] == key then Positions(keys[..i], key) + [i] else Positions(keys[..i], key)
  {
    assert keys[..i + 1][..i] == keys[..i];
  }

  ghost predicate Grouped<K>(keys: seq<K>, i: nat, groups: map<K, seq<nat>>, key: K) {
    i <= |keys| && if key in groups then groups[key] == Positions(keys[..i], key) else Positions(keys[..i], key) == []
  }

  method GroupByKey<K(==,!new)>(keys: seq<K>) returns (order: seq<K>, groups: map<K, seq<nat>>)
    ensures Distinct(order) && forall k :: k in order <==> k in groups
    ensures forall k :: Grouped(keys, |keys|, groups, k)
    ensures forall k | k in groups :: groups[k] != []
  {
    order, groups := [], map[];
    for i := 0 to |keys|
      invariant Distinct(order) && forall k :: k in order <==> k in groups
      invariant forall k :: Grouped(keys, i, groups, k)
      invariant forall k | k in groups :: groups[k] != []
    {
      var key, before := keys[i], groups;
      assert Grouped(keys, i, groups, key);
      if key in groups {
        groups := groups[key := groups[key] + [i]];
      } else {
        order := order + [key];
        groups := groups[key := [i]];
      }
      ghost var next := i + 1;
      forall k ensures Grouped(keys, next, groups, k) {
        assert Grouped(keys, i, before, k);
        PositionsNext(keys, i, k);
      }
    }
  }

  /** Reports the positions of every key that occurs more than once. */
  method RepeatedKeys(keys: seq<Key>) returns (repeated: seq<seq<nat>>)
    ensures repeated == [] <==> Distinct(keys)
    ensures forall g | g in repeated :: IsRepeatedGroup(keys, g)
    ensures forall k | k in keys && |Positions(keys, k)| > 1 :: Positions(keys, k) in repeated
  {
    var order, groups := GroupByKey(keys);
    assert keys[..|keys|] == keys;
    repeated := [];
    for n := 0 to |order|
      invariant forall g | g in repeated :: IsRepeatedGroup(keys, g)
      invariant forall k | k in order[..n] && |Positions(keys, k)| > 1 :: Positions(keys, k) in repeated
    {
      TakeNext(order, n);
      assert order[n] in order && Grouped(keys, |keys|, groups, order[n]);
      if |groups[order[n]]| > 1 {
        RepeatedGroup(keys, order[n]);
        repeated := repeated + [groups[order[n]]];
      }
    }
    assert order[..|order|] == order;
    forall k | k in keys && |Positions(keys, k)| > 1 ensures Positions(keys, k) in repeated {
      assert Grouped(keys, |keys|, groups, k);
    }
    RepeatedIffNotDistinct(keys, repeated);
  }

  ghost predicate IsRepeatedGroup(keys: seq<Key>, group: seq<nat>) {
    |group| > 1 && group[0] < |keys| && group == Positions(keys, keys[group[0]])
  }

  /** The listed groups are the groups of the keys that occur more than once. */
  ghost predicate ListsRepeated(keys: seq<Key>, groups: seq<seq<nat>>) {
    && (forall g | g in groups :: IsRepeatedGroup(keys, g))
    && (forall k | k in keys && |Positions(keys, k)| > 1 :: Positions(keys, k) in groups)
  }

  lemma RepeatedGroup(keys: seq<Key>, key: Key)
    requires |Positions(keys, key)| > 1
    ensures IsRepeatedGroup(keys, Positions(keys, key))
    ensures Positions(keys, key)[0] < Positions(keys, key)[1]
  {
    PositionsAscend(keys, key);
  }

  lemma RepeatedIffNotDistinct(keys: seq<Key>, repeated: seq<seq<nat>>)
    requires forall g | g in repeated :: IsRepeatedGroup(keys, g)
    requires forall k | k in keys && |Positions(keys, k)| > 1 :: Positions(keys, k) in repeated
    ensures repeated == [] <==> Distinct(keys)
  {
    if repeated != [] {
      var g := repeated[0];
      assert IsRepeatedGroup(keys, g);
      RepeatedGroup(keys, keys[g[0]]);
      assert keys[g[0]] == keys[g[1]];
    }
    if !Distinct(keys) {
      var i, j :| 0 <= i < j < |keys| && keys[i] == keys[j];
      assert i in Positions(keys, keys[i]) && j in Positions(keys, keys[i]);
      assert keys[i] in keys;
    }
  }

  /** Reads a job file: rows that name no position are ignored, a named row needs a secondary department,
      no two named rows share a key, and rows without responsibilities are then left out. */
  method ReadRows(norm: Norm, file: seq<Row>) returns (r: Result<seq<Row>, ImportError>)
    ensures r.Ok? <==> (forall row | row in Named(file) :: row.path.secondary != "") && Distinct(RowKeys(norm, Named(file)))
    ensures r.Ok? ==> r.value == Usable(file) && Distinct(RowKeys(norm, r.value))
    ensures r.Err? && r.error.MissingSecondary? ==>
      && r.error.row < |file| && IsNamed(file[r.error.row]) && file[r.error.row].path.secondary == ""
      && forall row | row in Named(file[..r.error.row]) :: row.path.secondary != ""
    ensures r.Err? ==> !r.error.RepeatedJobs?
    ensures r.Err? && r.error.RepeatedRows? ==> r.error.groups != [] && ListsRepeated(RowKeys(norm, Named(file)), r.error.groups)
    ensures r.Err? && r.error.RepeatedRows? ==> forall row | row in Named(file) :: row.path.secondary != ""
  {
    var named: seq<Row>, rows: seq<Row> := [], [];
    for i := 0 to |file|
      invariant named == Named(file[..i]) && rows == Usable(file[..i])
      invariant forall row | row in named :: row.path.secondary != ""
    {
      TakeNext(file, i);
      if !IsNamed(file[i]) {
        continue;
      }
      if file[i].path.secondary == "" {
        assert file[i] in file;
        return Err(MissingSecondary(i));
      }
      named := named + [file[i]];
      if !IsUsable(file[i]) {
        continue;
      }
      rows := rows + [file[i]];
    }
    assert file[..|file|] == file;
    var repeated := RepeatedKeys(RowKeys(norm, named));
    if repeated != [] {
      return Err(RepeatedRows(repeated));
    }
    UsableKeysAreDistinct(norm, file);
    return Ok(rows);
  }
}
