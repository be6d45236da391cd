/** The loader's column handling: which columns the insert statement names,
    and which row is handed to the statement's `execute` for each input row. */
module Columns {
  import opened Rows

  /** The loader's `columns` option: unset, a list of names to keep, or a
      map from source column to target column (its iteration order kept). */
  datatype ColumnSpec =
    | Unset
    | Filter(names: seq<string>)
    | Rename(mapping: seq<(string, string)>)

  const CreatedAt: string := "created_at"
  const UpdatedAt: string := "updated_at"

  /** The target names of a source-to-target mapping, in mapping order. */
  function Targets(pairs: seq<(string, string)>): (ts: seq<string>)
  {
    seq(|pairs|, i requires 0 <= i < |pairs| => pairs[i].1)
  }

  /** A spec as source-to-target pairs: a filter keeps each name under itself. */
  function Pairs(spec: ColumnSpec): seq<(string, string)>
  {
    match spec
    case Unset => []
    case Filter(names) => seq(|names|, i requires 0 <= i < |names| => (names[i], names[i]))
    case Rename(mapping) => mapping
  }

  /** The columns a spec names, before any timestamps. */
  function SpecColumns(spec: ColumnSpec, sample: Row): seq<string>
  {
    match spec
    case Unset => Keys(sample)
    case Filter(names) => names
    case Rename(mapping) => Targets(mapping)
  }

  /** The column list given to the statement builder's `insert`: the sample
      row's keys when no spec is set, the filter's names, or the rename
      map's targets; `created_at` then `updated_at` follow when timestamps
      are on. */
  function InsertColumns(spec: ColumnSpec, sample: Row, timestamps: bool): (cols: seq<string>)
    ensures |cols| == |SpecColumns(spec, sample)| + (if timestamps then 2 else 0)
    ensures timestamps ==> cols[|cols| - 2] == CreatedAt && cols[|cols| - 1] == UpdatedAt
  {
    var base := SpecColumns(spec, sample);
    var stamps := if timestamps then [CreatedAt, UpdatedAt] else [];
    base + stamps
  }

  /** Builds the output row pair by pair: for each (source, target) whose
      source the row has, the output's entry for the target is assigned the
      row's value for the source (as `Put`: in place if the target is already
      there, appended otherwise). */
  function Project(row: Row, pairs: seq<(string, string)>): (out: Row)
    ensures WellFormed(out)
    ensures forall k :: k in Keys(out) ==> k in Targets(pairs)
    decreases |pairs|
  {
    if pairs == [] then []
    else
      var prefix := pairs[..|pairs| - 1];
      var acc := Project(row, prefix);
      assert forall k :: k in Targets(prefix) ==> k in Targets(pairs) by {
        assert Targets(prefix) == Targets(pairs)[..|pairs| - 1];
      }
      assert Targets(pairs)[|pairs| - 1] == pairs[|pairs| - 1].1;
      match Get(row, pairs[|pairs| - 1].0)
      case None => acc
      case Some(v) => PutWellFormed(acc, pairs[|pairs| - 1].1, v); Put(acc, pairs[|pairs| - 1].1, v)
  }

  /** Assigns the time to `created_at`, then to `updated_at`, each as `Put`
      does: kept in place when the row already has the key, appended when not. */
  function Stamp(row: Row, now: string): (r: Row)
    ensures Get(r, CreatedAt) == Some(Str(now)) && Get(r, UpdatedAt) == Some(Str(now))
    ensures forall k :: k != CreatedAt && k != UpdatedAt ==> Get(r, k) == Get(row, k)
  {
    assert CreatedAt != UpdatedAt by { assert CreatedAt[0] != UpdatedAt[0]; }
    Put(Put(row, CreatedAt, Str(now)), UpdatedAt, Str(now))
  }

  /** The parameters passed to `execute` for one input row: the row itself
      when no spec is set, otherwise its projection through the spec, then
      stamped when timestamps are on. */
  function Params(spec: ColumnSpec, row: Row, timestamps: bool, now: string): (r: Row)
    ensures timestamps ==> Get(r, CreatedAt) == Some(Str(now)) && Get(r, UpdatedAt) == Some(Str(now))
  {
    var base := if spec.Unset? then row else Project(row, Pairs(spec));
    if timestamps then Stamp(base, now) else base
  }

  /** The targets, in mapping order, of the pairs whose source the row has. */
  function PresentTargets(row: Row, pairs: seq<(string, string)>): seq<string>
  {
    if pairs == [] then []
    else (if pairs[0].0 in Keys(row) then [pairs[0].1] else []) + PresentTargets(row, pairs[1..])
  }

  /** The names, in list order, that are keys of the row. */
  function Present(row: Row, names: seq<string>): seq<string>
  {
    if names == [] then []
    else (if names[0] in Keys(row) then [names[0]] else []) + Present(row, names[1..])
  }

  /** Read from the back: the last pair adds its target at the end exactly
      when the row has its source. */
  lemma {:induction false} PresentTargetsLast(row: Row, pairs: seq<(string, string)>)
    requires pairs != []
    ensures PresentTargets(row, pairs)
         == PresentTargets(row, pairs[..|pairs| - 1])
            + (if pairs[|pairs| - 1].0 in Keys(row) then [pairs[|pairs| - 1].1] else [])
    decreases |pairs|
  {
    var n := |pairs| - 1;
    var first := if pairs[0].0 in Keys(row) then [pairs[0].1] else [];
    var last := if pairs[n].0 in Keys(row) then [pairs[n].1] else [];
    if n == 0 {
      assert PresentTargets(row, pairs) == first + PresentTargets(row, pairs[1..]);
      assert pairs[1..] == [] && pairs[..n] == [];
    } else {
      var tail := pairs[1..];
      PresentTargetsLast(row, tail);
      assert tail[..|tail| - 1] == pairs[..n][1..];
      assert tail[|tail| - 1] == pairs[n];
      assert pairs[..n][0] == pairs[0];
      calc {
        PresentTargets(row, pairs);
        first + PresentTargets(row, tail);
        first + (PresentTargets(row, tail[..|tail| - 1]) + last);
        (first + PresentTargets(row, pairs[..n][1..])) + last;
        PresentTargets(row, pairs[..n]) + last;
      }
    }
  }

  /** With distinct targets, the projection holds exactly the targets whose
      source is present, in mapping order, each with its source's value;
      every other key is absent. */
  lemma ProjectSpec(row: Row, pairs: seq<(string, string)>)
    requires Distinct(Targets(pairs))
    ensures Keys(Project(row, pairs)) == PresentTargets(row, pairs)
    ensures forall i :: 0 <= i < |pairs| ==> Get(Project(row, pairs), pairs[i].1) == Get(row, pairs[i].0)
    ensures forall k :: k !in Targets(pairs) ==> Get(Project(row, pairs), k) == None
  {
    ProjectKeys(row, pairs);
    ProjectValues(row, pairs);
  }

  lemma {:induction false} ProjectKeys(row: Row, pairs: seq<(string, string)>)
    requires Distinct(Targets(pairs))
    ensures Keys(Project(row, pairs)) == PresentTargets(row, pairs)
    decreases |pairs|
  {
    if pairs != [] {
      LastTargetFresh(pairs);
      ProjectKeys(row, pairs[..|pairs| - 1]);
      ProjectStep(row, pairs);
      PresentTargetsLast(row, pairs);
    }
  }

  /** One more pair whose target is new adds that target at the end exactly
      when the row has its source. */
  lemma ProjectStep(row: Row, pairs: seq<(string, string)>)
    requires pairs != [] && pairs[|pairs| - 1].1 !in Targets(pairs[..|pairs| - 1])
    ensures Keys(Project(row, pairs))
         == Keys(Project(row, pairs[..|pairs| - 1]))
            + (if pairs[|pairs| - 1].0 in Keys(row) then [pairs[|pairs| - 1].1] else [])
  {
    var n := |pairs| - 1;
    var acc := Project(row, pairs[..n]);
    assert pairs[n].1 !in Keys(acc);
    match Get(row, pairs[n].0)
    case None =>
      assert Project(row, pairs) == acc;
    case Some(v) =>
      assert Project(row, pairs) == Put(acc, pairs[n].1, v);
  }

  /** A last pair whose source the row has and whose target the projection
      so far lacks appends exactly one entry: the target with the source's
      value. */
  lemma ProjectAppend(row: Row, pairs: seq<(string, string)>, v: Value)
    requires pairs != [] && Get(row, pairs[|pairs| - 1].0) == Some(v)
    requires pairs[|pairs| - 1].1 !in Keys(Project(row, pairs[..|pairs| - 1]))
    ensures Project(row, pairs) == Project(row, pairs[..|pairs| - 1]) + [(pairs[|pairs| - 1].1, v)]
  {
    var acc := Project(row, pairs[..|pairs| - 1]);
    assert Project(row, pairs) == Put(acc, pairs[|pairs| - 1].1, v);
    PutAbsent(acc, pairs[|pairs| - 1].1, v);
  }

  lemma ProjectValues(row: Row, pairs: seq<(string, string)>)
    requires Distinct(Targets(pairs))
    ensures forall i :: 0 <= i < |pairs| ==> Get(Project(row, pairs), pairs[i].1) == Get(row, pairs[i].0)
  {
    forall i | 0 <= i < |pairs| ensures Get(Project(row, pairs), pairs[i].1) == Get(row, pairs[i].0) {
      ProjectValueAt(row, pairs, i);
    }
  }

  lemma {:induction false} ProjectValueAt(row: Row, pairs: seq<(string, string)>, i: nat)
    requires Distinct(Targets(pairs)) && i < |pairs|
    ensures Get(Project(row, pairs), pairs[i].1) == Get(row, pairs[i].0)
    decreases |pairs|
  {
    var n := |pairs| - 1;
    var prefix, last := pairs[..n], pairs[n];
    LastTargetFresh(pairs);
    var acc := Project(row, prefix);
    assert last.1 !in Keys(acc);
    if i < n {
      ProjectValueAt(row, prefix, i);
      assert pairs[i] == prefix[i];
      assert pairs[i].1 != last.1 by {
        assert Targets(pairs)[i] != Targets(pairs)[n];
      }
      match Get(row, last.0)
      case None =>
        assert Project(row, pairs) == acc;
      case Some(v) =>
        assert Project(row, pairs) == Put(acc, last.1, v);
    } else {
      match Get(row, last.0)
      case None =>
        assert Project(row, pairs) == acc;
      case Some(v) =>
        assert Project(row, pairs) == Put(acc, last.1, v);
    }
  }

  /** The last target differs from all earlier ones, and the earlier pairs
      have distinct targets too. */
  lemma LastTargetFresh(pairs: seq<(string, string)>)
    requires pairs != [] && Distinct(Targets(pairs))
    ensures Distinct(Targets(pairs[..|pairs| - 1]))
    ensures pairs[|pairs| - 1].1 !in Targets(pairs[..|pairs| - 1])
  {
    var n := |pairs| - 1;
    assert Targets(pairs[..n]) == Targets(pairs)[..n];
    forall i | 0 <= i < n ensures Targets(pairs[..n])[i] != pairs[n].1 {
      assert Targets(pairs)[i] == Targets(pairs[..n])[i] && Targets(pairs)[n] == pairs[n].1;
    }
  }

  /** A list of names as a spec keeps exactly the listed keys the row has, in
      list order, with their values unchanged (tests/Loaders/InsertTest.php:62-73). */
  lemma FilterParams(row: Row, names: seq<string>, now: string)
    requires Distinct(names)
    ensures Keys(Params(Filter(names), row, false, now)) == Present(row, names)
    ensures forall k :: Get(Params(Filter(names), row, false, now), k)
                     == if k in names then Get(row, k) else None
  {
    var pairs := Pairs(Filter(names));
    assert Targets(pairs) == names;
    ProjectSpec(row, pairs);
    PresentFilter(row, names);
    var p := Params(Filter(names), row, false, now);
    forall k ensures Get(p, k) == if k in names then Get(row, k) else None {
      if k in names {
        var i :| 0 <= i < |names| && names[i] == k;
        assert pairs[i] == (k, k);
      }
    }
  }

  lemma {:induction false} PresentFilter(row: Row, names: seq<string>)
    ensures PresentTargets(row, Pairs(Filter(names))) == Present(row, names)
  {
    if names != [] {
      assert Pairs(Filter(names))[1..] == Pairs(Filter(names[1..]));
      PresentFilter(row, names[1..]);
    }
  }

  /** A rename map keeps, in map order, the target of every source the row
      has, carrying the source's value; keys the map does not name as a target
      are dropped (tests/Loaders/InsertTest.php:75-89). */
  lemma RenameParams(row: Row, mapping: seq<(string, string)>, now: string)
    requires Distinct(Targets(mapping))
    ensures Keys(Params(Rename(mapping), row, false, now)) == PresentTargets(row, mapping)
    ensures forall i :: 0 <= i < |mapping| ==>
              Get(Params(Rename(mapping), row, false, now), mapping[i].1) == Get(row, mapping[i].0)
    ensures forall k :: k !in Targets(mapping) ==> Get(Params(Rename(mapping), row, false, now), k) == None
  {
    ProjectSpec(row, mapping);
  }

  /** With no spec the row is passed through untouched. */
  lemma UnsetParams(row: Row, now: string)
    ensures Params(Unset, row, false, now) == row
  {
  }

  /** Timestamps give `created_at` and `updated_at` the same value, and append
      them, in that order, after the other columns when the columns the spec
      keeps do not include them (tests/Loaders/InsertTest.php:107-118). */
  lemma TimestampParams(spec: ColumnSpec, row: Row, now: string)
    ensures Get(Params(spec, row, true, now), CreatedAt) == Some(Str(now))
    ensures Get(Params(spec, row, true, now), UpdatedAt) == Some(Str(now))
    ensures var base := Params(spec, row, false, now);
            CreatedAt !in Keys(base) && UpdatedAt !in Keys(base) ==>
              Params(spec, row, true, now) == base + [(CreatedAt, Str(now)), (UpdatedAt, Str(now))]
  {
    var base := Params(spec, row, false, now);
    assert CreatedAt != UpdatedAt by { assert CreatedAt[0] != UpdatedAt[0]; }
    if CreatedAt !in Keys(base) && UpdatedAt !in Keys(base) {
      PutAbsent(base, CreatedAt, Str(now));
      var once := Put(base, CreatedAt, Str(now));
      assert UpdatedAt !in Keys(once);
      PutAbsent(once, UpdatedAt, Str(now));
    }
  }

  /** The conditions under which the parameters' keys are exactly the insert
      statement's column list: the spec's names are distinct, the row has
      every source the spec names (with no spec: exactly the sample's keys,
      in order), and timestamps do not collide with a named column. */
  predicate Fits(spec: ColumnSpec, sample: Row, row: Row, timestamps: bool)
  {
    var base := SpecColumns(spec, sample);
    && Distinct(base)
    && (forall i :: 0 <= i < |Pairs(spec)| ==> Pairs(spec)[i].0 in Keys(row))
    && (spec.Unset? ==> Keys(row) == Keys(sample))
    && (timestamps ==> CreatedAt !in base && UpdatedAt !in base)
  }

  lemma ParamsMatchColumns(spec: ColumnSpec, sample: Row, row: Row, timestamps: bool, now: string)
    requires Fits(spec, sample, row, timestamps)
    ensures Keys(Params(spec, row, timestamps, now)) == InsertColumns(spec, sample, timestamps)
  {
    var cols := SpecColumns(spec, sample);
    var base := Params(spec, row, false, now);
    BaseMatchesColumns(spec, sample, row, now);
    if timestamps {
      StampKeys(base, now);
      assert Params(spec, row, true, now) == Stamp(base, now);
    }
  }

  /** Before timestamps, the parameters' keys are the columns the spec names. */
  lemma BaseMatchesColumns(spec: ColumnSpec, sample: Row, row: Row, now: string)
    requires Distinct(SpecColumns(spec, sample))
    requires forall i :: 0 <= i < |Pairs(spec)| ==> Pairs(spec)[i].0 in Keys(row)
    requires spec.Unset? ==> Keys(row) == Keys(sample)
    ensures Keys(Params(spec, row, false, now)) == SpecColumns(spec, sample)
  {
    if !spec.Unset? {
      var pairs := Pairs(spec);
      assert Targets(pairs) == SpecColumns(spec, sample);
      ProjectKeepsAll(row, pairs);
    }
  }

  /** Stamping a row that lacks both stamp columns appends their keys, in order. */
  lemma StampKeys(row: Row, now: string)
    requires CreatedAt !in Keys(row) && UpdatedAt !in Keys(row)
    ensures Keys(Stamp(row, now)) == Keys(row) + [CreatedAt, UpdatedAt]
  {
    assert CreatedAt != UpdatedAt by { assert CreatedAt[0] != UpdatedAt[0]; }
    var once := Put(row, CreatedAt, Str(now));
    assert Keys(once) == Keys(row) + [CreatedAt];
  }

  /** When the row has every source and the targets are distinct, the
      projection's keys are all the targets, in mapping order. */
  lemma ProjectKeepsAll(row: Row, pairs: seq<(string, string)>)
    requires Distinct(Targets(pairs))
    requires forall i :: 0 <= i < |pairs| ==> pairs[i].0 in Keys(row)
    ensures Keys(Project(row, pairs)) == Targets(pairs)
  {
    ProjectSpec(row, pairs);
    AllPresent(row, pairs);
  }

  lemma {:induction false} AllPresent(row: Row, pairs: seq<(string, string)>)
    requires forall i :: 0 <= i < |pairs| ==> pairs[i].0 in Keys(row)
    ensures PresentTargets(row, pairs) == Targets(pairs)
  {
    if pairs != [] {
      AllPresent(row, pairs[1..]);
      assert Targets(pairs) == [pairs[0].1] + Targets(pairs[1..]);
    }
  }
}
