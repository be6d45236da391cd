/** The loader's documented scenarios: each method builds a loader, sets its
    options as the scenario does, builds the handler for table `table` over a
    pipeline whose sample is the row below, calls it once with partition key
    `meta`, and states the whole call log that results. */
module InsertScenarios {
  import opened Rows
  import opened Columns
  import opened Protocol
  import opened Loaders

  const Id: (string, Value) := ("id", Str("1"))
  const Name: (string, Value) := ("name", Str("Jane Doe"))
  const Email: (string, Value) := ("email", Str("janedoe@example.com"))

  /** The pipeline's sample and the row handed to the handler. */
  const Data: Row := [Id, Name, Email]

  lemma DataKeys()
    ensures Keys(Data) == ["id", "name", "email"]
  {
    assert [Email][1..] == [];
    assert Keys([Email]) == ["email"];
    assert [Name, Email][1..] == [Email];
    assert Keys([Name, Email]) == ["name", "email"];
    assert Data[1..] == [Name, Email];
  }

  lemma DataValues()
    ensures Get(Data, "id") == Some(Str("1")) && Get(Data, "name") == Some(Str("Jane Doe"))
  {
    assert Data[1..] == [Name, Email];
    assert "id" != "name" by { assert |"id"| != |"name"|; }
    assert Get(Data, "name") == Get([Name, Email], "name");
  }

  /** Whatever the options, the handler gives back the row it was called with. */
  method ReturnsTheRow(spec: ColumnSpec, timestamps: bool, transaction: bool,
                       sample: Row, row: Row, meta: string, now: string) returns (out: Row)
    ensures out == row
  {
    var loader := new Insert();
    loader.columns, loader.timestamps, loader.transaction := spec, timestamps, transaction;
    var h := loader.Handler(sample, "table");
    out := loader.Handle(h, row, meta, now);
  }

  /** Default options: one statement and one transaction, both for
      connection `default`; the sample's columns; the whole row executed
      inside a run for `meta`; a commit size of 100. */
  method DefaultOptions(now: string) returns (calls: seq<Call>, out: Row)
    ensures out == Data
    ensures calls == [Statement("default"), InsertInto("table", ["id", "name", "email"]), Prepare,
                      Transaction("default"), Size(100), Run("meta", [Execute(Data)])]
  {
    DataKeys();
    var loader := new Insert();
    var h := loader.Handler(Data, "table");
    assert InsertColumns(Unset, Data, false) == ["id", "name", "email"];
    assert loader.calls == [Statement("default"), InsertInto("table", ["id", "name", "email"]), Prepare,
                            Transaction("default"), Size(100)];
    out := loader.Handle(h, Data, "meta", now);
    calls := loader.calls;
  }

  /** `columns = ['id', 'name']`: only those columns are inserted and executed. */
  method FilteringColumns(now: string) returns (calls: seq<Call>)
    ensures calls == [Statement("default"), InsertInto("table", ["id", "name"]), Prepare,
                      Transaction("default"), Size(100), Run("meta", [Execute([Id, Name])])]
  {
    var loader := new Insert();
    loader.columns := Filter(["id", "name"]);
    var h := loader.Handler(Data, "table");
    assert InsertColumns(Filter(["id", "name"]), Data, false) == ["id", "name"];
    assert loader.calls == [Statement("default"), InsertInto("table", ["id", "name"]), Prepare,
                            Transaction("default"), Size(100)];
    FilterOfData(now);
    var _ := loader.Handle(h, Data, "meta", now);
    calls := loader.calls;
  }

  lemma FilterOfData(now: string)
    ensures Params(Filter(["id", "name"]), Data, false, now) == [Id, Name]
  {
    var pairs := Pairs(Filter(["id", "name"]));
    assert pairs == [("id", "id"), ("name", "name")];
    ProjectOfData(pairs);
  }

  /** Projecting the sample row through `id` then `name` under new names. */
  lemma ProjectOfData(pairs: seq<(string, string)>)
    requires |pairs| == 2 && pairs[0].0 == "id" && pairs[1].0 == "name" && pairs[0].1 != pairs[1].1
    ensures Project(Data, pairs) == [(pairs[0].1, Str("1")), (pairs[1].1, Str("Jane Doe"))]
  {
    var prefix := pairs[..|pairs| - 1];
    assert prefix[0] == pairs[0];
    ProjectOfId(prefix);
    DataValues();
    ProjectAppend(Data, pairs, Str("Jane Doe"));
  }

  /** Projecting the sample row through `id` alone, under a new name. */
  lemma ProjectOfId(pairs: seq<(string, string)>)
    requires |pairs| == 1 && pairs[0].0 == "id"
    ensures Project(Data, pairs) == [(pairs[0].1, Str("1"))]
    ensures Keys(Project(Data, pairs)) == [pairs[0].1]
  {
    DataValues();
    assert pairs[..0] == [];
    ProjectAppend(Data, pairs, Str("1"));
    assert [(pairs[0].1, Str("1"))][1..] == [];
  }

  /** `columns = ['id' => 'user_id', 'name' => 'full_name']`: the targets are
      inserted, carrying the sources' values; `email` is dropped. */
  method MappingColumns(now: string) returns (calls: seq<Call>)
    ensures calls == [Statement("default"), InsertInto("table", ["user_id", "full_name"]), Prepare,
                      Transaction("default"), Size(100),
                      Run("meta", [Execute([("user_id", Str("1")), ("full_name", Str("Jane Doe"))])])]
  {
    var mapping := [("id", "user_id"), ("name", "full_name")];
    var loader := new Insert();
    loader.columns := Rename(mapping);
    assert Targets(mapping) == ["user_id", "full_name"];
    var h := loader.Handler(Data, "table");
    assert InsertColumns(Rename(mapping), Data, false) == ["user_id", "full_name"];
    assert loader.calls == [Statement("default"), InsertInto("table", ["user_id", "full_name"]), Prepare,
                            Transaction("default"), Size(100)];
    RenameOfData(now);
    var _ := loader.Handle(h, Data, "meta", now);
    calls := loader.calls;
  }

  lemma RenameOfData(now: string)
    ensures Params(Rename([("id", "user_id"), ("name", "full_name")]), Data, false, now)
         == [("user_id", Str("1")), ("full_name", Str("Jane Doe"))]
  {
    assert "user_id" != "full_name" by { assert |"user_id"| != |"full_name"|; }
    ProjectOfData([("id", "user_id"), ("name", "full_name")]);
  }

  /** `transaction = false`: no transaction is obtained, sized or run; the
      whole row is still executed once, with the sample's columns. */
  method WithoutTransactions(now: string) returns (calls: seq<Call>)
    ensures calls == [Statement("default"), InsertInto("table", ["id", "name", "email"]), Prepare,
                      Execute(Data)]
  {
    DataKeys();
    var loader := new Insert();
    loader.transaction := false;
    var h := loader.Handler(Data, "table");
    assert InsertColumns(Unset, Data, false) == ["id", "name", "email"];
    assert loader.calls == [Statement("default"), InsertInto("table", ["id", "name", "email"]), Prepare];
    var _ := loader.Handle(h, Data, "meta", now);
    calls := loader.calls;
  }

  /** `timestamps = true`: `created_at` and `updated_at` follow the other
      columns, both in the column list and in the executed row, with the
      same time in both. */
  method WithTimestamps(now: string) returns (calls: seq<Call>)
    ensures calls == [Statement("default"),
                      InsertInto("table", ["id", "name", "email", "created_at", "updated_at"]), Prepare,
                      Transaction("default"), Size(100),
                      Run("meta", [Execute(Data + [("created_at", Str(now)), ("updated_at", Str(now))])])]
  {
    DataKeys();
    var loader := new Insert();
    loader.timestamps := true;
    var h := loader.Handler(Data, "table");
    assert InsertColumns(Unset, Data, true) == ["id", "name", "email", "created_at", "updated_at"];
    assert loader.calls == [Statement("default"),
                            InsertInto("table", ["id", "name", "email", "created_at", "updated_at"]), Prepare,
                            Transaction("default"), Size(100)];
    assert "created_at" !in Keys(Data) && "updated_at" !in Keys(Data);
    TimestampParams(Unset, Data, now);
    var _ := loader.Handle(h, Data, "meta", now);
    calls := loader.calls;
  }

  /** `commitSize = 50`: the transaction is sized to 50. */
  method CustomCommitSize(now: string) returns (calls: seq<Call>)
    ensures calls == [Statement("default"), InsertInto("table", ["id", "name", "email"]), Prepare,
                      Transaction("default"), Size(50), Run("meta", [Execute(Data)])]
  {
    DataKeys();
    var loader := new Insert();
    loader.commitSize := 50;
    var h := loader.Handler(Data, "table");
    assert InsertColumns(Unset, Data, false) == ["id", "name", "email"];
    assert loader.calls == [Statement("default"), InsertInto("table", ["id", "name", "email"]), Prepare,
                            Transaction("default"), Size(50)];
    var _ := loader.Handle(h, Data, "meta", now);
    calls := loader.calls;
  }
}
