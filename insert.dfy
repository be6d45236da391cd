/** The `Insert` loader: its options, the handler it builds for a pipeline
    and a table, and the calls that handler makes for each row. */
module Loaders {
  import opened Rows
  import opened Columns
  import opened Protocol

  /** What the handler closure captures when it is built: the column spec,
      the timestamp flag and whether rows are written inside a transaction. */
  datatype RowHandler = RowHandler(spec: ColumnSpec, timestamps: bool, transactional: bool)

  /** The calls made while building a handler: a statement builder for the
      connection, `insert` with the table and the column list, `prepare`; and,
      when transactions are on, a transaction for the same connection sized
      to the commit size. */
  function HandlerCalls(profile: string, table: string, columns: seq<string>,
                        transactional: bool, commitSize: int): seq<Call>
  {
    [Statement(profile), InsertInto(table, columns), Prepare]
    + (if transactional then [Transaction(profile), Size(commitSize)] else [])
  }

  /** One invocation of the handler: the row, its partition key and the
      time it is written at. */
  datatype Invocation = Invocation(row: Row, meta: string, now: string)

  /** The one call an invocation makes: `execute` with the row's parameters,
      inside a `run` for the row's partition key when transactions are on. */
  function InvocationCall(h: RowHandler, inv: Invocation): Call
  {
    var exec := Execute(Params(h.spec, inv.row, h.timestamps, inv.now));
    if h.transactional then Run(inv.meta, [exec]) else exec
  }

  /** The calls made by the handler over a sequence of invocations. */
  function RowsCalls(h: RowHandler, invs: seq<Invocation>): seq<Call>
  {
    if invs == [] then []
    else [InvocationCall(h, invs[0])] + RowsCalls(h, invs[1..])
  }

  /** The parameters each invocation executes with. */
  function ParamsOf(h: RowHandler, invs: seq<Invocation>): seq<Row>
  {
    if invs == [] then []
    else [Params(h.spec, invs[0].row, h.timestamps, invs[0].now)] + ParamsOf(h, invs[1..])
  }

  /** The partition keys of the invocations, in order. */
  function Metas(invs: seq<Invocation>): seq<string>
  {
    if invs == [] then [] else [invs[0].meta] + Metas(invs[1..])
  }

  class Insert {
    /** Column spec; unset by default. */
    var columns: ColumnSpec
    /** Connection (sink profile) name. */
    var connection: string
    /** Whether rows are written inside a transaction. */
    var transaction: bool
    /** Rows per commit, handed to the transaction. */
    var commitSize: int
    /** Whether `created_at` and `updated_at` are filled in. */
    var timestamps: bool
    /** Every call made on the database collaborators so far, in order. */
    var calls: seq<Call>

    /** A loader with the default options. */
    constructor ()
      ensures columns == Unset && connection == "default"
      ensures transaction && commitSize == 100 && !timestamps
      ensures calls == []
    {
      columns := Unset;
      connection := "default";
      transaction := true;
      commitSize := 100;
      timestamps := false;
      calls := [];
    }

    /** `handler($pipeline, $table)`: prepares the insert statement and, when
        transactions are on, the sized transaction; `sample` is what the
        pipeline's `sample()` returns. The options are read once, here. */
    method Handler(sample: Row, table: string) returns (h: RowHandler)
      modifies this`calls
      ensures h == RowHandler(columns, timestamps, transaction)
      ensures calls == old(calls)
        + HandlerCalls(connection, table, InsertColumns(columns, sample, timestamps), transaction, commitSize)
    {
      calls := calls + [Statement(connection)];
      var insertColumns := InsertColumns(columns, sample, timestamps);
      calls := calls + [InsertInto(table, insertColumns)];
      calls := calls + [Prepare];
      if transaction {
        calls := calls + [Transaction(connection)];
        calls := calls + [Size(commitSize)];
      }
      h := RowHandler(columns, timestamps, transaction);
    }

    /** Calling the handler with a row and its partition key: writes the
        transformed row and gives the original row back. */
    method Handle(h: RowHandler, row: Row, meta: string, now: string) returns (out: Row)
      modifies this`calls
      ensures out == row
      ensures calls == old(calls) + [InvocationCall(h, Invocation(row, meta, now))]
    {
      var params := Params(h.spec, row, h.timestamps, now);
      if h.transactional {
        calls := calls + [Run(meta, [Execute(params)])];
      } else {
        calls := calls + [Execute(params)];
      }
      out := row;
    }
  }

  /** A pipeline run through one loader: builds the handler for `table`,
      then calls it with each invocation in turn and collects what it
      returns. The loader's log then holds the set-up calls followed by one
      call per invocation, in order. */
  method Load(loader: Insert, sample: Row, table: string, invs: seq<Invocation>)
    returns (h: RowHandler, outs: seq<Row>)
    modifies loader`calls
    ensures h == RowHandler(loader.columns, loader.timestamps, loader.transaction)
    ensures |outs| == |invs| && forall i :: 0 <= i < |invs| ==> outs[i] == invs[i].row
    ensures loader.calls == old(loader.calls)
      + HandlerCalls(loader.connection, table, InsertColumns(loader.columns, sample, loader.timestamps),
                     loader.transaction, loader.commitSize)
      + RowsCalls(h, invs)
  {
    h := loader.Handler(sample, table);
    outs := HandleAll(loader, h, invs);
  }

  /** Calls an already built handler with each invocation in turn: every
      row comes back unchanged, and the log grows by the invocations' calls,
      in order. */
  method HandleAll(loader: Insert, h: RowHandler, invs: seq<Invocation>) returns (outs: seq<Row>)
    modifies loader`calls
    ensures |outs| == |invs| && forall i :: 0 <= i < |invs| ==> outs[i] == invs[i].row
    ensures loader.calls == old(loader.calls) + RowsCalls(h, invs)
  {
    outs := [];
    var i := 0;
    while i < |invs|
      invariant 0 <= i <= |invs|
      invariant |outs| == i && forall j :: 0 <= j < i ==> outs[j] == invs[j].row
      invariant loader.calls == old(loader.calls) + RowsCalls(h, invs[..i])
    {
      var out := loader.Handle(h, invs[i].row, invs[i].meta, invs[i].now);
      RowsCallsPrefix(h, invs, i);
      outs := outs + [out];
      i := i + 1;
    }
    assert invs[..i] == invs;
  }

  /** The calls for the first i + 1 invocations extend those for the first i
      by the calls of invocation i. */
  lemma RowsCallsPrefix(h: RowHandler, invs: seq<Invocation>, i: nat)
    requires i < |invs|
    ensures RowsCalls(h, invs[..i + 1]) == RowsCalls(h, invs[..i]) + [InvocationCall(h, invs[i])]
  {
    RowsCallsSnoc(h, invs[..i], invs[i]);
    assert invs[..i] + [invs[i]] == invs[..i + 1];
  }

  /** One more invocation appends its calls at the end of the log. */
  lemma {:induction false} RowsCallsSnoc(h: RowHandler, invs: seq<Invocation>, inv: Invocation)
    ensures RowsCalls(h, invs + [inv]) == RowsCalls(h, invs) + [InvocationCall(h, inv)]
  {
    if invs == [] {
      assert ([inv])[1..] == [];
    } else {
      assert (invs + [inv])[1..] == invs[1..] + [inv];
      RowsCallsSnoc(h, invs[1..], inv);
    }
  }

  /** However many rows a handler is called with: the statement, the insert,
      the prepare and the transaction are obtained once, when the handler is
      built; each row is executed once, in order, with its transformed
      parameters; with transactions on every execute happens inside a `run`
      for the row's partition key, and with them off there is no `run`.
      The calls after set-up are one per invocation: the i-th is that
      invocation's execute, wrapped in a `run` for its own key when
      transactions are on. */
  lemma {:induction false} HandlerSession(profile: string, table: string, columns: seq<string>,
                                          commitSize: int, h: RowHandler, invs: seq<Invocation>)
    ensures var log := HandlerCalls(profile, table, columns, h.transactional, commitSize) + RowsCalls(h, invs);
      && SetUp(log) == HandlerCalls(profile, table, columns, h.transactional, commitSize)
      && Executed(log) == ParamsOf(h, invs)
      && Runs(log) == (if h.transactional then Metas(invs) else [])
      && Bare(log) == (if h.transactional then [] else ParamsOf(h, invs))
    ensures |RowsCalls(h, invs)| == |invs|
    ensures forall i :: 0 <= i < |invs| ==>
      RowsCalls(h, invs)[i] == InvocationCall(h, invs[i])
  {
    var setup := HandlerCalls(profile, table, columns, h.transactional, commitSize);
    ViewsAppend(setup, RowsCalls(h, invs));
    RowsViews(h, invs);
    HandlerCallsViews(profile, table, columns, h.transactional, commitSize);
    RowsCallsAt(h, invs);
  }

  lemma {:induction false} RowsCallsAt(h: RowHandler, invs: seq<Invocation>)
    ensures |RowsCalls(h, invs)| == |invs|
    ensures forall i :: 0 <= i < |invs| ==> RowsCalls(h, invs)[i] == InvocationCall(h, invs[i])
  {
    if invs != [] {
      RowsCallsAt(h, invs[1..]);
      var all := RowsCalls(h, invs);
      assert all == [InvocationCall(h, invs[0])] + RowsCalls(h, invs[1..]);
      forall i | 0 <= i < |invs| ensures all[i] == InvocationCall(h, invs[i]) {
        if i > 0 {
          assert all[i] == RowsCalls(h, invs[1..])[i - 1];
          assert invs[1..][i - 1] == invs[i];
        }
      }
    }
  }

  lemma HandlerCallsViews(profile: string, table: string, columns: seq<string>,
                          transactional: bool, commitSize: int)
    ensures var calls := HandlerCalls(profile, table, columns, transactional, commitSize);
      SetUp(calls) == calls && Executed(calls) == [] && Runs(calls) == [] && Bare(calls) == []
  {
    var head := [Statement(profile), InsertInto(table, columns), Prepare];
    var tail: seq<Call> := if transactional then [Transaction(profile), Size(commitSize)] else [];
    ViewsAppend(head, tail);
    ViewsAppend([Statement(profile)], [InsertInto(table, columns), Prepare]);
    ViewsAppend([InsertInto(table, columns)], [Prepare]);
    if transactional {
      ViewsAppend([Transaction(profile)], [Size(commitSize)]);
    }
  }

  lemma {:induction false} RowsViews(h: RowHandler, invs: seq<Invocation>)
    ensures SetUp(RowsCalls(h, invs)) == []
    ensures Executed(RowsCalls(h, invs)) == ParamsOf(h, invs)
    ensures Runs(RowsCalls(h, invs)) == (if h.transactional then Metas(invs) else [])
    ensures Bare(RowsCalls(h, invs)) == (if h.transactional then [] else ParamsOf(h, invs))
  {
    if invs != [] {
      var first := [InvocationCall(h, invs[0])];
      ViewsAppend(first, RowsCalls(h, invs[1..]));
      RowsViews(h, invs[1..]);
      RowViews(h, invs[0]);
    }
  }

  lemma RowViews(h: RowHandler, inv: Invocation)
    ensures var calls := [InvocationCall(h, inv)];
      var params := Params(h.spec, inv.row, h.timestamps, inv.now);
      && SetUp(calls) == []
      && Executed(calls) == [params]
      && Runs(calls) == (if h.transactional then [inv.meta] else [])
      && Bare(calls) == (if h.transactional then [] else [params])
  {
    var params := Params(h.spec, inv.row, h.timestamps, inv.now);
    assert Executed([Execute(params)]) == [params];
  }
}
