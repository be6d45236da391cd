/** The calls the loader makes on its collaborators: the database manager,
    the statement builder and prepared statement it hands out, and the
    transaction that wraps each row's write. A run of the loader is described
    by the list of these calls, in the order they were made. */
module Protocol {
  import opened Rows

  datatype Call =
    | Statement(profile: string)                  // manager: statement builder for a connection
    | InsertInto(table: string, columns: seq<string>)  // builder: insert into table (columns)
    | Prepare                                     // builder: prepare the statement
    | Transaction(profile: string)                // manager: transaction for a connection
    | Size(commitSize: int)                       // transaction: rows per commit
    | Run(meta: string, callback: seq<Call>)      // transaction: run the callback for a partition
    | Execute(params: Row)                        // prepared statement: execute with a row

  /** Every row executed, whether directly or inside a transaction's callback, in order. */
  function Executed(calls: seq<Call>): seq<Row>
    decreases calls
  {
    if calls == [] then []
    else
      (match calls[0]
       case Execute(params) => [params]
       case Run(_, callback) => Executed(callback)
       case _ => [])
      + Executed(calls[1..])
  }

  /** The top-level calls that set the write up rather than perform it:
      everything except `run` and `execute`. */
  function SetUp(calls: seq<Call>): seq<Call>
  {
    if calls == [] then []
    else (if calls[0].Run? || calls[0].Execute? then [] else [calls[0]]) + SetUp(calls[1..])
  }

  /** The partition keys of the top-level `run` calls, in order. */
  function Runs(calls: seq<Call>): seq<string>
  {
    if calls == [] then []
    else (if calls[0].Run? then [calls[0].meta] else []) + Runs(calls[1..])
  }

  /** The rows executed outside any transaction, in order. */
  function Bare(calls: seq<Call>): seq<Row>
  {
    if calls == [] then []
    else (if calls[0].Execute? then [calls[0].params] else []) + Bare(calls[1..])
  }

  /** Each view of a log distributes over concatenation: what two stretches
      of a run did is what the first did followed by what the second did. */
  lemma {:induction false} ViewsAppend(a: seq<Call>, b: seq<Call>)
    ensures Executed(a + b) == Executed(a) + Executed(b)
    ensures SetUp(a + b) == SetUp(a) + SetUp(b)
    ensures Runs(a + b) == Runs(a) + Runs(b)
    ensures Bare(a + b) == Bare(a) + Bare(b)
  {
    if a != [] {
      assert (a + b)[0] == a[0];
      assert (a + b)[1..] == a[1..] + b;
      ViewsAppend(a[1..], b);
    } else {
      assert a + b == b;
    }
  }
}
