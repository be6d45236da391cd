/** Rows as the loader sees them: PHP arrays with string keys, whose entries
    keep the order in which their keys were first assigned. */
module Rows {

  datatype Option<T> = None | Some(value: T)

  /** A scalar column value: a PHP string, integer or null. */
  datatype Value = Str(s: string) | Int(i: int) | Null

  /** An ordered association list from column name to value. */
  type Row = seq<(string, Value)>

  /** The keys of a row, in order (PHP `array_keys`). */
  function Keys(r: Row): seq<string>
  {
    if r == [] then [] else [r[0].0] + Keys(r[1..])
  }

  predicate Distinct<T(==)>(s: seq<T>)
  {
    forall i, j :: 0 <= i < j < |s| ==> s[i] != s[j]
  }

  /** A PHP array never holds the same key twice. */
  predicate WellFormed(r: Row)
  {
    Distinct(Keys(r))
  }

  /** `$r[$k]`, with None when the key is absent. */
  function Get(r: Row, k: string): (v: Option<Value>)
    ensures v.Some? <==> k in Keys(r)
  {
    if r == [] then None
    else if r[0].0 == k then Some(r[0].1)
    else Get(r[1..], k)
  }

  /** `$r[$k] = $v`: an existing key keeps its position and takes the new
      value; a new key is appended at the end. */
  function Put(r: Row, k: string, v: Value): (r': Row)
    ensures Get(r', k) == Some(v)
    ensures forall j :: j != k ==> Get(r', j) == Get(r, j)
    ensures Keys(r') == if k in Keys(r) then Keys(r) else Keys(r) + [k]
  {
    if r == [] then [(k, v)]
    else if r[0].0 == k then
      assert ([(k, v)] + r[1..])[1..] == r[1..];
      [(k, v)] + r[1..]
    else
      var rest := Put(r[1..], k, v);
      assert ([r[0]] + rest)[1..] == rest;
      [r[0]] + rest
  }

  /** Assignment never makes a key appear twice. */
  lemma PutWellFormed(r: Row, k: string, v: Value)
    requires WellFormed(r)
    ensures WellFormed(Put(r, k, v))
  {
  }

  /** Assigning a key the row does not have appends exactly one entry. */
  lemma {:induction false} PutAbsent(r: Row, k: string, v: Value)
    requires k !in Keys(r)
    ensures Put(r, k, v) == r + [(k, v)]
  {
    if r != [] {
      assert k != r[0].0 && k !in Keys(r[1..]);
      PutAbsent(r[1..], k, v);
      assert [r[0]] + (r[1..] + [(k, v)]) == r + [(k, v)];
    }
  }
}
