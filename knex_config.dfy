/**
 * The knex case hooks (`knexConfigHelper.caseTransforms` in
 * src/knex-config.helpers.ts): result rows come back with camelCase keys,
 * identifiers go out in snake_case.
 *
 * `toCamelCase` delegates to the `case` package, which is not part of this
 * model: it is passed in as the function `camel`.
 */
module KnexConfig {
  import opened StrUtil
  import opened ObjUtil

  /** `toSnakeCase(s)`: the identifier converter knex's wrapIdentifier hook uses. */
  method ToSnakeCase(s: string) returns (r: string)
    ensures r == SnakeCased(s)
  {
    r := SnakeCase(s);
  }

  /**
   * The loop of `postProcessResponse` over an array of rows: each row is
   * transformed in turn (rewriting the arrays inside it); the array itself
   * is only read.
   */
  method TransformRows(heap: Heap, a: Ref, camel: Key -> Key) returns (out: seq<Value>)
    requires heap.Valid() && a in heap.arrays
    modifies heap
    ensures heap.Valid() && heap.rank == old(heap.rank) && heap.next == old(heap.next)
    ensures a in heap.arrays && heap.arrays[a] == old(heap.arrays)[a]
    ensures out == TransformedAll(old(heap.arrays)[a], camel)
    ensures forall e :: e in out ==> RankedBelow(e, heap.rank, heap.rank[a]) && WellFormed(e)
    ensures heap.arrays == RewriteRows(a, 0, camel, old(heap.arrays), heap.rank)
  {
    ghost var rows := heap.arrays[a];
    out := [];
    var i := 0;
    while i < |heap.arrays[a]|
      invariant heap.Valid() && heap.rank == old(heap.rank) && heap.next == old(heap.next)
      invariant a in heap.arrays && heap.arrays[a] == rows && i <= |rows|
      invariant out == TransformedAll(rows[..i], camel)
      invariant RewriteRows(a, i, camel, heap.arrays, heap.rank)
        == RewriteRows(a, 0, camel, old(heap.arrays), heap.rank)
      decreases |rows| - i
    {
      RewriteRowsStep(a, i, camel, heap.arrays, heap.rank);
      TransformedAllSnoc(rows, i, camel);
      assert heap.arrays[a][i] in heap.arrays[a];
      var t := heap.TransformKeys(heap.arrays[a][i], camel);
      out := out + [t];
      i := i + 1;
    }
    assert rows[..i] == rows;
    TransformedAllRanked(rows, camel, heap.rank, heap.rank[a]);
  }

  /**
   * `postProcessResponse(result)`. An array of rows is copied into a fresh
   * array whose element i is the transform of row i (rewriting in place
   * the arrays inside that row); the array knex returned is only read.
   * Any other result is transformed as a whole.
   */
  method PostProcessResponse(heap: Heap, result: Value, camel: Key -> Key) returns (r: Value)
    requires heap.Valid() && Refs(result) <= heap.arrays.Keys && WellFormed(result)
    modifies heap
    ensures heap.Valid() && heap.rank.Keys >= old(heap.rank.Keys)
    ensures !result.Arr? ==>
      && r == Transformed(result, camel)
      && heap.arrays == Rewrite(result, camel, old(heap.arrays), old(heap.rank))
    ensures result.Arr? ==>
      && r.Arr? && r.ref == old(heap.next) && r.ref !in old(heap.arrays)
      && heap.arrays
         == RewriteRows(result.ref, 0, camel, old(heap.arrays), old(heap.rank))
              [r.ref := TransformedAll(old(heap.arrays)[result.ref], camel)]
      && heap.arrays[result.ref] == old(heap.arrays)[result.ref]
      && |heap.arrays[r.ref]| == |old(heap.arrays)[result.ref]|
  {
    if !result.Arr? {
      r := heap.TransformKeys(result, camel);
      return;
    }
    var a := result.ref;
    var out := TransformRows(heap, a, camel);
    var copy := heap.NewArray(out, heap.rank[a]);
    r := Arr(copy);
  }

  /**
   * `wrapIdentifier(value, origImpl)`: the snake-cased identifier goes to
   * knex's own quoting, or the original when the snake-cased one is empty.
   * Snake-casing empties only the empty string, so origImpl always receives
   * the snake-cased value.
   */
  method WrapIdentifier(value: string, origImpl: string -> string) returns (r: string)
    ensures r == origImpl(SnakeCased(value))
  {
    var transformed := ToSnakeCase(value);
    if |transformed| > 0 {
      r := origImpl(transformed);
    } else {
      SnakeCasedNeverShorter(value);
      r := origImpl(value);
    }
  }
}
