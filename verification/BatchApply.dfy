/** Applying a batched user function: chunk, mask, transpose, call and unmask, against applying it row by row. */
module BatchApply {

  datatype Value = Missing | Present(v: int)

  datatype Result<+T> = Ok(value: T) | Err(message: string)

  type Row = seq<Value>

  /** The columns of one batch. */
  type Columns = seq<seq<Value>>

  type BatchResult = Result<seq<Result<Value>>>

  const BATCH_ERROR := "Error in batch UDF."
  const COUNT_ERROR := "The number of rows produced by a UDF is different than the number of rows on its input."

  // ----- row by row

  predicate Masked(propagateNone: bool, row: Row) {
    propagateNone && Missing in row
  }

  function ApplyRow(f: Row -> Result<Value>, propagateNone: bool, row: Row): Result<Value> {
    if Masked(propagateNone, row) then Ok(Missing) else f(row)
  }

  /** The per-row branch of `apply`. */
  function PerRow(f: Row -> Result<Value>, propagateNone: bool, input: seq<Row>): seq<Result<Value>> {
    if input == [] then [] else [ApplyRow(f, propagateNone, input[0])] + PerRow(f, propagateNone, input[1..])
  }

  /** A `None` is among the arguments. */
  ghost predicate HasNone(row: Row) {
    exists j :: 0 <= j < |row| && row[j] == Missing
  }

  lemma MaskedIff(propagateNone: bool, row: Row)
    ensures Masked(propagateNone, row) <==> propagateNone && HasNone(row)
  {
  }

  /** `mask` marks exactly the rows with a `None` among their arguments, if those propagate. */
  ghost predicate MarksNone(propagateNone: bool, rows: seq<Row>, mask: seq<bool>) {
    && |mask| == |rows|
    && forall i :: 0 <= i < |rows| ==> (mask[i] <==> propagateNone && HasNone(rows[i]))
  }

  /** Row by row: `None` for a row with a `None` among its arguments, if those propagate, and the value of `f` otherwise. */
  ghost predicate RowByRow(f: Row -> Result<Value>, propagateNone: bool, input: seq<Row>, out: seq<Result<Value>>) {
    && |out| == |input|
    && forall i :: 0 <= i < |input| ==>
         out[i] == if propagateNone && HasNone(input[i]) then Ok(Missing) else f(input[i])
  }

  /** What the per-row branch computes. */
  lemma {:induction false} PerRowIs(f: Row -> Result<Value>, propagateNone: bool, input: seq<Row>)
    ensures RowByRow(f, propagateNone, input, PerRow(f, propagateNone, input))
  {
    if input == [] {
    } else {
      PerRowIs(f, propagateNone, input[1..]);
    }
  }

  // ----- in batches

  function Chunks(input: seq<Row>, size: nat): seq<seq<Row>>
    requires size > 0
    decreases |input|
  {
    if input == [] then []
    else if |input| <= size then [input]
    else [input[..size]] + Chunks(input[size..], size)
  }

  /** The rows of a chunk that are passed to the function. */
  function Kept(propagateNone: bool, rows: seq<Row>): seq<Row> {
    if rows == [] then []
    else (if Masked(propagateNone, rows[0]) then [] else [rows[0]]) + Kept(propagateNone, rows[1..])
  }

  predicate Rectangular(rows: seq<Row>, nArgs: nat) {
    forall i :: 0 <= i < |rows| ==> |rows[i]| == nArgs
  }

  function Transpose(rows: seq<Row>, nArgs: nat): (cols: Columns)
    requires Rectangular(rows, nArgs)
    ensures |cols| == nArgs
    ensures forall j :: 0 <= j < nArgs ==> |cols[j]| == |rows| && forall i :: 0 <= i < |rows| ==> cols[j][i] == rows[i][j]
  {
    seq(nArgs, j requires 0 <= j < nArgs => seq(|rows|, i requires 0 <= i < |rows| => rows[i][j]))
  }

  lemma {:induction false} KeptRectangular(propagateNone: bool, rows: seq<Row>, nArgs: nat)
    requires Rectangular(rows, nArgs)
    ensures Rectangular(Kept(propagateNone, rows), nArgs)
  {
    if rows == [] {
    } else {
      KeptRectangular(propagateNone, rows[1..], nArgs);
    }
  }

  function ChunkColumns(propagateNone: bool, rows: seq<Row>, nArgs: nat): Columns
    requires Rectangular(rows, nArgs)
  {
    KeptRectangular(propagateNone, rows, nArgs);
    Transpose(Kept(propagateNone, rows), nArgs)
  }

  function AllColumns(propagateNone: bool, chunks: seq<seq<Row>>, nArgs: nat): (data: seq<Columns>)
    requires forall k :: 0 <= k < |chunks| ==> Rectangular(chunks[k], nArgs)
    ensures |data| == |chunks|
  {
    if chunks == [] then [] else [ChunkColumns(propagateNone, chunks[0], nArgs)] + AllColumns(propagateNone, chunks[1..], nArgs)
  }

  /** The results of one batch before masked rows are put back. */
  function BatchResults(r: BatchResult, rows: nat, kept: nat): (results: seq<Result<Value>>)
    requires kept <= rows
    ensures |results| >= kept
  {
    match r
    case Ok(values) => if |values| == kept then values else seq(rows, _ => Err(COUNT_ERROR))
    case Err(m) => [Err(m)] + seq(if kept > 1 then kept - 1 else 0, _ => Err(BATCH_ERROR))
  }

  lemma {:induction false} KeptShorter(propagateNone: bool, rows: seq<Row>)
    ensures |Kept(propagateNone, rows)| <= |rows|
  {
    if rows == [] {
    } else {
      KeptShorter(propagateNone, rows[1..]);
    }
  }

  /** Masked rows give `None`, the others take the next result; there is always a next one. */
  function Unmask(propagateNone: bool, rows: seq<Row>, results: seq<Result<Value>>): (out: seq<Result<Value>>)
    requires |results| >= |Kept(propagateNone, rows)|
    ensures |out| == |rows|
  {
    if rows == [] then []
    else if Masked(propagateNone, rows[0]) then [Ok(Missing)] + Unmask(propagateNone, rows[1..], results)
    else [results[0]] + Unmask(propagateNone, rows[1..], results[1..])
  }

  function ChunkOutput(propagateNone: bool, rows: seq<Row>, r: BatchResult): seq<Result<Value>> {
    KeptShorter(propagateNone, rows);
    var results := BatchResults(r, |rows|, |Kept(propagateNone, rows)|);
    if propagateNone then Unmask(propagateNone, rows, results) else results
  }

  function Assemble(propagateNone: bool, chunks: seq<seq<Row>>, rs: seq<BatchResult>): seq<Result<Value>>
    requires |chunks| == |rs|
  {
    if chunks == [] then [] else ChunkOutput(propagateNone, chunks[0], rs[0]) + Assemble(propagateNone, chunks[1..], rs[1..])
  }

  // ----- chunks

  ghost predicate GoodChunks(chunks: seq<seq<Row>>, nArgs: nat) {
    forall k :: 0 <= k < |chunks| ==> chunks[k] != [] && Rectangular(chunks[k], nArgs)
  }

  function Flatten(chunks: seq<seq<Row>>): seq<Row> {
    if chunks == [] then [] else chunks[0] + Flatten(chunks[1..])
  }

  lemma {:induction false} ChunksPartition(input: seq<Row>, size: nat, nArgs: nat)
    requires size > 0 && Rectangular(input, nArgs)
    ensures Flatten(Chunks(input, size)) == input && GoodChunks(Chunks(input, size), nArgs)
    ensures forall k :: 0 <= k < |Chunks(input, size)| ==> |Chunks(input, size)[k]| <= size
    decreases |input|
  {
    var cs := Chunks(input, size);
    if input == [] {
    } else if |input| <= size {
      assert cs[1..] == [];
    } else {
      ChunksPartition(input[size..], size, nArgs);
      assert cs[1..] == Chunks(input[size..], size);
      assert input == input[..size] + input[size..];
    }
  }

  // ----- length and None rows, for any logic

  lemma {:induction false} NothingMasked(rows: seq<Row>)
    ensures Kept(false, rows) == rows
  {
    if rows == [] {
    } else {
      NothingMasked(rows[1..]);
      assert rows == [rows[0]] + rows[1..];
    }
  }

  lemma ChunkOutputLength(propagateNone: bool, rows: seq<Row>, r: BatchResult)
    requires rows != []
    ensures |ChunkOutput(propagateNone, rows, r)| == |rows|
  {
    if !propagateNone { NothingMasked(rows); }
  }

  lemma {:induction false} UnmaskNone(propagateNone: bool, rows: seq<Row>, results: seq<Result<Value>>, i: nat)
    requires |results| >= |Kept(propagateNone, rows)| && i < |rows| && Masked(propagateNone, rows[i])
    ensures Unmask(propagateNone, rows, results)[i] == Ok(Missing)
    decreases |rows|
  {
    if i > 0 {
      if Masked(propagateNone, rows[0]) {
        UnmaskNone(propagateNone, rows[1..], results, i - 1);
      } else {
        UnmaskNone(propagateNone, rows[1..], results[1..], i - 1);
      }
    }
  }

  /** One output per row, and `None` for each masked one. */
  ghost predicate NoneForMasked(propagateNone: bool, rows: seq<Row>, out: seq<Result<Value>>) {
    |out| == |rows| && forall i :: 0 <= i < |rows| && propagateNone && HasNone(rows[i]) ==> out[i] == Ok(Missing)
  }

  lemma NoneConcat(propagateNone: bool, a: seq<Row>, outA: seq<Result<Value>>, b: seq<Row>, outB: seq<Result<Value>>)
    requires NoneForMasked(propagateNone, a, outA) && NoneForMasked(propagateNone, b, outB)
    ensures NoneForMasked(propagateNone, a + b, outA + outB)
  {
    forall i | 0 <= i < |a + b| && propagateNone && HasNone((a + b)[i]) ensures (outA + outB)[i] == Ok(Missing) {
      if i < |a| {
        assert HasNone(a[i]);
      } else {
        assert HasNone(b[i - |a|]);
      }
    }
  }

  lemma ChunkOutputNone(propagateNone: bool, rows: seq<Row>, r: BatchResult)
    requires rows != []
    ensures NoneForMasked(propagateNone, rows, ChunkOutput(propagateNone, rows, r))
  {
    ChunkOutputLength(propagateNone, rows, r);
    KeptShorter(propagateNone, rows);
    forall i | 0 <= i < |rows| && propagateNone && HasNone(rows[i]) ensures ChunkOutput(propagateNone, rows, r)[i] == Ok(Missing) {
      MaskedIff(propagateNone, rows[i]);
      UnmaskNone(propagateNone, rows, BatchResults(r, |rows|, |Kept(propagateNone, rows)|), i);
    }
  }

  /** Whatever the function returns, there is one output per input row and a masked row yields `None`. */
  lemma {:induction false} AssembleTotal(propagateNone: bool, chunks: seq<seq<Row>>, rs: seq<BatchResult>, nArgs: nat)
    requires |chunks| == |rs| && GoodChunks(chunks, nArgs)
    ensures NoneForMasked(propagateNone, Flatten(chunks), Assemble(propagateNone, chunks, rs))
    decreases |chunks|
  {
    if chunks == [] {
    } else {
      AssembleTotal(propagateNone, chunks[1..], rs[1..], nArgs);
      ChunkOutputNone(propagateNone, chunks[0], rs[0]);
      NoneConcat(propagateNone, chunks[0], ChunkOutput(propagateNone, chunks[0], rs[0]),
                 Flatten(chunks[1..]), Assemble(propagateNone, chunks[1..], rs[1..]));
    }
  }

  lemma {:induction false} UnmaskErr(propagateNone: bool, rows: seq<Row>, results: seq<Result<Value>>, i: nat)
    requires |results| >= |Kept(propagateNone, rows)| && forall k :: 0 <= k < |results| ==> results[k].Err?
    requires i < |rows| && !Masked(propagateNone, rows[i])
    ensures Unmask(propagateNone, rows, results)[i].Err?
    decreases |rows|
  {
    if i > 0 {
      if Masked(propagateNone, rows[0]) {
        UnmaskErr(propagateNone, rows[1..], results, i - 1);
      } else {
        UnmaskErr(propagateNone, rows[1..], results[1..], i - 1);
      }
    }
  }

  /** A batch that fails, or answers with a wrong number of rows, fails exactly its rows without `None`. */
  lemma FailedBatchFailsItsRows(propagateNone: bool, rows: seq<Row>, r: BatchResult, i: nat)
    requires i < |rows| && (r.Err? || |r.value| != |Kept(propagateNone, rows)|)
    ensures |ChunkOutput(propagateNone, rows, r)| == |rows|
    ensures ChunkOutput(propagateNone, rows, r)[i].Err? <==> !(propagateNone && HasNone(rows[i]))
  {
    MaskedIff(propagateNone, rows[i]);
    ChunkOutputLength(propagateNone, rows, r);
    KeptShorter(propagateNone, rows);
    var results := BatchResults(r, |rows|, |Kept(propagateNone, rows)|);
    if Masked(propagateNone, rows[i]) {
      UnmaskNone(propagateNone, rows, results, i);
    } else if propagateNone {
      UnmaskErr(propagateNone, rows, results, i);
    }
  }

  // ----- a pointwise logic

  /** The row at index `i` of a batch. */
  function RowAt(cols: Columns, i: nat): Row
    requires forall j :: 0 <= j < |cols| ==> i < |cols[j]|
  {
    seq(|cols|, j requires 0 <= j < |cols| => cols[j][i])
  }

  ghost predicate PointwiseOn(f: Row -> Result<Value>, cols: Columns, r: BatchResult) {
    (cols != [] && forall j :: 0 <= j < |cols| ==> |cols[j]| == |cols[0]|) ==>
      && r.Ok? && |r.value| == |cols[0]|
      && forall i :: 0 <= i < |cols[0]| ==> r.value[i] == f(RowAt(cols, i))
  }

  /** A logic that treats every row of every batch by `f`; an empty batch is not passed on. */
  ghost predicate Pointwise(f: Row -> Result<Value>, data: seq<Columns>, rs: seq<BatchResult>) {
    && |rs| == |data|
    && forall k :: 0 <= k < |data| ==> PointwiseOn(f, data[k], rs[k])
  }

  lemma RowAtTranspose(rows: seq<Row>, nArgs: nat, i: nat)
    requires Rectangular(rows, nArgs) && i < |rows|
    ensures RowAt(Transpose(rows, nArgs), i) == rows[i]
  {
  }

  /** Unmasking the results of the kept rows restores the per-row results. */
  lemma {:induction false} UnmaskPointwise(f: Row -> Result<Value>, propagateNone: bool, rows: seq<Row>, results: seq<Result<Value>>)
    requires |results| == |Kept(propagateNone, rows)|
    requires forall i :: 0 <= i < |results| ==> results[i] == f(Kept(propagateNone, rows)[i])
    ensures Unmask(propagateNone, rows, results) == PerRow(f, propagateNone, rows)
    decreases |rows|
  {
    if rows == [] {
    } else {
      var rest := Kept(propagateNone, rows[1..]);
      if Masked(propagateNone, rows[0]) {
        assert Kept(propagateNone, rows) == rest;
        UnmaskPointwise(f, propagateNone, rows[1..], results);
      } else {
        assert Kept(propagateNone, rows) == [rows[0]] + rest;
        assert results[0] == f(rows[0]);
        forall i | 0 <= i < |results[1..]| ensures results[1..][i] == f(rest[i]) {
          assert Kept(propagateNone, rows)[i + 1] == rest[i];
        }
        UnmaskPointwise(f, propagateNone, rows[1..], results[1..]);
      }
    }
  }

  lemma {:induction false} UnmaskWithoutNone(rows: seq<Row>, results: seq<Result<Value>>)
    requires |results| == |rows| == |Kept(false, rows)|
    ensures Unmask(false, rows, results) == results
    decreases |rows|
  {
    if rows == [] {
      assert results == [];
    } else {
      NothingMasked(rows[1..]);
      UnmaskWithoutNone(rows[1..], results[1..]);
      assert results == [results[0]] + results[1..];
    }
  }

  lemma ChunkPointwise(f: Row -> Result<Value>, propagateNone: bool, rows: seq<Row>, nArgs: nat, r: BatchResult)
    requires nArgs > 0 && Rectangular(rows, nArgs) && PointwiseOn(f, ChunkColumns(propagateNone, rows, nArgs), r)
    ensures ChunkOutput(propagateNone, rows, r) == PerRow(f, propagateNone, rows)
  {
    KeptRectangular(propagateNone, rows, nArgs);
    KeptShorter(propagateNone, rows);
    var kept := Kept(propagateNone, rows);
    var cols := Transpose(kept, nArgs);
    assert r.Ok? && |r.value| == |kept|;
    forall i | 0 <= i < |kept| ensures r.value[i] == f(kept[i]) { RowAtTranspose(kept, nArgs, i); }
    UnmaskPointwise(f, propagateNone, rows, r.value);
    if !propagateNone {
      NothingMasked(rows);
      UnmaskWithoutNone(rows, r.value);
    }
  }

  lemma {:induction false} PerRowConcat(f: Row -> Result<Value>, propagateNone: bool, a: seq<Row>, b: seq<Row>)
    ensures PerRow(f, propagateNone, a + b) == PerRow(f, propagateNone, a) + PerRow(f, propagateNone, b)
    decreases |a|
  {
    if a == [] {
      assert a + b == b;
    } else {
      assert (a + b)[1..] == a[1..] + b;
      PerRowConcat(f, propagateNone, a[1..], b);
    }
  }

  lemma {:induction false} AssemblePointwise(f: Row -> Result<Value>, propagateNone: bool, chunks: seq<seq<Row>>, nArgs: nat, rs: seq<BatchResult>)
    requires nArgs > 0 && GoodChunks(chunks, nArgs) && Pointwise(f, AllColumns(propagateNone, chunks, nArgs), rs)
    ensures Assemble(propagateNone, chunks, rs) == PerRow(f, propagateNone, Flatten(chunks))
    decreases |chunks|
  {
    if chunks == [] {
    } else {
      var data := AllColumns(propagateNone, chunks, nArgs);
      assert data[1..] == AllColumns(propagateNone, chunks[1..], nArgs);
      assert PointwiseOn(f, data[0], rs[0]);
      forall k | 0 <= k < |data[1..]| ensures PointwiseOn(f, data[1..][k], rs[1..][k]) { assert PointwiseOn(f, data[k + 1], rs[k + 1]); }
      AssemblePointwise(f, propagateNone, chunks[1..], nArgs, rs[1..]);
      ChunkPointwise(f, propagateNone, chunks[0], nArgs, rs[0]);
      PerRowConcat(f, propagateNone, chunks[0], Flatten(chunks[1..]));
    }
  }

  // ----- the implementation

  ghost predicate KeptSoFar(propagateNone: bool, rows: seq<Row>, nArgs: nat, data: Columns, count: nat) {
    && count == |Kept(propagateNone, rows)|
    && Rectangular(Kept(propagateNone, rows), nArgs) && data == Transpose(Kept(propagateNone, rows), nArgs)
  }

  lemma {:induction false} KeptSnoc(propagateNone: bool, rows: seq<Row>, row: Row)
    ensures Kept(propagateNone, rows + [row]) ==
            if Masked(propagateNone, row) then Kept(propagateNone, rows) else Kept(propagateNone, rows) + [row]
    decreases |rows|
  {
    if rows == [] {
      assert (rows + [row])[1..] == [];
    } else {
      assert (rows + [row])[1..] == rows[1..] + [row];
      KeptSnoc(propagateNone, rows[1..], row);
    }
  }

  /** The inner loop: each value goes to its column. */
  method PushRow(data: Columns, row: Row, ghost kept: seq<Row>) returns (data': Columns)
    requires Rectangular(kept, |row|) && data == Transpose(kept, |row|)
    ensures Rectangular(kept + [row], |row|) && data' == Transpose(kept + [row], |row|)
  {
    data' := data;
    for j := 0 to |row|
      invariant |data'| == |row|
      invariant forall k :: 0 <= k < j ==> data'[k] == data[k] + [row[k]]
      invariant forall k :: j <= k < |row| ==> data'[k] == data[k]
    {
      data' := data'[j := data'[j] + [row[j]]];
    }
    ghost var cols := Transpose(kept + [row], |row|);
    forall k | 0 <= k < |row| ensures data'[k] == cols[k] {
      assert |cols[k]| == |data'[k]|;
    }
  }

  /** The loop that fills `mask`, `data` and the count of one chunk. */
  method BuildChunk(inputs: seq<Row>, nArgs: nat, propagateNone: bool) returns (data: Columns, mask: seq<bool>, notNoneCount: nat)
    requires Rectangular(inputs, nArgs)
    ensures data == ChunkColumns(propagateNone, inputs, nArgs) && notNoneCount == |Kept(propagateNone, inputs)|
    ensures |mask| == |inputs| && forall i :: 0 <= i < |inputs| ==> mask[i] == Masked(propagateNone, inputs[i])
    ensures MarksNone(propagateNone, inputs, mask)
  {
    mask := seq(|inputs|, _ => false);
    data := seq(nArgs, _ => []);
    notNoneCount := 0;
    for i := 0 to |inputs|
      invariant |mask| == |inputs| && forall k :: 0 <= k < |inputs| ==> mask[k] == (k < i && Masked(propagateNone, inputs[k]))
      invariant KeptSoFar(propagateNone, inputs[..i], nArgs, data, notNoneCount)
    {
      assert inputs[..i + 1] == inputs[..i] + [inputs[i]];
      KeptSnoc(propagateNone, inputs[..i], inputs[i]);
      if propagateNone && Missing in inputs[i] {
        mask := mask[i := true];
      } else {
        notNoneCount := notNoneCount + 1;
        data := PushRow(data, inputs[i], Kept(propagateNone, inputs[..i]));
      }
    }
    assert inputs[..|inputs|] == inputs;
  }

  /** `out` are the outputs of the first `i` rows, which took the first `next` results. */
  ghost predicate Unmasked(propagateNone: bool, rows: seq<Row>, results: seq<Result<Value>>, i: nat, next: nat, out: seq<Result<Value>>)
    requires |results| >= |Kept(propagateNone, rows)|
  {
    && i <= |rows| && next <= |results| && |results| - next >= |Kept(propagateNone, rows[i..])|
    && out + Unmask(propagateNone, rows[i..], results[next..]) == Unmask(propagateNone, rows, results)
  }

  lemma PutBack(out: seq<Result<Value>>, next: Result<Value>, rest: seq<Result<Value>>)
    ensures out + ([next] + rest) == (out + [next]) + rest
  {
  }

  lemma MaskedStep(propagateNone: bool, rows: seq<Row>, i: nat, results: seq<Result<Value>>, next: nat, out: seq<Result<Value>>)
    requires i < |rows| && |results| >= |Kept(propagateNone, rows)| && Unmasked(propagateNone, rows, results, i, next, out)
    requires Masked(propagateNone, rows[i])
    ensures Unmasked(propagateNone, rows, results, i + 1, next, out + [Ok(Missing)])
  {
    assert rows[i..][0] == rows[i] && rows[i..][1..] == rows[i + 1..];
    PutBack(out, Ok(Missing), Unmask(propagateNone, rows[i + 1..], results[next..]));
  }

  lemma KeptStep(propagateNone: bool, rows: seq<Row>, i: nat, results: seq<Result<Value>>, next: nat, out: seq<Result<Value>>)
    requires i < |rows| && |results| >= |Kept(propagateNone, rows)| && Unmasked(propagateNone, rows, results, i, next, out)
    requires !Masked(propagateNone, rows[i])
    ensures next < |results| && Unmasked(propagateNone, rows, results, i + 1, next + 1, out + [results[next]])
  {
    var rest, after := rows[i..], results[next..];
    assert rest[0] == rows[i] && rest[1..] == rows[i + 1..];
    assert |Kept(propagateNone, rest)| == 1 + |Kept(propagateNone, rest[1..])|;
    assert after[0] == results[next] && after[1..] == results[next + 1..];
    PutBack(out, results[next], Unmask(propagateNone, rest[1..], after[1..]));
  }

  /** The iterator that puts masked rows back. */
  method UnmaskResults(mask: seq<bool>, results: seq<Result<Value>>, ghost propagateNone: bool, ghost rows: seq<Row>)
    returns (out: seq<Result<Value>>)
    requires |mask| == |rows| && forall i :: 0 <= i < |rows| ==> mask[i] == Masked(propagateNone, rows[i])
    requires |results| >= |Kept(propagateNone, rows)|
    ensures out == Unmask(propagateNone, rows, results)
  {
    out := [];
    var next := 0;
    for i := 0 to |mask|
      invariant Unmasked(propagateNone, rows, results, i, next, out)
    {
      if mask[i] {
        MaskedStep(propagateNone, rows, i, results, next, out);
        out := out + [Ok(Missing)];
      } else {
        KeptStep(propagateNone, rows, i, results, next, out);
        out := out + [results[next]];
        next := next + 1;
      }
    }
    assert rows[|mask|..] == [];
  }

  /** `out` is what `logic` answers to the columns of the chunks, with the masked rows put back. */
  ghost predicate Assembled(propagateNone: bool, chunks: seq<seq<Row>>, nArgs: nat, logic: seq<Columns> -> seq<BatchResult>, out: seq<Result<Value>>)
    requires forall data: seq<Columns> :: |logic(data)| == |data|
  {
    GoodChunks(chunks, nArgs) && out == Assemble(propagateNone, chunks, logic(AllColumns(propagateNone, chunks, nArgs)))
  }

  /** `mask` and `count` describe the chunk `rows`. */
  ghost predicate Describes(propagateNone: bool, rows: seq<Row>, mask: seq<bool>, count: nat) {
    && count == |Kept(propagateNone, rows)| && |mask| == |rows|
    && forall i :: 0 <= i < |rows| ==> mask[i] == Masked(propagateNone, rows[i])
  }

  ghost predicate AllDescribed(propagateNone: bool, chunks: seq<seq<Row>>, masks: seq<seq<bool>>, counts: seq<nat>) {
    && |masks| == |counts| == |chunks|
    && forall k :: 0 <= k < |chunks| ==> Describes(propagateNone, chunks[k], masks[k], counts[k])
  }

  /** The outputs of all batches, one after the other. */
  method Collect(rs: seq<BatchResult>, masks: seq<seq<bool>>, counts: seq<nat>, propagateNone: bool, ghost chunks: seq<seq<Row>>)
    returns (out: seq<Result<Value>>)
    requires |rs| == |chunks| && AllDescribed(propagateNone, chunks, masks, counts)
    ensures out == Assemble(propagateNone, chunks, rs)
    decreases |rs|
  {
    if rs == [] { return []; }
    assert Describes(propagateNone, chunks[0], masks[0], counts[0]);
    KeptShorter(propagateNone, chunks[0]);
    var results := BatchResults(rs[0], |masks[0]|, counts[0]);
    if propagateNone { results := UnmaskResults(masks[0], results, propagateNone, chunks[0]); }
    var rest := Collect(rs[1..], masks[1..], counts[1..], propagateNone, chunks[1..]);
    out := results + rest;
  }

  lemma PreparedFirst(propagateNone: bool, chunks: seq<seq<Row>>, m: seq<bool>, c: nat, ms: seq<seq<bool>>, cs: seq<nat>)
    requires chunks != [] && Describes(propagateNone, chunks[0], m, c) && AllDescribed(propagateNone, chunks[1..], ms, cs)
    ensures AllDescribed(propagateNone, chunks, [m] + ms, [c] + cs)
  {
    forall k | 0 <= k < |chunks| ensures Describes(propagateNone, chunks[k], ([m] + ms)[k], ([c] + cs)[k]) {
      if k > 0 { assert Describes(propagateNone, chunks[1..][k - 1], ms[k - 1], cs[k - 1]); }
    }
  }

  /** The chunks as columns, with their masks and counts. */
  method Prepare(input: seq<Row>, nArgs: nat, propagateNone: bool, size: nat)
    returns (data: seq<Columns>, masks: seq<seq<bool>>, counts: seq<nat>)
    requires size > 0 && Rectangular(input, nArgs) && GoodChunks(Chunks(input, size), nArgs)
    ensures var chunks := Chunks(input, size);
            && data == AllColumns(propagateNone, chunks, nArgs) && |masks| == |counts| == |chunks|
            && AllDescribed(propagateNone, chunks, masks, counts)
    decreases |input|
  {
    if input == [] { return [], [], []; }
    var n := if |input| <= size then |input| else size;
    ghost var chunks := Chunks(input, size);
    assert chunks[0] == input[..n];
    var d, m, c := BuildChunk(input[..n], nArgs, propagateNone);
    assert chunks[1..] == Chunks(input[n..], size);
    var ds, ms, cs := Prepare(input[n..], nArgs, propagateNone, size);
    PreparedFirst(propagateNone, chunks, m, c, ms, cs);
    data, masks, counts := [d] + ds, [m] + ms, [c] + cs;
  }

  /** `batch_apply`.  `logic` must answer once per batch, as `zip_eq` demands. */
  method Run(input: seq<Row>, nArgs: nat, logic: seq<Columns> -> seq<BatchResult>, propagateNone: bool, maxBatchSize: nat)
    returns (out: seq<Result<Value>>)
    requires maxBatchSize > 0 && Rectangular(input, nArgs)
    requires forall data: seq<Columns> :: |logic(data)| == |data|
    ensures NoneForMasked(propagateNone, input, out)
    ensures Assembled(propagateNone, Chunks(input, maxBatchSize), nArgs, logic, out)
    ensures forall f: Row -> Result<Value> ::
              nArgs > 0 && (forall data: seq<Columns> :: Pointwise(f, data, logic(data))) ==> RowByRow(f, propagateNone, input, out)
    ensures forall f: Row -> Result<Value> ::
              nArgs > 0 && (forall data: seq<Columns> :: Pointwise(f, data, logic(data))) ==> out == PerRow(f, propagateNone, input)
  {
    ghost var chunks := Chunks(input, maxBatchSize);
    ChunksPartition(input, maxBatchSize, nArgs);
    var data, masks, counts := Prepare(input, nArgs, propagateNone, maxBatchSize);
    var rs := logic(data);
    out := Collect(rs, masks, counts, propagateNone, chunks);
    AssembleTotal(propagateNone, chunks, rs, nArgs);
    forall f: Row -> Result<Value> | nArgs > 0 && (forall data: seq<Columns> :: Pointwise(f, data, logic(data)))
      ensures out == PerRow(f, propagateNone, input)
    {
      assert Pointwise(f, data, logic(data));
      AssemblePointwise(f, propagateNone, chunks, nArgs, rs);
    }
    forall f: Row -> Result<Value> | nArgs > 0 && (forall data: seq<Columns> :: Pointwise(f, data, logic(data)))
      ensures RowByRow(f, propagateNone, input, out)
    {
      PerRowIs(f, propagateNone, input);
    }
  }
}
