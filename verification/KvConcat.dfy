/** Writing the new keys and values of a batch into the KV caches: which tile writes which
    row of which request. */
module KvConcat {
  import opened Arith
  import opened SpecDecModel

  // ---- How many tiles, and how many tokens each ----

  /** Tiles of a launch of tokens tokens of perToken bytes, and tokens a tile looks at. */
  function OuterLoops(tokens: nat, perToken: nat, chunk: nat): nat
    requires 0 < perToken && 0 < chunk
  {
    CeilDiv(Times(tokens, perToken), chunk)
  }

  function InnerLoops(perToken: nat, chunk: nat): nat
    requires 0 < perToken && 0 < chunk
  {
    CeilDiv(chunk, perToken)
  }

  /** The tiles together look at every token, and a tile stages at least a chunk and less than a
      chunk and a token; there are as few tiles as the bytes of the tokens fill chunks. */
  lemma LoopsCover(tokens: nat, perToken: nat, chunk: nat)
    requires 0 < perToken && 0 < chunk
    ensures var outer, inner := OuterLoops(tokens, perToken, chunk), InnerLoops(perToken, chunk);
            && 1 <= inner && tokens <= Times(outer, inner)
            && chunk <= Times(inner, perToken) < chunk + perToken
            && Times(outer, chunk) < Times(tokens, perToken) + chunk
  {
    var outer, inner := OuterLoops(tokens, perToken, chunk), InnerLoops(perToken, chunk);
    assert Times(0, perToken) == 0;
    StagedCover(tokens, perToken, chunk, outer, inner);
  }

  lemma StagedCover(tokens: nat, perToken: nat, chunk: nat, outer: nat, inner: nat)
    requires 0 < perToken && chunk <= Times(inner, perToken) && Times(tokens, perToken) <= Times(outer, chunk)
    ensures tokens <= Times(outer, inner)
  {
    var n := Times(outer, inner);
    Spread(outer, inner, perToken);
    if chunk < Times(inner, perToken) {
      MulOrder(chunk, Times(inner, perToken), outer);
      assert chunk * outer == outer * chunk && inner * perToken * outer == outer * (inner * perToken);
    }
    if n < tokens {
      MulOrder(n, tokens, perToken);
    }
  }

  /** Every token is token number inner of exactly one tile, one of the tiles there are. */
  lemma TokenHasOneTile(tokens: nat, perToken: nat, chunk: nat, token: nat, tile: nat, inner: nat)
    requires 0 < perToken && 0 < chunk && token < tokens
    ensures var n := InnerLoops(perToken, chunk);
            && 0 < n && 0 <= token / n < OuterLoops(tokens, perToken, chunk)
            && (inner < n && token == Times(tile, n) + inner <==> tile == token / n && inner == token % n)
  {
    LoopsCover(tokens, perToken, chunk);
    var n := InnerLoops(perToken, chunk);
    Whole(token, n);
    DivLess(token, OuterLoops(tokens, perToken, chunk), n);
    if inner < n && token == Times(tile, n) + inner {
      Split(tile, inner, n);
    }
  }

  // ---- Which request and row a token is ----

  function Total(lengths: seq<nat>): nat {
    if lengths == [] then 0 else Total(lengths[..|lengths| - 1]) + lengths[|lengths| - 1]
  }

  /** Token number token of the launch is the index-th new token of input batch. */
  predicate Located(lengths: seq<nat>, token: nat, batch: nat, index: nat) {
    batch < |lengths| && index < lengths[batch] && token == Total(lengths[..batch]) + index
  }

  lemma TotalPrefix(lengths: seq<nat>, a: nat, b: nat)
    requires a <= b <= |lengths|
    ensures Total(lengths[..a]) <= Total(lengths[..b])
    ensures a < b ==> Total(lengths[..a]) + lengths[a] <= Total(lengths[..b])
    decreases b
  {
    if a < b {
      assert lengths[..b][..b - 1] == lengths[..b - 1];
      if a < b - 1 { TotalPrefix(lengths, a, b - 1); }
    }
  }

  /** A token is one token of one input only. */
  lemma LocatedUnique(lengths: seq<nat>, token: nat, batch: nat, index: nat, batch': nat, index': nat)
    requires Located(lengths, token, batch, index) && Located(lengths, token, batch', index')
    ensures batch == batch' && index == index'
  {
    if batch < batch' {
      TotalPrefix(lengths, batch, batch');
    } else if batch' < batch {
      TotalPrefix(lengths, batch', batch);
    }
  }

  lemma LocatedBelow(lengths: seq<nat>, token: nat, batch: nat, index: nat)
    requires Located(lengths, token, batch, index)
    ensures token < Total(lengths)
  {
    TotalPrefix(lengths, batch, |lengths|);
    assert lengths[..|lengths|] == lengths;
  }

  /** Walks down the input lengths from the global token number. */
  method Locate(lengths: seq<nat>, token: nat) returns (batch: nat, index: nat)
    requires token < Total(lengths)
    ensures Located(lengths, token, batch, index)
  {
    assert lengths[..|lengths|] == lengths;
    batch, index := 0, token;
    while batch < |lengths| - 1 && index >= lengths[batch]
      invariant batch < |lengths| && token == Total(lengths[..batch]) + index
    {
      assert lengths[..batch + 1][..batch] == lengths[..batch];
      index := index - lengths[batch];
      batch := batch + 1;
    }
    if batch == |lengths| - 1 {
      assert lengths[..|lengths| - 1] == lengths[..batch];
    }
  }

  // ---- The rows a tile writes ----

  function Lengths(inputs: seq<LangInput>): (lengths: seq<nat>)
    ensures |lengths| == |inputs| && forall i | 0 <= i < |inputs| :: lengths[i] == inputs[i].seqLength
  {
    seq(|inputs|, i requires 0 <= i < |inputs| => inputs[i].seqLength)
  }

  /** The row a token of an input goes to: its place after the rows already in the cache. */
  datatype Row = Row(id: nat, row: nat)

  predicate WritesRow(inputs: seq<LangInput>, token: nat, batch: nat, index: nat, r: Row) {
    Located(Lengths(inputs), token, batch, index) && batch < |inputs| &&
        r == Row(inputs[batch].id, inputs[batch].contextLength + index)
  }

  /** Row r is written by some token numbered from lo up to hi. */
  ghost predicate WrittenBetween(inputs: seq<LangInput>, lo: nat, hi: nat, r: Row) {
    exists token: nat, batch: nat, index: nat :: lo <= token < hi && WritesRow(inputs, token, batch, index, r)
  }

  /** The rows written by one tile: of the tokens that are its, in order, until they run out. */
  method TileRows(inputs: seq<LangInput>, tile: nat, innerLoops: nat) returns (rows: set<Row>)
    ensures forall r :: r in rows <==>
              WrittenBetween(inputs, Times(tile, innerLoops), Times(tile, innerLoops) + innerLoops, r)
  {
    rows := {};
    var lengths := Lengths(inputs);
    ghost var start := Times(tile, innerLoops);
    var tokens := 0;
    for i := 0 to |lengths|
      invariant tokens == Total(lengths[..i])
    {
      assert lengths[..i + 1][..i] == lengths[..i];
      tokens := tokens + lengths[i];
    }
    assert lengths[..|lengths|] == lengths;
    var inner := 0;
    while inner < innerLoops
      invariant inner <= innerLoops
      invariant forall r :: r in rows <==> WrittenBetween(inputs, start, start + inner, r)
    {
      var token := Times(tile, innerLoops) + inner;
      if token >= tokens {
        NoneBeyond(inputs, start, start + inner, start + innerLoops);
        break;
      }
      var batch, index := Locate(lengths, token);
      var row := Row(inputs[batch].id, inputs[batch].contextLength + index);
      OneMore(inputs, start, start + inner, batch, index, row);
      rows := rows + {row};
      inner := inner + 1;
    }
  }

  lemma NoneBeyond(inputs: seq<LangInput>, lo: nat, mid: nat, hi: nat)
    requires Total(Lengths(inputs)) <= mid && lo <= mid <= hi
    ensures forall r :: WrittenBetween(inputs, lo, hi, r) <==> WrittenBetween(inputs, lo, mid, r)
  {
    forall r ensures WrittenBetween(inputs, lo, hi, r) <==> WrittenBetween(inputs, lo, mid, r) {
      if token: nat, batch: nat, index: nat :| lo <= token < hi && WritesRow(inputs, token, batch, index, r) {
        LocatedBelow(Lengths(inputs), token, batch, index);
      }
      if token: nat, batch: nat, index: nat :| lo <= token < mid && WritesRow(inputs, token, batch, index, r) {
        assert lo <= token < hi;
      }
    }
  }

  lemma OneMore(inputs: seq<LangInput>, lo: nat, token: nat, batch: nat, index: nat, row: Row)
    requires lo <= token && WritesRow(inputs, token, batch, index, row)
    ensures forall r :: WrittenBetween(inputs, lo, token + 1, r) <==> WrittenBetween(inputs, lo, token, r) || r == row
  {
    var next := token + 1;
    forall r ensures WrittenBetween(inputs, lo, next, r) <==> WrittenBetween(inputs, lo, token, r) || r == row {
      if t: nat, b: nat, i: nat :| lo <= t < next && WritesRow(inputs, t, b, i, r) {
        if t == token {
          LocatedUnique(Lengths(inputs), token, batch, index, b, i);
        } else {
          assert lo <= t < token;
        }
      }
      if t: nat, b: nat, i: nat :| lo <= t < token && WritesRow(inputs, t, b, i, r) {
        assert lo <= t < next;
      }
    }
  }

  // ---- What all tiles write together ----

  /** Row r is one of the new rows of some input. */
  ghost predicate NewRow(inputs: seq<LangInput>, r: Row) {
    exists b :: 0 <= b < |inputs| && inputs[b].id == r.id &&
      inputs[b].contextLength <= r.row < inputs[b].contextLength + inputs[b].seqLength
  }

  ghost predicate WrittenByTile(inputs: seq<LangInput>, innerLoops: nat, tile: nat, r: Row) {
    WrittenBetween(inputs, Times(tile, innerLoops), Times(tile, innerLoops) + innerLoops, r)
  }

  /** The tiles of a launch write exactly the new rows of its inputs. */
  lemma TilesWriteNewRows(inputs: seq<LangInput>, perToken: nat, chunk: nat, r: Row)
    requires 0 < perToken && 0 < chunk
    ensures var n, outer := InnerLoops(perToken, chunk), OuterLoops(Total(Lengths(inputs)), perToken, chunk);
            (exists tile: nat :: tile < outer && WrittenByTile(inputs, n, tile, r)) <==> NewRow(inputs, r)
  {
    var lengths := Lengths(inputs);
    var n, outer := InnerLoops(perToken, chunk), OuterLoops(Total(lengths), perToken, chunk);
    if tile: nat :| tile < outer && WrittenByTile(inputs, n, tile, r) {
      var token: nat, batch: nat, index: nat :| Times(tile, n) <= token < Times(tile, n) + n &&
          WritesRow(inputs, token, batch, index, r);
      assert inputs[batch].id == r.id;
    }
    if NewRow(inputs, r) {
      var b :| 0 <= b < |inputs| && inputs[b].id == r.id &&
        inputs[b].contextLength <= r.row < inputs[b].contextLength + inputs[b].seqLength;
      var index := r.row - inputs[b].contextLength;
      var token := Total(lengths[..b]) + index;
      LocatedBelow(lengths, token, b, index);
      TokenHasOneTile(Total(lengths), perToken, chunk, token, 0, 0);
      Whole(token, n);
      assert WritesRow(inputs, token, b, index, r);
      assert WrittenByTile(inputs, n, token / n, r);
    }
  }

  /** The rows a launch changes in a request's cache are those its tiles write: the ledger of
      the scheduler and the tiles agree, for inputs of one request. */
  lemma {:induction false} LedgerRowsAreTileRows(rows: Rows, inputs: seq<LangInput>, id: nat, length: nat, model: nat,
                                                 phase: Phase, row: nat)
    requires forall i | 0 <= i < |inputs| :: inputs[i].id == id
    ensures var w := WrittenAll(rows, inputs, length, model, phase);
            if NewRow(inputs, Row(id, row)) then row in w && w[row] == NewTag(model, phase, length, row)
            else (row in w <==> row in rows) && (row in w ==> w[row] == rows[row])
  {
    if inputs != [] {
      var n := |inputs| - 1;
      LedgerRowsAreTileRows(rows, inputs[..n], id, length, model, phase, row);
      WrittenAt(WrittenAll(rows, inputs[..n], length, model, phase), inputs[n], length, model, phase, row);
      if NewRow(inputs[..n], Row(id, row)) {
        var b :| 0 <= b < n && inputs[..n][b].id == id &&
          inputs[..n][b].contextLength <= row < inputs[..n][b].contextLength + inputs[..n][b].seqLength;
        assert inputs[b] == inputs[..n][b];
      }
      if NewRow(inputs, Row(id, row)) &&
          !(inputs[n].contextLength <= row < inputs[n].contextLength + inputs[n].seqLength) {
        var b :| 0 <= b < |inputs| && inputs[b].id == id &&
          inputs[b].contextLength <= row < inputs[b].contextLength + inputs[b].seqLength;
        assert inputs[..n][b] == inputs[b];
      }
    }
  }

  /** Verifying k + 1 tokens in one input or in k + 1 single ones, the tiles write the same rows. */
  lemma ScorersWriteSameRows(id: nat, length: nat, k: nat, r: Row)
    ensures NewRow([LangInput(id, k + 1, length)], r) <==> r.id == id && length <= r.row <= length + k
    ensures NewRow(Singles(id, length, k + 1), r) <==> r.id == id && length <= r.row <= length + k
  {
    var one, many := [LangInput(id, k + 1, length)], Singles(id, length, k + 1);
    if r.id == id && length <= r.row <= length + k {
      assert one[0].id == r.id;
      assert many[r.row - length].id == r.id;
    }
  }
}
