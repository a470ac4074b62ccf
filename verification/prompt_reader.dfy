/** A reader for the tuple serialization of `PromptManager`, used as its
    independent partner: reading back what the serializers wrote recovers
    the header's keys, and every tuple's dumped values, in order. The reader
    takes a cell's text to end at the first `<`, so the round trips hold for
    keys and dumped values that contain no `<`.
 */
module PromptReader {
  import opened Results
  import opened Json
  import opened Strings
  import opened PromptManager

  /** `x` contains no `<`, so it cannot be mistaken for a tag. */
  predicate Plain(x: string) {
    forall i :: 0 <= i < |x| ==> x[i] != '<'
  }

  predicate AllPlain(xs: seq<string>) {
    forall i :: 0 <= i < |xs| ==> Plain(xs[i])
  }

  /** Length of the longest prefix of `s` free of `<`. */
  function UntilTag(s: string): (n: nat)
    ensures n <= |s|
    ensures Plain(s[..n])
    ensures n < |s| ==> s[n] == '<'
  {
    if s == [] || s[0] == '<' then 0
    else
      var k := UntilTag(s[1..]);
      assert s[..1 + k] == [s[0]] + s[1..][..k];
      1 + k
  }

  /** Reads `<col>x</col>` cells from the front of `s` for as long as it
      starts with `<col>`; returns the cells and the unread rest. */
  function ReadCells(s: string): (r: Option<(seq<string>, string)>)
    ensures r.Some? ==> |r.value.1| <= |s|
    decreases |s|
  {
    if !StartsWith(s, ColOpen) then Some(([], s))
    else
      var body := s[|ColOpen|..];
      var k := UntilTag(body);
      var after := body[k..];
      if !StartsWith(after, ColClose) then None
      else
        match ReadCells(after[|ColClose|..])
        case None => None
        case Some(res) => Some(([body[..k]] + res.0, res.1))
  }

  /** Reads `open`, a run of cells and `close` from the front of `s`. */
  function ReadBlock(open: string, close: string, s: string): (r: Option<(seq<string>, string)>)
    requires |open| > 0
    ensures r.Some? ==> |r.value.1| < |s|
  {
    if !StartsWith(s, open) then None
    else
      match ReadCells(s[|open|..])
      case None => None
      case Some(res) =>
        if StartsWith(res.1, close) then Some((res.0, res.1[|close|..])) else None
  }

  /** Reads tuple blocks until the text is used up. */
  function ReadTupleBlocks(s: string): Option<seq<seq<string>>>
    decreases |s|
  {
    if s == [] then Some([])
    else
      match ReadBlock(TupleOpen, TupleClose, s)
      case None => None
      case Some(res) =>
        match ReadTupleBlocks(res.1)
        case None => None
        case Some(rows) => Some([res.0] + rows)
  }

  /** Reads a rendered input-tuples text: the header's cells, then the
      cells of every tuple block. */
  function ReadInputTuples(s: string): Option<(seq<string>, seq<seq<string>>)> {
    match ReadBlock(HeaderOpen, HeaderClose, s)
    case None => None
    case Some(h) =>
      match ReadTupleBlocks(h.1)
      case None => None
      case Some(rows) => Some((h.0, rows))
  }

  /** The dumped values of every tuple, one row per tuple. */
  function DumpAll(dump: Json -> string, ts: seq<Object>): (rows: seq<seq<string>>)
    ensures |rows| == |ts|
    ensures forall i :: 0 <= i < |ts| ==> rows[i] == DumpValues(dump, ts[i])
  {
    if ts == [] then [] else [DumpValues(dump, ts[0])] + DumpAll(dump, ts[1..])
  }

  // ---------------------------------------------------------------------
  // Round trips

  lemma UntilTagOfPlain(x: string, y: string)
    requires Plain(x)
    requires y != [] && y[0] == '<'
    ensures UntilTag(x + y) == |x|
    decreases |x|
  {
    if x != [] {
      assert (x + y)[1..] == x[1..] + y;
      UntilTagOfPlain(x[1..], y);
    }
  }

  /** A closing tag never reads as the start of another cell. */
  lemma ClosingTagIsNotCell(close: string, rest: string)
    requires |close| > 1 && close[1] == '/'
    ensures !StartsWith(close + rest, ColOpen)
  {
    assert (close + rest)[1] == '/';
  }

  lemma {:induction false} ReadCellsOfCells(xs: seq<string>, rest: string)
    requires AllPlain(xs)
    requires !StartsWith(rest, ColOpen)
    ensures ReadCells(Cells(xs) + rest) == Some((xs, rest))
    decreases |xs|
  {
    if xs != [] {
      var s := Cells(xs) + rest;
      var tail := Cells(xs[1..]) + rest;
      assert s == ColOpen + (xs[0] + (ColClose + tail));
      assert StartsWith(s, ColOpen);
      var body := s[|ColOpen|..];
      assert body == xs[0] + (ColClose + tail);
      UntilTagOfPlain(xs[0], ColClose + tail);
      assert body[..|xs[0]|] == xs[0];
      var after := body[|xs[0]|..];
      assert after == ColClose + tail;
      assert StartsWith(after, ColClose);
      assert after[|ColClose|..] == tail;
      ReadCellsOfCells(xs[1..], rest);
      assert [xs[0]] + xs[1..] == xs;
    } else {
      assert Cells(xs) + rest == rest;
    }
  }

  lemma ReadBlockOfCells(open: string, close: string, xs: seq<string>, rest: string)
    requires |open| > 0 && |close| > 1 && close[1] == '/'
    requires AllPlain(xs)
    ensures ReadBlock(open, close, open + Cells(xs) + close + rest) == Some((xs, rest))
  {
    var tail := close + rest;
    var cells := Cells(xs) + tail;
    var s := open + Cells(xs) + close + rest;
    assert s == open + cells;
    assert s[..|open|] == open && s[|open|..] == cells;
    ClosingTagIsNotCell(close, rest);
    ReadCellsOfCells(xs, tail);
    assert tail[..|close|] == close && tail[|close|..] == rest;
  }

  /** The header reads back as the tuple's keys, in iteration order. */
  lemma HeaderRoundTrip(t: Object, rest: string)
    requires AllPlain(Keys(t))
    ensures ReadBlock(HeaderOpen, HeaderClose, InputTuplesHeader(t) + rest) == Some((Keys(t), rest))
  {
    ReadBlockOfCells(HeaderOpen, HeaderClose, Keys(t), rest);
  }

  /** A tuple block reads back as the tuple's dumped values, in the same
      order as the header's keys. */
  lemma TupleRoundTrip(dump: Json -> string, t: Object, rest: string)
    requires AllPlain(DumpValues(dump, t))
    ensures ReadBlock(TupleOpen, TupleClose, SingleInputTuple(dump, t) + rest) == Some((DumpValues(dump, t), rest))
  {
    ReadBlockOfCells(TupleOpen, TupleClose, DumpValues(dump, t), rest);
  }

  /** A tuple's header and its block have one column per field each. */
  lemma HeaderAndTupleSameWidth(dump: Json -> string, t: Object)
    requires AllPlain(Keys(t)) && AllPlain(DumpValues(dump, t))
    ensures ReadBlock(HeaderOpen, HeaderClose, InputTuplesHeader(t)).Some?
    ensures ReadBlock(TupleOpen, TupleClose, SingleInputTuple(dump, t)).Some?
    ensures |ReadBlock(HeaderOpen, HeaderClose, InputTuplesHeader(t)).value.0|
         == |ReadBlock(TupleOpen, TupleClose, SingleInputTuple(dump, t)).value.0|
         == |t|
  {
    HeaderRoundTrip(t, "");
    TupleRoundTrip(dump, t, "");
    assert InputTuplesHeader(t) + "" == InputTuplesHeader(t);
    assert SingleInputTuple(dump, t) + "" == SingleInputTuple(dump, t);
  }

  lemma {:induction false} TupleBlocksRoundTrip(dump: Json -> string, ts: seq<Object>)
    requires forall i :: 0 <= i < |ts| ==> AllPlain(DumpValues(dump, ts[i]))
    ensures ReadTupleBlocks(TupleBlocks(dump, ts)) == Some(DumpAll(dump, ts))
    decreases |ts|
  {
    if ts != [] {
      var rest := TupleBlocks(dump, ts[1..]);
      TupleRoundTrip(dump, ts[0], rest);
      TupleBlocksRoundTrip(dump, ts[1..]);
    }
  }

  /** `ConstructInputTuples` is invertible: the text holds the first tuple's
      keys as its only header, followed by exactly one block per input tuple,
      in input order, each holding that tuple's dumped values. */
  lemma InputTuplesRoundTrip(dump: Json -> string, ts: seq<Object>)
    requires |ts| > 0
    requires AllPlain(Keys(ts[0]))
    requires forall i :: 0 <= i < |ts| ==> AllPlain(DumpValues(dump, ts[i]))
    ensures ReadInputTuples(InputTuples(dump, ts)) == Some((Keys(ts[0]), DumpAll(dump, ts)))
  {
    HeaderRoundTrip(ts[0], TupleBlocks(dump, ts));
    TupleBlocksRoundTrip(dump, ts);
  }
}
