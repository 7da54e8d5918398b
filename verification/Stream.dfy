/** The buffered response reader (transport/stream.py). */
module Stream {
  import opened Prelude

  class IteratorReader {
    /** The chunks the response iterator has yet to yield. */
    var chunks: seq<Bytes>
    var buffer: Bytes
    var ended: bool
    var closed: bool

    /** Everything still to be read. */
    ghost function Remaining(): Bytes
      reads this
    {
      buffer + Concat(chunks)
    }

    ghost predicate Valid()
      reads this
    {
      ended ==> chunks == []
    }

    constructor (chunks: seq<Bytes>)
      ensures Valid() && Remaining() == Concat(chunks) && !closed
    {
      this.chunks, buffer, ended, closed := chunks, [], false, false;
    }

    method Close()
      modifies this`closed
      ensures closed
    {
      closed := true;
    }

    /** `next` on the response iterator. */
    method Pull()
      requires chunks != [] && Valid()
      modifies this`chunks, this`buffer
      ensures Valid() && Remaining() == old(Remaining()) && chunks == old(chunks)[1..]
    {
      ghost var first := chunks[0];
      assert chunks == [first] + chunks[1..];
      ConcatSplit([first], chunks[1..]);
      assert [first][..0] == [];
      assert Concat([first]) == first by { assert Concat([]) + first == first; }
      assert buffer + (first + Concat(chunks[1..])) == buffer + first + Concat(chunks[1..]);
      buffer := buffer + chunks[0];
      chunks := chunks[1..];
    }

    /**
      `read`. A positive size returns exactly that many bytes, or all that is left; a negative size
      returns everything; zero returns nothing. What is returned is taken from the front.
     */
    method Read(size: int) returns (r: Result<Bytes>)
      requires Valid()
      modifies this`chunks, this`buffer, this`ended
      ensures Valid()
      ensures closed ==> r == Err(OtherFailure) && Remaining() == old(Remaining())
      ensures !closed ==> r.Ok? && r.value == Served(old(Remaining()), size)
      ensures !closed ==> r.value <= old(Remaining()) && Remaining() == old(Remaining())[|r.value|..]
      ensures !closed && size >= 0 ==>
                |r.value| == (if size <= |old(Remaining())| then size else |old(Remaining())|)
      ensures !closed && size < 0 ==> r.value == old(Remaining())
    {
      if closed { return Err(OtherFailure); }
      if size == 0 { return Ok([]); }
      if size < 0 {
        while chunks != []
          invariant Valid() && Remaining() == old(Remaining())
          decreases |chunks|
        {
          Pull();
        }
        ended := true;
        r := Ok(buffer);
        buffer := [];
        return;
      }
      while |buffer| < size && !ended
        invariant Valid() && Remaining() == old(Remaining())
        decreases |chunks|, !ended
      {
        if chunks != [] { Pull(); } else { ended := true; }
      }
      var n := if size <= |buffer| then size else |buffer|;
      assert |buffer| < size ==> chunks == [];
      r := Ok(buffer[..n]);
      assert old(Remaining())[n..] == buffer[n..] + Concat(chunks);
      buffer := buffer[n..];
    }
  }

  /** What one read of a stream with `rest` left returns. */
  function Served(rest: Bytes, size: int): Bytes {
    if size < 0 || |rest| <= size then rest else rest[..size]
  }

  /** What a sequence of reads returns. */
  function ServedAll(rest: Bytes, sizes: seq<int>): seq<Bytes> {
    if sizes == [] then []
    else
      var first := Served(rest, sizes[0]);
      [first] + ServedAll(rest[|first|..], sizes[1..])
  }

  /** Read a response body in pieces of the given sizes. */
  method ReadPieces(reader: IteratorReader, sizes: seq<int>) returns (pieces: seq<Bytes>)
    requires reader.Valid() && !reader.closed
    modifies reader`chunks, reader`buffer, reader`ended
    ensures reader.Valid() && pieces == ServedAll(old(reader.Remaining()), sizes)
  {
    pieces := [];
    ghost var all := reader.Remaining();
    assert sizes[0..] == sizes && [] + ServedAll(all, sizes) == ServedAll(all, sizes);
    hide Concat, Served;
    for i := 0 to |sizes|
      invariant reader.Valid() && !reader.closed
      invariant ServedAll(all, sizes) == pieces + ServedAll(reader.Remaining(), sizes[i..])
    {
      ghost var rest := reader.Remaining();
      var piece := reader.Read(sizes[i]);
      assert sizes[i..][0] == sizes[i] && sizes[i..][1..] == sizes[i + 1..];
      assert pieces + ([piece.value] + ServedAll(reader.Remaining(), sizes[i + 1..])) ==
             pieces + [piece.value] + ServedAll(reader.Remaining(), sizes[i + 1..]);
      pieces := pieces + [piece.value];
    }
    assert sizes[|sizes|..] == [];
  }

  /** Each piece continues where the ones before it stopped, and is as long as asked for or as what is left. */
  lemma {:induction false} PieceIs(body: Bytes, sizes: seq<int>, n: nat)
    requires n < |sizes|
    ensures var pieces := ServedAll(body, sizes);
            && |pieces| == |sizes|
            && var start := |Concat(pieces[..n])|;
               && start <= |body|
               && pieces[n] == if 0 <= sizes[n] < |body| - start then body[start..start + sizes[n]] else body[start..]
  {
    var pieces, first := ServedAll(body, sizes), Served(body, sizes[0]);
    var rest := ServedAll(body[|first|..], sizes[1..]);
    if n == 0 {
      PiecesCoverBody(body, sizes);
      assert pieces[..0] == [];
    } else {
      PieceIs(body[|first|..], sizes[1..], n - 1);
      assert pieces[..n] == [first] + rest[..n - 1];
      FirstPiece(first, rest[..n - 1]);
    }
  }

  /** Some read asks for everything, or for at least what is left when it is made. */
  predicate Exhausts(body: Bytes, sizes: seq<int>)
    decreases |sizes|
  {
    sizes != [] &&
    (sizes[0] < 0 || |body| <= sizes[0] || Exhausts(body[|Served(body, sizes[0])|..], sizes[1..]))
  }

  /**
    For every sequence of read sizes the pieces are consecutive bytes of the body, and they are the
    whole body as soon as one read was negative, or asked for all that was left or more.
   */
  lemma {:induction false} PiecesCoverBody(body: Bytes, sizes: seq<int>)
    ensures |ServedAll(body, sizes)| == |sizes|
    ensures Concat(ServedAll(body, sizes)) <= body
    ensures Exhausts(body, sizes) ==> Concat(ServedAll(body, sizes)) == body
    decreases |sizes|
  {
    if sizes != [] {
      var first := Served(body, sizes[0]);
      var rest := body[|first|..];
      PiecesCoverBody(rest, sizes[1..]);
      assert body == first + rest;
      FirstPiece(first, ServedAll(rest, sizes[1..]));
    }
  }

  lemma FirstPiece(first: Bytes, pieces: seq<Bytes>)
    ensures Concat([first] + pieces) == first + Concat(pieces)
  {
    ConcatSplit([first], pieces);
    assert [first][..0] == [];
    assert Concat([first]) == [] + first == first;
  }
}
