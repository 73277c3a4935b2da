/** The bytes of a response body, the pieces the HTTP library streams them in, and the write loop. */
module Chunks {

  newtype byte = x: int | 0 <= x < 256
  type Bytes = seq<byte>

  /** The chunk size the client asks the HTTP library to stream a body in. */
  const ChunkSize: nat := 1024

  /** The bytes of the chunks, one after another. */
  function Concat(cs: seq<Bytes>): Bytes
  {
    if cs == [] then [] else cs[0] + Concat(cs[1..])
  }

  /** The chunks that are not empty, in their order: the ones `if chunk:` lets through. */
  function NonEmpty(cs: seq<Bytes>): (r: seq<Bytes>)
    ensures forall i :: 0 <= i < |r| ==> r[i] != []
    ensures |r| <= |cs|
  {
    if cs == [] then []
    else if cs[0] == [] then NonEmpty(cs[1..])
    else [cs[0]] + NonEmpty(cs[1..])
  }

  /**
   * The pieces in which an already downloaded body is streamed: consecutive slices of
   * `size` bytes, the last one possibly shorter, none for an empty body.
   */
  function Split(body: Bytes, size: nat): (cs: seq<Bytes>)
    requires size > 0
    ensures forall i :: 0 <= i < |cs| ==> 0 < |cs[i]| <= size
    ensures Concat(cs) == body
    decreases |body|
  {
    if body == [] then []
    else if |body| <= size then [body]
    else
      var rest := Split(body[size..], size);
      assert ([body[..size]] + rest)[1..] == rest;
      [body[..size]] + rest
  }

  lemma {:induction false} ConcatAppend(cs: seq<Bytes>, c: Bytes)
    ensures Concat(cs + [c]) == Concat(cs) + c
  {
    if cs == [] {
      assert [] + [c] == [c];
      assert [c][1..] == [];
    } else {
      assert (cs + [c])[1..] == cs[1..] + [c];
      ConcatAppend(cs[1..], c);
    }
  }

  lemma {:induction false} NonEmptyAppend(cs: seq<Bytes>, c: Bytes)
    ensures NonEmpty(cs + [c]) == NonEmpty(cs) + (if c == [] then [] else [c])
  {
    if cs == [] {
      assert [] + [c] == [c];
      assert [c][1..] == [];
    } else {
      assert (cs + [c])[1..] == cs[1..] + [c];
      NonEmptyAppend(cs[1..], c);
    }
  }

  /** Skipping empty chunks loses no byte. */
  lemma {:induction false} ConcatNonEmpty(cs: seq<Bytes>)
    ensures Concat(NonEmpty(cs)) == Concat(cs)
  {
    if cs != [] {
      ConcatNonEmpty(cs[1..]);
      if cs[0] != [] {
        assert ([cs[0]] + NonEmpty(cs[1..]))[1..] == NonEmpty(cs[1..]);
      }
    }
  }

  /** A sequence of chunks none of which is empty passes the filter unchanged. */
  lemma {:induction false} NonEmptyKeepsFullChunks(cs: seq<Bytes>)
    requires forall i :: 0 <= i < |cs| ==> cs[i] != []
    ensures NonEmpty(cs) == cs
  {
    if cs != [] {
      NonEmptyKeepsFullChunks(cs[1..]);
    }
  }

  /**
   * The loop that writes a streamed body to the output file: each chunk is written
   * when it is not empty. The result is the content of the file afterwards.
   */
  method WriteChunks(chunks: seq<Bytes>) returns (written: Bytes)
    ensures written == Concat(NonEmpty(chunks))
    ensures written == Concat(chunks)
  {
    written := [];
    var i := 0;
    while i < |chunks|
      invariant 0 <= i <= |chunks|
      invariant written == Concat(NonEmpty(chunks[..i]))
    {
      var chunk := chunks[i];
      assert chunks[..i + 1] == chunks[..i] + [chunk];
      NonEmptyAppend(chunks[..i], chunk);
      if chunk != [] {
        ConcatAppend(NonEmpty(chunks[..i]), chunk);
        written := written + chunk;
      } else {
        assert NonEmpty(chunks[..i]) + [] == NonEmpty(chunks[..i]);
      }
      i := i + 1;
    }
    assert chunks[..i] == chunks;
    ConcatNonEmpty(chunks);
  }

  /** Writing a body streamed in chunks of `ChunkSize` bytes reproduces it byte for byte. */
  lemma SavedBodyRoundTrip(body: Bytes)
    ensures Concat(NonEmpty(Split(body, ChunkSize))) == body
  {
    NonEmptyKeepsFullChunks(Split(body, ChunkSize));
  }
}
