/**
 * The line buffer of handleStreamResponse in app.js: every `data` event appends the chunk's
 * text to `buffer` and splits the buffer on "\n". What happens to those lines afterwards is
 * not part of this model.
 *
 * As written, each chunk is turned into text on its own (`chunk.toString()`), so a multi-byte
 * UTF-8 character cut by a chunk boundary becomes replacement characters: `AppendDecodedChunk`
 * models that and `SplitCharacterCorrupted` exhibits it. The class `LineBuffer` is the
 * corrected buffer: it keeps the decoder's state from one chunk to the next, so the text it
 * holds depends only on the bytes received, not on how they were cut.
 */
module StreamBuffer {
  import JsText
  import Utf8

  type byte = Utf8.byte

  /** All chunks, in arrival order, as one byte sequence. */
  function Concat(chunks: seq<seq<byte>>): (bytes: seq<byte>) {
    if chunks == [] then [] else Concat(chunks[..|chunks| - 1]) + chunks[|chunks| - 1]
  }

  /** `buffer += chunk.toString()` as written: the chunk is decoded as if it were the whole input. */
  function AppendDecodedChunk(buffer: string, chunk: seq<byte>): (r: string)
    ensures |buffer| <= |r| && r[..|buffer|] == buffer
    ensures r[|buffer|..] == Utf8.Decode(chunk)
  {
    buffer + Utf8.Decode(chunk)
  }

  /**
   * The buffer as written, after `chunks` arrived on an initially empty buffer: at most one
   * character per byte received, and empty only while no byte has arrived.
   */
  function BufferAsWritten(chunks: seq<seq<byte>>): (r: string)
    ensures |r| <= |Concat(chunks)|
    ensures r == [] <==> Concat(chunks) == []
  {
    if chunks == [] then "" else AppendDecodedChunk(BufferAsWritten(chunks[..|chunks| - 1]), chunks[|chunks| - 1])
  }

  /**
   * "é" (bytes C3 A9) delivered in two chunks ends up in the buffer as two U+FFFD, while the
   * same bytes delivered together decode to "é".
   */
  lemma SplitCharacterCorrupted()
    ensures BufferAsWritten([[0xC3], [0xA9]]) == [Utf8.Replacement, Utf8.Replacement]
    ensures Utf8.Decode(Concat([[0xC3], [0xA9]])) == "é"
  {
    var a: seq<byte> := [0xC3];
    var b: seq<byte> := [0xA9];
    assert [[0xC3], [0xA9]][..1] == [a];
    assert [a][..0] == [];
    Utf8.RunSingle(Utf8.Idle, 0xC3);
    Utf8.RunSingle(Utf8.Idle, 0xA9);
    assert Utf8.Decode(a) == [Utf8.Replacement];
    assert Utf8.Decode(b) == [Utf8.Replacement];
    assert Concat([[0xC3], [0xA9]]) == Utf8.EncodeChar('é');
    Utf8.DecodeEncodeChar('é');
  }

  /**
   * Where every chunk ends on a character boundary (the decoder is idle after it), decoding
   * chunk by chunk agrees with decoding everything at once.
   */
  lemma {:induction false} AsWrittenAgreesOnBoundaries(chunks: seq<seq<byte>>)
    requires forall k :: 0 <= k < |chunks| ==> Utf8.Run(Utf8.Idle, chunks[k]).0 == Utf8.Idle
    ensures Utf8.Run(Utf8.Idle, Concat(chunks)).0 == Utf8.Idle
    ensures BufferAsWritten(chunks) == Utf8.Run(Utf8.Idle, Concat(chunks)).1
  {
    if chunks != [] {
      var init, last := chunks[..|chunks| - 1], chunks[|chunks| - 1];
      AsWrittenAgreesOnBoundaries(init);
      Utf8.RunAppend(Utf8.Idle, Concat(init), last);
      assert Utf8.Decode(last) == Utf8.Run(Utf8.Idle, last).1 + "";
    }
  }

  /**
   * The stream's line buffer. `buffer` is the text decoded so far and `decoder` the state of a
   * character that is still incomplete; `received` is every byte received, in order.
   */
  class LineBuffer {
    var buffer: string
    var decoder: Utf8.Decoder
    ghost var received: seq<byte>

    ghost predicate Valid()
      reads this
    {
      Utf8.Valid(decoder) && Utf8.Run(Utf8.Idle, received) == (decoder, buffer)
    }

    constructor()
      ensures Valid() && buffer == "" && received == []
    {
      buffer := "";
      decoder := Utf8.Idle;
      received := [];
    }

    /**
     * One `data` event: the chunk's text is appended to the buffer and the buffer is split on
     * "\n". The buffer is always the decoding of all bytes received so far, however they were
     * cut into chunks.
     */
    method OnData(chunk: seq<byte>) returns (lines: seq<string>)
      requires Valid()
      modifies this
      ensures Valid()
      ensures received == old(received) + chunk
      ensures buffer == old(buffer) + Utf8.Run(old(decoder), chunk).1
      ensures buffer == Utf8.Run(Utf8.Idle, received).1
      ensures lines == JsText.Split(buffer, '\n')
      ensures JsText.Join(lines, '\n') == buffer
      ensures |lines| == JsText.Count(buffer, '\n') + 1
    {
      var (next, text) := Utf8.Run(decoder, chunk);
      Utf8.RunAppend(Utf8.Idle, received, chunk);
      decoder := next;
      buffer := buffer + text;
      received := received + chunk;
      lines := JsText.Split(buffer, '\n');
      JsText.JoinSplit(buffer, '\n');
    }
  }

  /** Feeding chunks one `OnData` at a time leaves the buffer holding the decoding of their concatenation. */
  method FeedAll(chunks: seq<seq<byte>>) returns (b: LineBuffer)
    ensures fresh(b) && b.Valid()
    ensures b.received == Concat(chunks)
    ensures b.buffer == Utf8.Run(Utf8.Idle, Concat(chunks)).1
  {
    b := new LineBuffer();
    var k := 0;
    while k < |chunks|
      invariant 0 <= k <= |chunks|
      invariant b.Valid() && b.received == Concat(chunks[..k])
      invariant fresh(b)
    {
      var _ := b.OnData(chunks[k]);
      assert chunks[..k + 1][..k] == chunks[..k];
      k := k + 1;
    }
    assert chunks[..|chunks|] == chunks;
  }
}
