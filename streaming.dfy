/**
 * The chat streaming accumulator: a process-wide string that every streamed
 * chat reply appends its chunks to and that is cleared when the reply ends.
 */
module Streaming {
  import opened Wrappers

  /** One streamed response; its `text` getter may be `undefined`. */
  datatype Chunk = Chunk(text: Option<string>)

  /**
   * How a stream ends after its chunks: it completes, or the iterator rejects
   * with an error, which the `for await` loop does not catch.
   */
  datatype StreamEnd = Completed | Rejected(error: string)

  /** What a chunk contributes: its text when that text is truthy (defined and non-empty). */
  function TextOf(c: Chunk): string {
    if c.text.Some? && c.text.value != "" then c.text.value else ""
  }

  /** The texts of `chunks`, concatenated in arrival order. */
  function Texts(chunks: seq<Chunk>): string {
    if chunks == [] then "" else TextOf(chunks[0]) + Texts(chunks[1..])
  }

  /** The texts of two consecutive runs of chunks are the texts of each, in order. */
  lemma {:induction false} TextsAppend(a: seq<Chunk>, b: seq<Chunk>)
    ensures Texts(a + b) == Texts(a) + Texts(b)
  {
    if a != [] {
      assert (a + b)[1..] == a[1..] + b;
      TextsAppend(a[1..], b);
    } else {
      assert a + b == b;
    }
  }

  /** Receiving one more chunk extends the texts by that chunk's text. */
  lemma TextsSnoc(chunks: seq<Chunk>, c: Chunk)
    ensures Texts(chunks + [c]) == Texts(chunks) + TextOf(c)
  {
    TextsAppend(chunks, [c]);
    assert Texts([c]) == TextOf(c) + Texts([]);
  }

  /** A chunk whose text is empty or undefined contributes nothing, wherever it arrives. */
  lemma EmptyChunkIsIgnored(before: seq<Chunk>, c: Chunk, after: seq<Chunk>)
    requires c.text.None? || c.text == Some("")
    ensures Texts(before + [c] + after) == Texts(before + after)
  {
    TextsAppend(before + [c], after);
    TextsSnoc(before, c);
    TextsAppend(before, after);
  }

  /**
   * The text of a reply contains each chunk's text in its place: the texts
   * before it, then its own, then the texts after it; so it is never shorter.
   */
  lemma TextsContainChunks(chunks: seq<Chunk>, k: nat)
    requires k < |chunks|
    ensures Texts(chunks) == Texts(chunks[..k]) + TextOf(chunks[k]) + Texts(chunks[k + 1..])
    ensures |TextOf(chunks[k])| <= |Texts(chunks)|
  {
    assert chunks == chunks[..k] + [chunks[k]] + chunks[k + 1..];
    TextsAppend(chunks[..k] + [chunks[k]], chunks[k + 1..]);
    TextsSnoc(chunks[..k], chunks[k]);
  }

  /** The chunks `["Hello, ", "world", "!"]` carry the text "Hello, world!". */
  lemma HelloWorldTexts()
    ensures Texts([Chunk(Some("Hello, ")), Chunk(Some("world")), Chunk(Some("!"))]) == "Hello, world!"
  {
    var cs := [Chunk(Some("Hello, ")), Chunk(Some("world")), Chunk(Some("!"))];
    assert cs[1..][1..][1..] == [];
    assert Texts(cs[1..][1..]) == "!";
    assert Texts(cs[1..]) == "world!";
  }

  /** The module-level `currentStreamingResponse` and the function that fills it. */
  class StreamBuffer {
    var current: string

    constructor ()
      ensures current == ""
    {
      current := "";
    }

    /** One iteration of the `for await` loop. */
    method Receive(c: Chunk)
      modifies this
      ensures current == old(current) + TextOf(c)
    {
      if c.text.Some? && c.text.value != "" {
        current := current + c.text.value;
      }
    }

    /**
     * The `for await` loop over the chunks delivered. `seen[k]` is the buffer
     * as readers observe it right after chunk `k` has been consumed.
     */
    method Consume(chunks: seq<Chunk>) returns (ghost seen: seq<string>)
      modifies this
      ensures |seen| == |chunks|
      ensures forall k :: 0 <= k < |chunks| ==> seen[k] == old(current) + Texts(chunks[..k + 1])
      ensures current == old(current) + Texts(chunks)
    {
      ghost var start := current;
      seen := [];
      var i := 0;
      while i < |chunks|
        invariant 0 <= i <= |chunks|
        invariant current == start + Texts(chunks[..i])
        invariant |seen| == i
        invariant forall k :: 0 <= k < i ==> seen[k] == start + Texts(chunks[..k + 1])
      {
        Receive(chunks[i]);
        TextsSnoc(chunks[..i], chunks[i]);
        assert chunks[..i + 1] == chunks[..i] + [chunks[i]];
        seen := seen + [current];
        i := i + 1;
      }
      assert chunks[..i] == chunks;
    }

    /**
     * `streamGeminiResponse` as written, for a stream that delivers `chunks`
     * and then ends as `end`. A completed stream clears the buffer and returns
     * the cleared value. A rejecting stream propagates its error before the
     * clear, so the partial reply stays in the buffer.
     */
    method Stream(chunks: seq<Chunk>, end: StreamEnd) returns (r: Result<string, string>, ghost seen: seq<string>)
      modifies this
      ensures |seen| == |chunks|
      ensures forall k :: 0 <= k < |chunks| ==> seen[k] == old(current) + Texts(chunks[..k + 1])
      ensures end == Completed ==> current == "" && r == Ok("")
      ensures end.Rejected? ==> current == old(current) + Texts(chunks) && r == Err(end.error)
    {
      seen := Consume(chunks);
      if end.Rejected? {
        return Err(end.error), seen;
      }
      current := "";
      r := Ok(current);
    }

    /**
     * The evidently intended `streamGeminiResponse`: the same consumption and
     * clearing, returning the text accumulated before the clear.
     */
    method StreamReturningText(chunks: seq<Chunk>, end: StreamEnd) returns (r: Result<string, string>, ghost seen: seq<string>)
      modifies this
      ensures |seen| == |chunks|
      ensures forall k :: 0 <= k < |chunks| ==> seen[k] == old(current) + Texts(chunks[..k + 1])
      ensures end == Completed ==> current == "" && r == Ok(old(current) + Texts(chunks))
      ensures end.Rejected? ==> current == old(current) + Texts(chunks) && r == Err(end.error)
    {
      seen := Consume(chunks);
      if end.Rejected? {
        return Err(end.error), seen;
      }
      r := Ok(current);
      current := "";
    }
  }

  /**
   * As written, a whole "Hello, world!" reply is returned as "": the text is
   * lost even though the buffer held it just before the clear.
   */
  method HelloWorldIsLost() returns (returned: Result<string, string>, fixed: Result<string, string>)
    ensures returned == Ok("") && fixed == Ok("Hello, world!")
  {
    var cs := [Chunk(Some("Hello, ")), Chunk(Some("world")), Chunk(Some("!"))];
    HelloWorldTexts();
    var b := new StreamBuffer();
    ghost var seen1, seen2;
    returned, seen1 := b.Stream(cs, Completed);
    assert b.current == "";
    fixed, seen2 := b.StreamReturningText(cs, Completed);
    assert "" + Texts(cs) == "Hello, world!";
  }

  /**
   * A stream that rejects after `Hello` leaves `Hello` in the buffer, and the
   * next reply's first chunk `!` is then observed as `Hello!`.
   */
  method RejectedStreamLeaksIntoNext() returns (left: string, next: Result<string, string>, ghost observed: string)
    ensures left == "Hello" && next == Ok("")
    ensures observed == "Hello!"
  {
    var b := new StreamBuffer();
    ghost var seen1, seen2;
    var failed;
    failed, seen1 := b.Stream([Chunk(Some("Hello"))], Rejected("network error"));
    assert Texts([Chunk(Some("Hello"))]) == "Hello";
    left := b.current;
    next, seen2 := b.Stream([Chunk(Some("!"))], Completed);
    assert [Chunk(Some("!"))][..1] == [Chunk(Some("!"))];
    assert Texts([Chunk(Some("!"))]) == "!";
    observed := seen2[0];
  }
}
