/** The progress counter of src/progress-reader.js.

    `ProgressReader` is a pass-through stream: `_transform` counts the bytes of
    every chunk in `bytes` and hands the chunk on unchanged. `printProgress`
    writes `"\r"` followed by the message, padded with spaces when it is shorter
    than the previous one, so that on a terminal the new message fully covers
    the old one; `lastMessageLength` remembers the length for the next call.

    Chunks are byte sequences. stdout is the `output` string; the terminal line
    it draws is the ghost `screen`, on which a `"\r"` returns to the first
    column and the following text overwrites the characters under it. */
module ProgressReader {

  /** `new Array(n).fill(' ').join('')`. */
  function Spaces(n: nat): (pad: string)
    ensures |pad| == n
    ensures forall k :: 0 <= k < n ==> pad[k] == ' '
  {
    if n == 0 then "" else Spaces(n - 1) + " "
  }

  /** The text `printProgress` writes after `"\r"`: the message, then blanks
      up to the length of the previous message. */
  function ProgressLine(message: string, lastMessageLength: nat): (line: string)
    ensures |line| == if |message| < lastMessageLength then lastMessageLength else |message|
    ensures line[..|message|] == message
    ensures forall k :: |message| <= k < |line| ==> line[k] == ' '
  {
    message + (if |message| < lastMessageLength then Spaces(lastMessageLength - |message|) else "")
  }

  /** The terminal line after `"\r" + text` over `screen`. */
  function Overwrite(screen: string, text: string): (shown: string)
    ensures |shown| == if |text| < |screen| then |screen| else |text|
  {
    if |text| < |screen| then text + screen[|text|..] else text
  }

  /** The line reads as `message` followed by nothing but blanks. */
  ghost predicate ShowsOnly(screen: string, message: string)
  {
    |message| <= |screen| && screen[..|message|] == message
    && forall k :: |message| <= k < |screen| ==> screen[k] == ' '
  }

  /** The number of bytes in a sequence of chunks. */
  function TotalLength(chunks: seq<seq<bv8>>): nat
  {
    if chunks == [] then 0 else TotalLength(chunks[..|chunks| - 1]) + |chunks[|chunks| - 1]|
  }

  class ProgressReader {
    var bytes: nat
    var lastMessageLength: nat
    var output: string
    ghost var chunks: seq<seq<bv8>>   // every chunk passed through so far
    ghost var message: string         // the last progress message
    ghost var screen: string          // the terminal line the progress messages drew

    ghost predicate Valid()
      reads this
    {
      && bytes == TotalLength(chunks)
      && lastMessageLength == |message|
      && ShowsOnly(screen, message)
    }

    constructor ()
      ensures Valid()
      ensures bytes == 0 && lastMessageLength == 0 && output == ""
      ensures chunks == [] && screen == ""
    {
      bytes := 0;
      lastMessageLength := 0;
      output := "";
      chunks := [];
      message := "";
      screen := "";
    }

    /** `_transform(chunk)`: counts the chunk and passes it on unchanged. */
    method Transform(chunk: seq<bv8>) returns (passed: seq<bv8>)
      requires Valid()
      modifies this
      ensures Valid()
      ensures passed == chunk
      ensures bytes == old(bytes) + |chunk|
      ensures chunks == old(chunks) + [chunk]
      ensures lastMessageLength == old(lastMessageLength) && output == old(output)
      ensures message == old(message) && screen == old(screen)
    {
      bytes := bytes + |chunk|;
      chunks := chunks + [chunk];
      assert chunks[..|chunks| - 1] == old(chunks);
      passed := chunk;
    }

    /** `printProgress(message)`: afterwards the terminal line shows the new
        message and nothing of the previous one. */
    method PrintProgress(m: string)
      requires Valid()
      modifies this
      ensures Valid()
      ensures lastMessageLength == |m|
      ensures output == old(output) + "\r" + ProgressLine(m, old(lastMessageLength))
      ensures screen == Overwrite(old(screen), ProgressLine(m, old(lastMessageLength)))
      ensures ShowsOnly(screen, m)
      ensures bytes == old(bytes) && chunks == old(chunks)
    {
      var pad := "";
      if |m| < lastMessageLength {
        pad := Spaces(lastMessageLength - |m|);
      }
      ProgressLineCoversPrevious(screen, message, m);
      screen := Overwrite(screen, m + pad);
      message := m;
      lastMessageLength := |m|;
      output := output + "\r" + m + pad;
    }
  }

  // ---------------------------------------------------------------------------
  // Properties
  // ---------------------------------------------------------------------------

  /** Writing the padded line over a line that shows only the previous message
      leaves a line that shows only the new one. */
  lemma ProgressLineCoversPrevious(screen: string, previous: string, message: string)
    requires ShowsOnly(screen, previous)
    ensures ShowsOnly(Overwrite(screen, ProgressLine(message, |previous|)), message)
  {
    var line := ProgressLine(message, |previous|);
    var shown := Overwrite(screen, line);
    assert shown[..|line|] == line;
    assert shown[..|message|] == line[..|message|];
    forall k | |message| <= k < |shown|
      ensures shown[k] == ' '
    {
      if k >= |line| {
        assert shown[k] == screen[k];
      }
    }
  }

  /** Why the padding is there: a shorter message written without it leaves
      the tail of the previous message visible. */
  lemma UnpaddedLeavesResidue(screen: string, previous: string, message: string)
    requires ShowsOnly(screen, previous)
    requires |message| < |previous| && previous[|message|] != ' '
    ensures !ShowsOnly(Overwrite(screen, message), message)
  {
    assert Overwrite(screen, message)[|message|] == screen[|message|] == previous[|message|];
  }

  /** `bytes` is the sum over all chunks, so it adds up across any split of the stream. */
  lemma {:induction false} TotalLengthAppend(a: seq<seq<bv8>>, b: seq<seq<bv8>>)
    ensures TotalLength(a + b) == TotalLength(a) + TotalLength(b)
    decreases |b|
  {
    if b == [] {
      assert a + b == a;
    } else {
      var init := b[..|b| - 1];
      assert (a + b)[..|a + b| - 1] == a + init;
      TotalLengthAppend(a, init);
    }
  }

  /** Passing chunks through one after another: what comes out is what went
      in, and the counter ends at the total byte count. */
  method PassThrough(input: seq<seq<bv8>>) returns (passed: seq<seq<bv8>>, bytes: nat)
    ensures passed == input
    ensures bytes == TotalLength(input)
  {
    var reader := new ProgressReader();
    passed := [];
    var i := 0;
    while i < |input|
      invariant 0 <= i <= |input|
      invariant reader.Valid()
      invariant passed == input[..i] && reader.chunks == input[..i]
    {
      var chunk := reader.Transform(input[i]);
      passed := passed + [chunk];
      i := i + 1;
    }
    assert input[..i] == input;
    bytes := reader.bytes;
  }
}
