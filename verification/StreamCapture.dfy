/** The capture of a child's output (src/skill_native/coding_agent.py, `_StreamAccumulator`). */
module StreamCapture {
  import opened Wrappers

  type Byte = b: int | 0 <= b < 256

  function Joined(chunks: seq<seq<Byte>>): seq<Byte> {
    if chunks == [] then [] else Joined(chunks[..|chunks| - 1]) + chunks[|chunks| - 1]
  }

  class StreamAccumulator {
    const maxCaptureBytes: nat
    var captured: seq<Byte>
    var totalBytes: nat
    /** What the digest has been fed. */
    ghost var seen: seq<Byte>

    ghost predicate Valid()
      reads this
    {
      totalBytes == |seen| && captured == seen[..Min(|seen|, maxCaptureBytes)]
    }

    constructor (maxCaptureBytes: nat)
      ensures Valid() && seen == [] && this.maxCaptureBytes == maxCaptureBytes
    {
      this.maxCaptureBytes, captured, totalBytes, seen := maxCaptureBytes, [], 0, [];
    }

    predicate Truncated()
      reads this
    {
      totalBytes > maxCaptureBytes
    }

    /** However the stream is cut into chunks, what is captured is its longest prefix within the
        limit, and the truncation flag tells whether that is all of it. Reading stops at an empty
        chunk; an error part of the way is a shorter list of chunks. */
    method Consume(chunks: seq<seq<Byte>>)
      requires Valid() && forall i :: 0 <= i < |chunks| ==> chunks[i] != []
      modifies this
      ensures Valid() && seen == old(seen) + Joined(chunks)
      ensures Truncated() <==> captured != seen
    {
      assert chunks[..0] == [];
      for i := 0 to |chunks|
        invariant Valid() && seen == old(seen) + Joined(chunks[..i])
      {
        var chunk := chunks[i];
        assert chunks[..i + 1][..i] == chunks[..i];
        totalBytes := totalBytes + |chunk|;
        if |captured| < maxCaptureBytes {
          var remaining := maxCaptureBytes - |captured|;
          captured := captured + chunk[..Min(|chunk|, remaining)];
        }
        seen := seen + chunk;
      }
      assert chunks[..|chunks|] == chunks;
    }
  }
}
