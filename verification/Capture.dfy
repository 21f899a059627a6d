/** Capturing a command's output: the stream is copied chunk by chunk into a buffer that keeps only the
    first bytes and counts the rest. */
module Capture {
  import opened Wrappers

  type byte = bv8

  /** The buffer as a value. */
  datatype View = View(max: int, total: nat, truncated: bool, kept: seq<byte>)

  function Accept(v: View, p: seq<byte>): View
    requires |v.kept| <= v.max || v.max <= 0
  {
    var total := v.total + |p|;
    if v.max <= 0 then v.(total := total)
    else
      var remaining := v.max - |v.kept|;
      var n := if |p| > remaining then remaining else |p|;
      v.(total := total, kept := v.kept + p[..n], truncated := v.truncated || |p| > remaining)
  }

  function Concat(chunks: seq<seq<byte>>): seq<byte>
    decreases |chunks|
  {
    if chunks == [] then [] else Concat(chunks[..|chunks| - 1]) + chunks[|chunks| - 1]
  }

  /** What a buffer with this limit is meant to hold after these bytes. */
  function Captured(max: int, bytes: seq<byte>): View {
    View(max, |bytes|, 0 < max < |bytes|, if max <= 0 then [] else if |bytes| <= max then bytes else bytes[..max])
  }

  lemma AcceptExtends(max: int, bytes: seq<byte>, p: seq<byte>)
    ensures Accept(Captured(max, bytes), p) == Captured(max, bytes + p)
  {
  }

  function AcceptAll(v: View, chunks: seq<seq<byte>>): (v': View)
    requires |v.kept| <= v.max || v.max <= 0
    ensures v'.max == v.max && (|v'.kept| <= v.max || v.max <= 0)
  {
    if chunks == [] then v else Accept(AcceptAll(v, chunks[..|chunks| - 1]), chunks[|chunks| - 1])
  }

  /** However the output is chunked, the buffer holds its first `max` bytes, the total is the true count,
      and it is marked truncated exactly when a positive limit was exceeded. */
  lemma {:induction false} CaptureIsPrefix(max: int, chunks: seq<seq<byte>>)
    ensures AcceptAll(View(max, 0, false, []), chunks) == Captured(max, Concat(chunks))
    decreases |chunks|
  {
    if chunks != [] {
      var n := |chunks| - 1;
      CaptureIsPrefix(max, chunks[..n]);
      AcceptExtends(max, Concat(chunks[..n]), chunks[n]);
    }
  }

  class LimitedBuffer {
    const max: int
    var total: nat
    var truncated: bool
    var buf: seq<byte>
    /** Everything written so far. */
    ghost var written: seq<byte>

    ghost predicate Valid()
      reads this
    {
      View(max, total, truncated, buf) == Captured(max, written)
    }

    constructor (max: int)
      ensures Valid() && this.max == max && written == []
    {
      this.max, total, truncated, buf, written := max, 0, false, [], [];
    }

    method Write(p: seq<byte>) returns (n: nat)
      requires Valid()
      modifies this
      ensures Valid() && written == old(written) + p && n == |p|
    {
      AcceptExtends(max, written, p);
      written := written + p;
      total := total + |p|;
      if max <= 0 {
        return |p|;
      }
      var remaining := max - |buf|;
      if remaining > 0 {
        var m := |p|;
        if m > remaining {
          m := remaining;
        }
        buf := buf + p[..m];
      }
      if |p| > remaining {
        truncated := true;
      }
      return |p|;
    }
  }

  datatype ReadError = EndOfFile | AlreadyClosed | Broken(message: string)

  /** The chunks the callback sees: a read that returns no bytes is skipped. */
  function NonEmpty(chunks: seq<seq<byte>>): seq<seq<byte>>
    decreases |chunks|
  {
    if chunks == [] then []
    else
      var rest, last := NonEmpty(chunks[..|chunks| - 1]), chunks[|chunks| - 1];
      if last == [] then rest else rest + [last]
  }

  method CopyChunk(chunk: seq<byte>, dst: LimitedBuffer, seen: seq<seq<byte>>) returns (out: seq<seq<byte>>)
    requires dst.Valid()
    modifies dst
    ensures dst.Valid() && dst.written == old(dst.written) + chunk
    ensures out == if chunk == [] then seen else seen + [chunk]
  {
    out := seen;
    if |chunk| > 0 {
      var _ := dst.Write(chunk);
      out := seen + [chunk];
    }
  }

  lemma Associate(a: seq<byte>, b: seq<byte>, c: seq<byte>)
    ensures a + b + c == a + (b + c)
  {
  }

  lemma ConcatMore(chunks: seq<seq<byte>>, i: nat)
    requires i < |chunks|
    ensures Concat(chunks[..i + 1]) == Concat(chunks[..i]) + chunks[i]
    ensures NonEmpty(chunks[..i + 1]) ==
            if chunks[i] == [] then NonEmpty(chunks[..i]) else NonEmpty(chunks[..i]) + [chunks[i]]
  {
    assert chunks[..i + 1][..i] == chunks[..i];
  }

  method CopyChunks(chunks: seq<seq<byte>>, dst: LimitedBuffer) returns (seen: seq<seq<byte>>)
    requires dst.Valid()
    modifies dst
    ensures dst.Valid() && dst.written == old(dst.written) + Concat(chunks) && seen == NonEmpty(chunks)
  {
    seen := [];
    for i := 0 to |chunks|
      invariant dst.Valid() && dst.written == old(dst.written) + Concat(chunks[..i])
      invariant seen == NonEmpty(chunks[..i])
    {
      ConcatMore(chunks, i);
      Associate(old(dst.written), Concat(chunks[..i]), chunks[i]);
      seen := CopyChunk(chunks[i], dst, seen);
    }
    assert chunks[..|chunks|] == chunks;
  }

  /** Copies what is read before the first error and whatever comes with it; the end of the file and a
      closed pipe are no failure. The callback sees every non-empty chunk, in order. */
  method CopyStream(chunks: seq<seq<byte>>, last: seq<byte>, error: ReadError, dst: LimitedBuffer)
    returns (err: Option<ReadError>, seen: seq<seq<byte>>)
    requires dst.Valid()
    modifies dst
    ensures dst.Valid() && dst.written == old(dst.written) + Concat(chunks) + last
    ensures seen == if last == [] then NonEmpty(chunks) else NonEmpty(chunks) + [last]
    ensures err == if error.Broken? then Some(error) else None
  {
    seen := CopyChunks(chunks, dst);
    seen := CopyChunk(last, dst, seen);
    return if error.Broken? then Some(error) else None, seen;
  }
}
