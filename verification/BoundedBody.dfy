/**
 * `readResponseBodyUpTo` of src/internal-body.ts.
 *
 * The body stream is the sequence of what its reads deliver; after the last one it is done.
 */
module BoundedBody {
  import opened Common

  datatype Read = Data(chunk: array<byte>) | Fails(error: string)

  /** All bytes the stream delivers. */
  ghost function Bytes(steps: seq<Read>): seq<byte>
    reads set r | r in steps && r.Data? :: r.chunk
  {
    if steps == [] then []
    else Bytes(steps[..|steps| - 1]) +
         match steps[|steps| - 1] { case Data(chunk) => chunk[..] case Fails(_) => [] }
  }

  ghost predicate AllData(steps: seq<Read>) {
    forall r :: r in steps ==> r.Data?
  }

  /** The first read after which the limit is passed, or the failing read, decides. */
  ghost predicate Passes(steps: seq<Read>, k: nat, maxBytes: nat)
    reads set r | r in steps && r.Data? :: r.chunk
  {
    k <= |steps| && AllData(steps[..k]) && |Bytes(steps[..k])| > maxBytes
  }

  lemma BytesSnoc(steps: seq<Read>, k: nat)
    requires k < |steps| && steps[k].Data?
    ensures Bytes(steps[..k + 1]) == Bytes(steps[..k]) + steps[k].chunk[..]
  {
    assert steps[..k + 1][..k] == steps[..k];
  }

  /** The kept chunks, joined. */
  ghost function Joined(chunks: seq<array<byte>>): seq<byte>
    reads chunks
  {
    if chunks == [] then [] else Joined(chunks[..|chunks| - 1]) + chunks[|chunks| - 1][..]
  }

  lemma JoinedSnoc(chunks: seq<array<byte>>, chunk: array<byte>)
    ensures Joined(chunks + [chunk]) == Joined(chunks) + chunk[..]
  {
    assert (chunks + [chunk])[..|chunks|] == chunks;
  }

  lemma {:induction false} JoinedPrefix(chunks: seq<array<byte>>, k: nat)
    requires k <= |chunks|
    ensures |Joined(chunks[..k])| <= |Joined(chunks)|
  {
    if k < |chunks| {
      JoinedPrefix(chunks[..|chunks| - 1], k);
      assert chunks[..|chunks| - 1][..k] == chunks[..k];
    } else {
      assert chunks[..k] == chunks;
    }
  }

  lemma AllDataSnoc(steps: seq<Read>, k: nat)
    requires k < |steps| && AllData(steps[..k]) && steps[k].Data?
    ensures AllData(steps[..k + 1])
  {
    assert steps[..k + 1] == steps[..k] + [steps[k]];
  }

  lemma {:induction false} PrefixIsNoLonger(steps: seq<Read>, k: nat)
    requires k <= |steps|
    ensures |Bytes(steps[..k])| <= |Bytes(steps)|
  {
    if k < |steps| {
      PrefixIsNoLonger(steps[..|steps| - 1], k);
      assert steps[..|steps| - 1][..k] == steps[..k];
    } else {
      assert steps[..k] == steps;
    }
  }

  datatype Outcome = Complete | TooLong | Failed(error: string)

  /**
   * The read loop (lines 18-34): the chunks it keeps, their total, and how it ends. A chunk that
   * would pass the limit is not kept, and nothing after it is read.
   */
  method ReadChunks(steps: seq<Read>, maxBytes: nat)
    returns (chunks: seq<array<byte>>, total: nat, outcome: Outcome, used: nat)
    ensures used <= |steps| && |Joined(chunks)| <= maxBytes
    ensures forall k :: 0 <= k < used ==> !Passes(steps, k, maxBytes)
    ensures outcome.Complete? ==>
      used == |steps| && AllData(steps) && Joined(chunks) == Bytes(steps) && total == |Joined(chunks)|
    ensures outcome.TooLong? ==> Passes(steps, used, maxBytes)
    ensures outcome.Failed? ==>
      used > 0 && AllData(steps[..used - 1]) && steps[used - 1] == Fails(outcome.error)
  {
    chunks, total, used := [], 0, 0;
    while used < |steps|
      invariant 0 <= used <= |steps| && AllData(steps[..used])
      invariant Joined(chunks) == Bytes(steps[..used]) && total == |Joined(chunks)| <= maxBytes
      invariant forall k :: 0 <= k <= used ==> !Passes(steps, k, maxBytes)
    {
      var read := steps[used];
      used := used + 1;
      if read.Fails? {
        return chunks, total, Failed(read.error), used;
      }
      AllDataSnoc(steps, used - 1);
      BytesSnoc(steps, used - 1);
      var value := read.chunk;
      if value.Length == 0 { continue; }
      if total + value.Length > maxBytes {
        return chunks, total, TooLong, used;
      }
      total := total + value.Length;
      JoinedSnoc(chunks, value);
      chunks := chunks + [value];
    }
    outcome := Complete;
    assert steps[..used] == steps;
  }

  /**
   * Ok(Some(bytes)): the whole stream was read and fits the limit, and these are its bytes.
   * Ok(None): read number `used` is the first to pass the limit, and nothing after it was read.
   * Err: read number `used` failed before the limit was passed.
   * So for a stream that does not fail the answer depends on its bytes alone, however they were
   * chunked: the single-chunk shortcut and the copy loop agree.
   */
  method ReadResponseBodyUpTo(body: Option<seq<Read>>, maxBytes: nat)
    returns (result: Result<Option<array<byte>>, string>, ghost used: nat)
    ensures body.None? ==> result.Ok? && result.value.Some? && result.value.value[..] == []
    ensures body.Some? ==> used <= |body.value| && forall k :: 0 <= k < used ==> !Passes(body.value, k, maxBytes)
    ensures body.Some? && AllData(body.value) ==>
      result.Ok? && (result.value.Some? <==> |Bytes(body.value)| <= maxBytes)
    ensures body.Some? && result.Ok? && result.value.Some? ==>
      AllData(body.value) && result.value.value[..] == Bytes(body.value)
    ensures body.Some? && result.Ok? && result.value.None? ==> Passes(body.value, used, maxBytes)
    ensures body.Some? && result.Err? ==>
      used > 0 && AllData(body.value[..used - 1]) && body.value[used - 1] == Fails(result.error)
  {
    if body.None? {
      var empty := new byte[0];
      return Ok(Some(empty)), 0;
    }
    var chunks, total, outcome, read := ReadChunks(body.value, maxBytes);
    used := read;
    match outcome {
      case Failed(error) =>
        assert body.value[used - 1] in body.value;
        result := Err(error);
      case TooLong =>
        PrefixIsNoLonger(body.value, used);
        result := Ok(None);
      case Complete =>
        if |chunks| == 1 {
          OneChunk(chunks);
          result := Ok(Some(chunks[0]));
        } else {
          var bytes := Concatenate(chunks, total);
          result := Ok(Some(bytes));
        }
    }
  }

  lemma OneChunk(chunks: seq<array<byte>>)
    requires |chunks| == 1
    ensures Joined(chunks) == chunks[0][..]
  {
    assert chunks[..0] == [];
  }

  /** The copy loop (lines 36-42). */
  method Concatenate(chunks: seq<array<byte>>, total: nat) returns (bytes: array<byte>)
    requires |Joined(chunks)| == total
    ensures fresh(bytes) && bytes[..] == Joined(chunks)
  {
    bytes := new byte[total];
    var offset := 0;
    for i := 0 to |chunks|
      invariant offset == |Joined(chunks[..i])| <= total
      invariant bytes[..offset] == Joined(chunks[..i])
    {
      var chunk := chunks[i];
      assert chunks[..i + 1][..i] == chunks[..i];
      JoinedPrefix(chunks, i + 1);
      CopyInto(bytes, chunk, offset);
      offset := offset + chunk.Length;
    }
    assert chunks[..|chunks|] == chunks;
  }

  /** `bytes.set(chunk, offset)`. */
  method CopyInto(bytes: array<byte>, chunk: array<byte>, offset: nat)
    requires offset + chunk.Length <= bytes.Length && bytes != chunk
    modifies bytes
    ensures bytes[..offset + chunk.Length] == old(bytes[..offset]) + chunk[..]
    ensures bytes[offset + chunk.Length..] == old(bytes[offset + chunk.Length..])
  {
    forall k | 0 <= k < chunk.Length {
      bytes[offset + k] := chunk[k];
    }
  }
}
