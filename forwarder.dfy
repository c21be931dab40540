// The chunked, stop-aware forwarder: the loop at the end of `generate` that
// reads the inference process's output in chunks of at most 128 bytes, drops
// the echoed prompt and its delimiter by byte count, writes every surviving
// slice to the client, and stops once the accumulated output (trimmed of
// spaces) ends with one of the caller's stop words.

module Forwarder {
  import opened Text

  /** Size of the reused read buffer `p`. */
  const CHUNK_SIZE: nat := 128

  /** One call of reader.Read(p): bytes with no error, or a terminal result.
      `EndOfStream` is io.EOF with no bytes; any other read that returns an
      error (io.EOF included) with `n` bytes is `ReadFailed` carrying them,
      and they are never looked at. */
  datatype ReadResult = Data(chunk: seq<byte>) | EndOfStream | ReadFailed(discarded: seq<byte>)

  /** How the loop ended: the reader stopped delivering, or a stop word matched. */
  datatype Exit = StreamEnded | StopMatched

  /** What the loop did: the writes in order, how it ended, and how many
      successful reads it processed (script[..processed] were all consumed). */
  datatype Outcome = Outcome(writes: seq<seq<byte>>, exit: Exit, processed: nat)

  /** The loop's local state: the skip counter and the accumulated output. */
  datatype StreamState = StreamState(toSkip: int, total: seq<byte>)

  /** Read number `i` of the script; a script that has run out reports end of stream. */
  function ReadAt(script: seq<ReadResult>, i: nat): ReadResult
  {
    if i < |script| then script[i] else EndOfStream
  }

  /** io.Reader never returns more bytes than the buffer holds. */
  predicate ChunksFit(script: seq<ReadResult>)
  {
    forall i :: 0 <= i < |script| && script[i].Data? ==> |script[i].chunk| <= CHUNK_SIZE
  }

  function Max0(n: int): nat
  {
    if n > 0 then n else 0
  }

  /** Concatenation of a sequence of writes. */
  function Flatten(ws: seq<seq<byte>>): seq<byte>
  {
    if ws == [] then [] else ws[0] + Flatten(ws[1..])
  }

  function ChunkOf(r: ReadResult): seq<byte>
  {
    if r.Data? then r.chunk else []
  }

  /** All bytes delivered by reads i .. j-1, in order. */
  function Received(script: seq<ReadResult>, i: nat, j: nat): seq<byte>
    requires i <= j <= |script|
    decreases j - i
  {
    if i == j then [] else ChunkOf(script[i]) + Received(script, i + 1, j)
  }

  /** `s` without its first `n` bytes (all of it if n <= 0, none if n >= |s|). */
  function Drop(s: seq<byte>, n: int): seq<byte>
  {
    if n <= 0 then s else if n >= |s| then [] else s[n..]
  }

  /** Index of the first read that is not a successful one, from `i` on. */
  function DataEnd(script: seq<ReadResult>, i: nat): (e: nat)
    requires i <= |script|
    ensures i <= e <= |script|
    ensures forall j :: i <= j < e ==> script[j].Data?
    ensures e == |script| || !script[e].Data?
    decreases |script| - i
  {
    if i == |script| || !script[i].Data? then i else DataEnd(script, i + 1)
  }

  /** The stop test of one iteration: some stop word is a suffix of the
      accumulated output with leading and trailing spaces removed. */
  predicate StopHit(total: seq<byte>, stops: seq<seq<byte>>)
  {
    exists j :: 0 <= j < |stops| && HasSuffix(Trim(total), stops[j])
  }

  /** The stop test as a predicate on the accumulated output. */
  function StopTest(stops: seq<seq<byte>>): seq<byte> -> bool
  {
    total => StopHit(total, stops)
  }

  /** Reference definition of the loop, from read `i` on, with skip counter
      `toSkip`, accumulated output `total` and stop test `matches` (the
      loop's properties that do not depend on the stop words are proved for
      any stop test). */
  ghost function RunFrom(toSkip: int, total: seq<byte>, matches: seq<byte> -> bool,
                         script: seq<ReadResult>, i: nat): (o: Outcome)
    requires i <= |script|
    ensures i <= o.processed <= |script|
    ensures forall j :: i <= j < o.processed ==> script[j].Data?
    ensures o.exit == StreamEnded ==> o.processed == |script| || !script[o.processed].Data?
    ensures o.exit == StopMatched ==> i < o.processed && o.writes != []
    decreases |script| - i
  {
    if i == |script| || !script[i].Data? then Outcome([], StreamEnded, i)
    else
      var nb := |script[i].chunk|;
      if toSkip < nb then
        var out := script[i].chunk[Max0(toSkip)..];
        if matches(total + out) then Outcome([out], StopMatched, i + 1)
        else
          var rest := RunFrom(toSkip - nb, total + out, matches, script, i + 1);
          Outcome([out] + rest.writes, rest.exit, rest.processed)
      else
        RunFrom(toSkip - nb, total, matches, script, i + 1)
  }

  /** The loop as `generate` starts it: skip the prompt's bytes plus one. */
  ghost function Run(prompt: seq<byte>, stops: seq<seq<byte>>, script: seq<ReadResult>): Outcome
  {
    RunFrom(|prompt| + 1, [], StopTest(stops), script, 0)
  }

  /** Prefixes `ws` to the writes of `o`. */
  function Then(ws: seq<seq<byte>>, o: Outcome): Outcome
  {
    Outcome(ws + o.writes, o.exit, o.processed)
  }

  /** The inner `for _, stop_word := range input.Stop` loop. */
  method CheckStops(total: seq<byte>, stops: seq<seq<byte>>) returns (hit: bool)
    ensures hit <==> StopHit(total, stops)
  {
    var k := 0;
    while k < |stops|
      invariant 0 <= k <= |stops|
      invariant forall j :: 0 <= j < k ==> !HasSuffix(Trim(total), stops[j])
    {
      if HasSuffix(Trim(total), stops[k]) {
        assert 0 <= k < |stops| && HasSuffix(Trim(total), stops[k]);
        return true;
      }
      k := k + 1;
    }
    assert !StopHit(total, stops) by {
      forall j | 0 <= j < |stops| ensures !HasSuffix(Trim(total), stops[j]) { }
    }
    return false;
  }

  /** reader.Read(p): the bytes read land at the front of the reused buffer. */
  method Fill(p: array<byte>, chunk: seq<byte>)
    requires |chunk| <= p.Length
    modifies p
    ensures forall k :: 0 <= k < |chunk| ==> p[k] == chunk[k]
  {
    var k := 0;
    while k < |chunk|
      invariant 0 <= k <= |chunk|
      invariant forall m :: 0 <= m < k ==> p[m] == chunk[m]
    {
      p[k] := chunk[k];
      k := k + 1;
    }
  }

  /** p[start:nb]: the buffer from `start` up to the number of bytes read. */
  method Window(p: array<byte>, start: nat, nb: nat, ghost chunk: seq<byte>) returns (out: seq<byte>)
    requires start <= nb == |chunk| <= p.Length
    requires forall k :: 0 <= k < nb ==> p[k] == chunk[k]
    ensures out == chunk[start..]
  {
    out := p[start..nb];
  }

  /** The body of the loop after a successful read of `chunk`: the bytes land
      in the buffer and, when the read reaches past the skip counter, the
      slice after it is written, appended to the output and checked against
      the stop words. Returns the writes and output so far and whether a stop
      word matched. */
  method Step(p: array<byte>, chunk: seq<byte>, toSkip: int, stops: seq<seq<byte>>,
              writes: seq<seq<byte>>, total: seq<byte>)
    returns (writes': seq<seq<byte>>, total': seq<byte>, hit: bool)
    requires |chunk| <= p.Length
    modifies p
    ensures toSkip < |chunk| ==>
              var out := chunk[Max0(toSkip)..];
              writes' == writes + [out] && total' == total + out && (hit <==> StopHit(total', stops))
    ensures |chunk| <= toSkip ==> writes' == writes && total' == total && !hit
  {
    writes', total', hit := writes, total, false;
    var nb := |chunk|;
    Fill(p, chunk);
    if toSkip < nb {
      var start := 0;
      if toSkip > 0 {
        start := toSkip;
      }
      var out := Window(p, start, nb, chunk);
      writes' := writes' + [out];
      total' := total' + out;
      hit := CheckStops(total', stops);
    }
  }

  /** The forwarding loop of `generate`. Returns what it wrote and how it
      ended, and the final skip counter and accumulated output. */
  method Forward(prompt: seq<byte>, stops: seq<seq<byte>>, script: seq<ReadResult>)
    returns (o: Outcome, s: StreamState)
    requires ChunksFit(script)
    ensures o == Run(prompt, stops, script)
    ensures s.total == Flatten(o.writes)
    ensures o.exit == StreamEnded ==> s.toSkip == |prompt| + 1 - |Received(script, 0, o.processed)|
    ensures o.exit == StopMatched ==> s.toSkip == |prompt| + 1 - |Received(script, 0, o.processed - 1)|
  {
    var toSkip := |prompt| + 1;
    var p := new byte[CHUNK_SIZE];
    var total: seq<byte> := [];
    var writes: seq<seq<byte>> := [];
    var i := 0;
    var exit := StreamEnded;
    while true
      invariant i <= |script|
      invariant toSkip == |prompt| + 1 - |Received(script, 0, i)|
      invariant total == Flatten(writes)
      invariant Run(prompt, stops, script) == Then(writes, RunFrom(toSkip, total, StopTest(stops), script, i))
      decreases |script| - i
    {
      var r := ReadAt(script, i);
      if !r.Data? {
        break;
      }
      ghost var writes0, total0, toSkip0, i0 := writes, total, toSkip, i;
      var hit;
      writes, total, hit := Step(p, r.chunk, toSkip, stops, writes, total);
      if hit {
        FinalStep(Run(prompt, stops, script), writes0, toSkip, total0, StopTest(stops), script, i, writes, total);
        exit := StopMatched;
        i := i + 1;
        break;
      }
      toSkip := toSkip - |r.chunk|;
      i := i + 1;
      Advance(Run(prompt, stops, script), writes0, toSkip0, total0, StopTest(stops), script, i0, writes, toSkip, total, i);
      SkipAdvance(|prompt| + 1, script, i0, toSkip0, toSkip);
    }
    o := Outcome(writes, exit, i);
    s := StreamState(toSkip, total);
  }

  // ---------------------------------------------------------------------
  /** One iteration of the loop that does not end it: the reference run
      continues from the next read with the updated state. */
  lemma Advance(full: Outcome, ws: seq<seq<byte>>, toSkip: int, total: seq<byte>, matches: seq<byte> -> bool,
                script: seq<ReadResult>, i: nat, ws': seq<seq<byte>>, toSkip': int, total': seq<byte>, i': nat)
    requires i < |script| && script[i].Data? && i' == i + 1 && toSkip' == toSkip - |script[i].chunk|
    requires full == Then(ws, RunFrom(toSkip, total, matches, script, i)) && total == Flatten(ws)
    requires |script[i].chunk| <= toSkip ==> ws' == ws && total' == total
    requires toSkip < |script[i].chunk| ==>
               var out := script[i].chunk[Max0(toSkip)..];
               ws' == ws + [out] && total' == total + out && !matches(total')
    ensures full == Then(ws', RunFrom(toSkip', total', matches, script, i'))
    ensures total' == Flatten(ws')
  {
    if toSkip < |script[i].chunk| {
      var out := script[i].chunk[Max0(toSkip)..];
      ForwardedRead(toSkip, total, matches, script, i, out);
      ThenAppend(ws, out, RunFrom(toSkip', total', matches, script, i'));
      FlattenAppend(ws, out);
    }
  }

  /** The iteration whose stop test matches: the reference run ends with
      this write. */
  lemma FinalStep(full: Outcome, ws: seq<seq<byte>>, toSkip: int, total: seq<byte>, matches: seq<byte> -> bool,
                  script: seq<ReadResult>, i: nat, ws': seq<seq<byte>>, total': seq<byte>)
    requires i < |script| && script[i].Data? && toSkip < |script[i].chunk|
    requires full == Then(ws, RunFrom(toSkip, total, matches, script, i)) && total == Flatten(ws)
    requires var out := script[i].chunk[Max0(toSkip)..];
             ws' == ws + [out] && total' == total + out && matches(total')
    ensures full == Outcome(ws', StopMatched, i + 1)
    ensures total' == Flatten(ws')
  {
    var out := script[i].chunk[Max0(toSkip)..];
    MatchingRead(toSkip, total, matches, script, i, out);
    FlattenAppend(ws, out);
  }

  // Helpers

  /** After read `i` the skip counter still measures the prompt against what was received. */
  lemma SkipAdvance(budget: int, script: seq<ReadResult>, i: nat, toSkip: int, toSkip': int)
    requires i < |script| && script[i].Data?
    requires toSkip == budget - |Received(script, 0, i)| && toSkip' == toSkip - |script[i].chunk|
    ensures toSkip' == budget - |Received(script, 0, i + 1)|
  {
    ReceivedExtend(script, 0, i);
  }

  /** A write in front of the rest of the run joins the writes before it. */
  lemma ThenAppend(ws: seq<seq<byte>>, out: seq<byte>, rest: Outcome)
    ensures Then(ws, Outcome([out] + rest.writes, rest.exit, rest.processed)) == Then(ws + [out], rest)
  {
    assert ws + ([out] + rest.writes) == (ws + [out]) + rest.writes;
  }

  /** The three kinds of iteration of the reference loop, one lemma each. */
  lemma SkippedRead(toSkip: int, total: seq<byte>, matches: seq<byte> -> bool, script: seq<ReadResult>, i: nat)
    requires i < |script| && script[i].Data? && |script[i].chunk| <= toSkip
    ensures RunFrom(toSkip, total, matches, script, i)
            == RunFrom(toSkip - |script[i].chunk|, total, matches, script, i + 1)
  {
  }

  lemma MatchingRead(toSkip: int, total: seq<byte>, matches: seq<byte> -> bool, script: seq<ReadResult>, i: nat,
                     out: seq<byte>)
    requires i < |script| && script[i].Data? && toSkip < |script[i].chunk|
    requires out == script[i].chunk[Max0(toSkip)..] && matches(total + out)
    ensures RunFrom(toSkip, total, matches, script, i) == Outcome([out], StopMatched, i + 1)
  {
  }

  lemma ForwardedRead(toSkip: int, total: seq<byte>, matches: seq<byte> -> bool, script: seq<ReadResult>, i: nat,
                      out: seq<byte>)
    requires i < |script| && script[i].Data? && toSkip < |script[i].chunk|
    requires out == script[i].chunk[Max0(toSkip)..] && !matches(total + out)
    ensures var rest := RunFrom(toSkip - |script[i].chunk|, total + out, matches, script, i + 1);
            RunFrom(toSkip, total, matches, script, i) == Outcome([out] + rest.writes, rest.exit, rest.processed)
  {
  }

  lemma FlattenAppend(ws: seq<seq<byte>>, w: seq<byte>)
    ensures Flatten(ws + [w]) == Flatten(ws) + w
  {
    if ws != [] {
      assert (ws + [w])[1..] == ws[1..] + [w];
      FlattenAppend(ws[1..], w);
    }
  }

  lemma FlattenCons(w: seq<byte>, ws: seq<seq<byte>>)
    ensures Flatten([w] + ws) == w + Flatten(ws)
  {
    assert ([w] + ws)[1..] == ws;
  }

  lemma ReceivedFront(script: seq<ReadResult>, i: nat, j: nat)
    requires i < j <= |script|
    ensures Received(script, i, j) == ChunkOf(script[i]) + Received(script, i + 1, j)
  {
  }

  lemma ReceivedFrontLength(script: seq<ReadResult>, i: nat, j: nat)
    requires i < j <= |script|
    ensures |Received(script, i, j)| == |ChunkOf(script[i])| + |Received(script, i + 1, j)|
  {
  }

  lemma {:induction false} ReceivedExtend(script: seq<ReadResult>, i: nat, j: nat)
    requires i <= j < |script|
    ensures Received(script, i, j + 1) == Received(script, i, j) + ChunkOf(script[j])
    decreases j - i
  {
    if i < j {
      ReceivedExtend(script, i + 1, j);
    }
  }

  /** Skipping across a chunk boundary: dropping n bytes from a + b drops
      n bytes from a and whatever is left of the count from b. */
  lemma DropConcat(a: seq<byte>, b: seq<byte>, n: int)
    ensures Drop(a + b, n) == Drop(a, n) + Drop(b, n - |a|)
  {
    if n <= 0 {
    } else if n >= |a| {
      if n < |a| + |b| {
        assert (a + b)[n..] == b[n - |a|..];
      }
    } else {
      assert (a + b)[n..] == a[n..] + b;
    }
  }
}
