// Properties of the forwarding loop, proved about its reference definition
// Forwarder.RunFrom (which Forwarder.Forward is shown to compute).

module ForwarderProperties {
  import opened Text
  import opened Forwarder

  /** Whatever the exit, the writes concatenate to exactly the bytes the
      consumed reads delivered, in read order, minus the first `toSkip`. */
  lemma {:induction false} OutputIsReceivedMinusSkip(toSkip: int, total: seq<byte>, matches: seq<byte> -> bool,
                                                     script: seq<ReadResult>, i: nat)
    requires i <= |script|
    ensures var o := RunFrom(toSkip, total, matches, script, i);
            Flatten(o.writes) == Drop(Received(script, i, o.processed), toSkip)
    decreases |script| - i
  {
    var o := RunFrom(toSkip, total, matches, script, i);
    if i == |script| || !script[i].Data? {
    } else {
      var chunk := script[i].chunk;
      var nb := |chunk|;
      if toSkip < nb {
        var out := chunk[Max0(toSkip)..];
        assert out == Drop(chunk, toSkip);
        if matches(total + out) {
          assert Received(script, i, i + 1) == chunk + [];
          assert Flatten([out]) == out + [];
        } else {
          var rest := RunFrom(toSkip - nb, total + out, matches, script, i + 1);
          OutputIsReceivedMinusSkip(toSkip - nb, total + out, matches, script, i + 1);
          FlattenCons(out, rest.writes);
          DropConcat(chunk, Received(script, i + 1, rest.processed), toSkip);
        }
      } else {
        OutputIsReceivedMinusSkip(toSkip - nb, total, matches, script, i + 1);
        DropConcat(chunk, Received(script, i + 1, o.processed), toSkip);
      }
    }
  }

  /** DataEnd is the only index that ends a run of successful reads at a
      terminal read or at the end of the script. */
  lemma {:induction false} DataEndUnique(script: seq<ReadResult>, i: nat, e: nat)
    requires i <= e <= |script|
    requires forall j :: i <= j < e ==> script[j].Data?
    requires e == |script| || !script[e].Data?
    ensures e == DataEnd(script, i)
    decreases e - i
  {
    if i < e {
      DataEndUnique(script, i + 1, e);
    }
  }

  /** A stream that ends without a match ends at the first read that failed
      or reported end of stream: every successful read is processed. */
  lemma StreamEndsAtFirstFailedRead(toSkip: int, total: seq<byte>, matches: seq<byte> -> bool,
                                    script: seq<ReadResult>, i: nat)
    requires i <= |script|
    ensures var o := RunFrom(toSkip, total, matches, script, i);
            o.exit == StreamEnded ==> o.processed == DataEnd(script, i)
  {
    var o := RunFrom(toSkip, total, matches, script, i);
    if o.exit == StreamEnded {
      DataEndUnique(script, i, o.processed);
    }
  }

  /** When the loop stops on a match, the accumulated output (everything
      written) satisfies the stop test. */
  lemma {:induction false} StopMatchesAccumulatedOutput(toSkip: int, total: seq<byte>, matches: seq<byte> -> bool,
                                                        script: seq<ReadResult>, i: nat)
    requires i <= |script|
    ensures var o := RunFrom(toSkip, total, matches, script, i);
            o.exit == StopMatched ==> matches(total + Flatten(o.writes))
    decreases |script| - i
  {
    if i < |script| && script[i].Data? {
      var chunk := script[i].chunk;
      var nb := |chunk|;
      if toSkip < nb {
        var out := chunk[Max0(toSkip)..];
        if matches(total + out) {
          FlattenSingle(out);
        } else {
          var rest := RunFrom(toSkip - nb, total + out, matches, script, i + 1);
          StopMatchesAccumulatedOutput(toSkip - nb, total + out, matches, script, i + 1);
          FlattenCons(out, rest.writes);
          AppendAssoc(total, out, Flatten(rest.writes));
        }
      } else {
        StopMatchesAccumulatedOutput(toSkip - nb, total, matches, script, i + 1);
      }
    }
  }

  /** The stop test fails after every write but the last one; if the stream
      ended, it failed after every write. So the loop stops at the first
      write after which the accumulated output matches. */
  lemma {:induction false} NoEarlierMatch(toSkip: int, total: seq<byte>, matches: seq<byte> -> bool,
                                          script: seq<ReadResult>, i: nat, m: nat)
    requires i <= |script|
    requires var o := RunFrom(toSkip, total, matches, script, i);
             1 <= m <= |o.writes| && (m < |o.writes| || o.exit == StreamEnded)
    ensures var o := RunFrom(toSkip, total, matches, script, i);
            !matches(total + Flatten(o.writes[..m]))
    decreases |script| - i
  {
    var chunk := script[i].chunk;
    var nb := |chunk|;
    if toSkip < nb {
      var out := chunk[Max0(toSkip)..];
      var rest := RunFrom(toSkip - nb, total + out, matches, script, i + 1);
      FlattenPrefix(out, rest.writes, m);
      if m > 1 {
        NoEarlierMatch(toSkip - nb, total + out, matches, script, i + 1, m - 1);
        AppendAssoc(total, out, Flatten(rest.writes[..m - 1]));
      } else {
        FlattenEmptyPrefix(out, rest.writes);
      }
    } else {
      NoEarlierMatch(toSkip - nb, total, matches, script, i + 1, m);
    }
  }

  lemma AppendAssoc(a: seq<byte>, b: seq<byte>, c: seq<byte>)
    ensures a + (b + c) == (a + b) + c
  {
  }

  lemma FlattenEmptyPrefix(w: seq<byte>, ws: seq<seq<byte>>)
    ensures w + Flatten(ws[..0]) == w
  {
    assert ws[..0] == [];
  }

  lemma FlattenSingle(w: seq<byte>)
    ensures Flatten([w]) == w
  {
    assert [w][1..] == [];
  }

  lemma FlattenPrefix(w: seq<byte>, ws: seq<seq<byte>>, m: nat)
    requires 1 <= m <= |ws| + 1
    ensures Flatten(([w] + ws)[..m]) == w + Flatten(ws[..m - 1])
  {
    assert ([w] + ws)[..m] == [w] + ws[..m - 1];
    FlattenCons(w, ws[..m - 1]);
  }

  /** The last write, after which the stop test matched, is the whole
      matching read `k` past the skip count `n` left when it arrived: bytes
      after the stop word are written too. */
  lemma {:induction false} MatchingReadEndsOutput(toSkip: int, total: seq<byte>, matches: seq<byte> -> bool,
                                                  script: seq<ReadResult>, i: nat, o: Outcome, k: nat, n: int)
    requires i <= |script| && o == RunFrom(toSkip, total, matches, script, i)
    requires o.exit == StopMatched && k == o.processed - 1 && n == toSkip - |Received(script, i, k)|
    ensures o.writes[|o.writes| - 1] == Drop(script[k].chunk, n)
    decreases |script| - i, 1
  {
    var chunk := script[i].chunk;
    if toSkip < |chunk| {
      var out := chunk[Max0(toSkip)..];
      if matches(total + out) {
        MatchingRead(toSkip, total, matches, script, i, out);
        assert Drop(chunk, toSkip) == out;
      } else {
        EndsOutputAfterForward(toSkip, total, matches, script, i, o, k, n);
      }
    } else {
      EndsOutputAfterSkip(toSkip, total, matches, script, i, o, k, n);
    }
  }

  /** The forwarding case of MatchingReadEndsOutput. */
  lemma {:induction false} EndsOutputAfterForward(toSkip: int, total: seq<byte>, matches: seq<byte> -> bool,
                                                  script: seq<ReadResult>, i: nat, o: Outcome, k: nat, n: int)
    requires i < |script| && script[i].Data? && o == RunFrom(toSkip, total, matches, script, i)
    requires toSkip < |script[i].chunk| && !matches(total + script[i].chunk[Max0(toSkip)..])
    requires o.exit == StopMatched && k == o.processed - 1 && n == toSkip - |Received(script, i, k)|
    ensures o.writes[|o.writes| - 1] == Drop(script[k].chunk, n)
    decreases |script| - i, 0
  {
    var nb := |script[i].chunk|;
    var out := script[i].chunk[Max0(toSkip)..];
    var rest := RunFrom(toSkip - nb, total + out, matches, script, i + 1);
    ForwardedRead(toSkip, total, matches, script, i, out);
    ReceivedFrontLength(script, i, k);
    MatchingReadEndsOutput(toSkip - nb, total + out, matches, script, i + 1, rest, k, n);
    assert o.writes[|o.writes| - 1] == rest.writes[|rest.writes| - 1];
  }

  /** The skipping case of MatchingReadEndsOutput. */
  lemma {:induction false} EndsOutputAfterSkip(toSkip: int, total: seq<byte>, matches: seq<byte> -> bool,
                                                  script: seq<ReadResult>, i: nat, o: Outcome, k: nat, n: int)
    requires i < |script| && script[i].Data? && o == RunFrom(toSkip, total, matches, script, i)
    requires |script[i].chunk| <= toSkip
    requires o.exit == StopMatched && k == o.processed - 1 && n == toSkip - |Received(script, i, k)|
    ensures o.writes[|o.writes| - 1] == Drop(script[k].chunk, n)
    decreases |script| - i, 0
  {
    SkippedRead(toSkip, total, matches, script, i);
    ReceivedFrontLength(script, i, k);
    MatchingReadEndsOutput(toSkip - |script[i].chunk|, total, matches, script, i + 1, o, k, n);
  }

  /** A stop never fires while the reads are still inside the skip region:
      by the matching read, more bytes than the skip count were received. */
  lemma {:induction false} NoStopInsideSkip(toSkip: int, total: seq<byte>, matches: seq<byte> -> bool,
                                            script: seq<ReadResult>, i: nat)
    requires i <= |script|
    ensures var o := RunFrom(toSkip, total, matches, script, i);
            o.exit == StopMatched ==> |Received(script, i, o.processed)| > toSkip
    decreases |script| - i
  {
    var o := RunFrom(toSkip, total, matches, script, i);
    if o.exit == StopMatched {
      var chunk := script[i].chunk;
      var nb := |chunk|;
      ReceivedFront(script, i, o.processed);
      if toSkip < nb {
        var out := chunk[Max0(toSkip)..];
        if !matches(total + out) {
          ForwardedRead(toSkip, total, matches, script, i, out);
          NoStopInsideSkip(toSkip - nb, total + out, matches, script, i + 1);
        }
      } else {
        SkippedRead(toSkip, total, matches, script, i);
        NoStopInsideSkip(toSkip - nb, total, matches, script, i + 1);
      }
    }
  }

  /** A stream that never gets past the skip region writes nothing. */
  lemma {:induction false} QuietWhileSkipping(toSkip: int, total: seq<byte>, matches: seq<byte> -> bool,
                                              script: seq<ReadResult>, i: nat)
    requires i <= |script|
    requires |Received(script, i, DataEnd(script, i))| <= toSkip
    ensures var o := RunFrom(toSkip, total, matches, script, i);
            o.writes == [] && o.exit == StreamEnded && o.processed == DataEnd(script, i)
    decreases |script| - i
  {
    if i < |script| && script[i].Data? {
      assert DataEnd(script, i) == DataEnd(script, i + 1);
      QuietWhileSkipping(toSkip - |script[i].chunk|, total, matches, script, i + 1);
    }
  }

  /** Reads after the loop's end are never looked at: any script that agrees
      on the consumed reads (and, if the stream ended, ends at the same
      place, with any kind of terminal result) gives the same outcome. */
  lemma {:induction false} UnreadReadsIgnored(toSkip: int, total: seq<byte>, matches: seq<byte> -> bool,
                                              script: seq<ReadResult>, other: seq<ReadResult>, i: nat)
    requires i <= |script| && i <= |other|
    requires var o := RunFrom(toSkip, total, matches, script, i);
             o.processed <= |other| &&
             (forall j :: i <= j < o.processed ==> other[j] == script[j]) &&
             (o.exit == StreamEnded ==> o.processed == |other| || !other[o.processed].Data?)
    ensures RunFrom(toSkip, total, matches, other, i) == RunFrom(toSkip, total, matches, script, i)
    decreases |script| - i, 1
  {
    if i < |script| && script[i].Data? {
      assert other[i] == script[i];
      var chunk := script[i].chunk;
      if toSkip < |chunk| {
        var out := chunk[Max0(toSkip)..];
        if matches(total + out) {
          MatchingRead(toSkip, total, matches, script, i, out);
          MatchingRead(toSkip, total, matches, other, i, out);
        } else {
          UnreadAfterForward(toSkip, total, matches, script, other, i);
        }
      } else {
        UnreadAfterSkip(toSkip, total, matches, script, other, i);
      }
    }
  }

  /** The forwarding case of UnreadReadsIgnored. */
  lemma {:induction false} UnreadAfterForward(toSkip: int, total: seq<byte>, matches: seq<byte> -> bool,
                                              script: seq<ReadResult>, other: seq<ReadResult>, i: nat)
    requires i < |script| && i < |other| && script[i].Data? && other[i] == script[i]
    requires toSkip < |script[i].chunk| && !matches(total + script[i].chunk[Max0(toSkip)..])
    requires var o := RunFrom(toSkip, total, matches, script, i);
             o.processed <= |other| &&
             (forall j :: i <= j < o.processed ==> other[j] == script[j]) &&
             (o.exit == StreamEnded ==> o.processed == |other| || !other[o.processed].Data?)
    ensures RunFrom(toSkip, total, matches, other, i) == RunFrom(toSkip, total, matches, script, i)
    decreases |script| - i, 0
  {
    var out := script[i].chunk[Max0(toSkip)..];
    ForwardedRead(toSkip, total, matches, script, i, out);
    UnreadReadsIgnored(toSkip - |script[i].chunk|, total + out, matches, script, other, i + 1);
    ForwardedRead(toSkip, total, matches, other, i, out);
  }

  /** The skipping case of UnreadReadsIgnored. */
  lemma {:induction false} UnreadAfterSkip(toSkip: int, total: seq<byte>, matches: seq<byte> -> bool,
                                              script: seq<ReadResult>, other: seq<ReadResult>, i: nat)
    requires i < |script| && i < |other| && script[i].Data? && other[i] == script[i]
    requires |script[i].chunk| <= toSkip
    requires var o := RunFrom(toSkip, total, matches, script, i);
             o.processed <= |other| &&
             (forall j :: i <= j < o.processed ==> other[j] == script[j]) &&
             (o.exit == StreamEnded ==> o.processed == |other| || !other[o.processed].Data?)
    ensures RunFrom(toSkip, total, matches, other, i) == RunFrom(toSkip, total, matches, script, i)
    decreases |script| - i, 0
  {
    SkippedRead(toSkip, total, matches, script, i);
    UnreadReadsIgnored(toSkip - |script[i].chunk|, total, matches, script, other, i + 1);
    SkippedRead(toSkip, total, matches, other, i);
  }

  /** A stop test that accepts everything ends the loop at the first write. */
  lemma {:induction false} AlwaysMatchingStopsAtFirstWrite(toSkip: int, total: seq<byte>, matches: seq<byte> -> bool,
                                                           script: seq<ReadResult>, i: nat)
    requires i <= |script|
    requires forall t :: matches(t)
    ensures var o := RunFrom(toSkip, total, matches, script, i);
            (o.exit == StopMatched <==> o.writes != []) && |o.writes| <= 1
    decreases |script| - i
  {
    if i < |script| && script[i].Data? && |script[i].chunk| <= toSkip {
      AlwaysMatchingStopsAtFirstWrite(toSkip - |script[i].chunk|, total, matches, script, i + 1);
    }
  }

  /** A stop test that accepts nothing lets the loop run until the first
      read that fails or reports end of stream. */
  lemma {:induction false} NeverMatchingRunsToEnd(toSkip: int, total: seq<byte>, matches: seq<byte> -> bool,
                                                  script: seq<ReadResult>, i: nat)
    requires i <= |script|
    requires forall t :: !matches(t)
    ensures var o := RunFrom(toSkip, total, matches, script, i);
            o.exit == StreamEnded && o.processed == DataEnd(script, i)
    decreases |script| - i
  {
    if i < |script| && script[i].Data? {
      var chunk := script[i].chunk;
      var nb := |chunk|;
      if toSkip < nb {
        NeverMatchingRunsToEnd(toSkip - nb, total + chunk[Max0(toSkip)..], matches, script, i + 1);
      } else {
        NeverMatchingRunsToEnd(toSkip - nb, total, matches, script, i + 1);
      }
      assert DataEnd(script, i) == DataEnd(script, i + 1);
    }
  }

  // ---------------------------------------------------------------------
  // The loop as `generate` runs it

  /** A stream that ends without a match forwards every byte of the
      successful reads except the echoed prompt and its delimiter, in order. */
  lemma CompleteStreamForwardsAllButEcho(prompt: seq<byte>, stops: seq<seq<byte>>, script: seq<ReadResult>)
    ensures var o := Run(prompt, stops, script);
            o.exit == StreamEnded ==>
              Flatten(o.writes) == Drop(Received(script, 0, DataEnd(script, 0)), |prompt| + 1)
  {
    StreamEndsAtFirstFailedRead(|prompt| + 1, [], StopTest(stops), script, 0);
    OutputIsReceivedMinusSkip(|prompt| + 1, [], StopTest(stops), script, 0);
  }

  /** The first `len(prompt) + 1` bytes received are never written, however
      the reads split them. */
  lemma EchoNeverForwarded(prompt: seq<byte>, stops: seq<seq<byte>>, script: seq<ReadResult>)
    ensures var o := Run(prompt, stops, script);
            Flatten(o.writes) == Drop(Received(script, 0, o.processed), |prompt| + 1)
  {
    OutputIsReceivedMinusSkip(|prompt| + 1, [], StopTest(stops), script, 0);
  }

  /** An empty stop word matches as soon as any read produces output, so
      the response is then at most one write long. */
  lemma EmptyStopFiresOnFirstWrite(prompt: seq<byte>, stops: seq<seq<byte>>, script: seq<ReadResult>)
    requires [] in stops
    ensures var o := Run(prompt, stops, script);
            (o.exit == StopMatched <==> o.writes != []) && |o.writes| <= 1
  {
    var j :| 0 <= j < |stops| && stops[j] == [];
    forall t ensures StopTest(stops)(t) {
      assert HasSuffix(Trim(t), stops[j]);
    }
    AlwaysMatchingStopsAtFirstWrite(|prompt| + 1, [], StopTest(stops), script, 0);
  }

  /** A stop word ending in a space; the stop test trims trailing spaces
      from the output, so such a word can never match. */
  predicate EndsWithSpace(w: seq<byte>)
  {
    w != [] && w[|w| - 1] == SPACE
  }

  /** With no stop words, or only ones ending in a space, the whole generated
      text after the echo reaches the client and the stream ends at the
      first read that fails or reports end of stream. */
  lemma UnmatchableStopsForwardEverything(prompt: seq<byte>, stops: seq<seq<byte>>, script: seq<ReadResult>)
    requires forall j :: 0 <= j < |stops| ==> EndsWithSpace(stops[j])
    ensures var o := Run(prompt, stops, script);
            o.exit == StreamEnded && o.processed == DataEnd(script, 0) &&
            Flatten(o.writes) == Drop(Received(script, 0, DataEnd(script, 0)), |prompt| + 1)
  {
    forall t ensures !StopTest(stops)(t) {
      forall j | 0 <= j < |stops| ensures !HasSuffix(Trim(t), stops[j]) {
        TrimmedNeverEndsWithSpace(t, stops[j]);
      }
    }
    NeverMatchingRunsToEnd(|prompt| + 1, [], StopTest(stops), script, 0);
    CompleteStreamForwardsAllButEcho(prompt, stops, script);
  }

  /** Only the consumed reads decide the outcome: after a match any reads may
      follow; after the end of the stream any terminal result may follow. */
  lemma ConsumedPrefixDecides(prompt: seq<byte>, stops: seq<seq<byte>>, script: seq<ReadResult>,
                              tail: seq<ReadResult>)
    requires var o := Run(prompt, stops, script);
             o.exit == StopMatched || tail == [] || !tail[0].Data?
    ensures var o := Run(prompt, stops, script);
            Run(prompt, stops, script[..o.processed] + tail) == o
  {
    var o := Run(prompt, stops, script);
    var other := script[..o.processed] + tail;
    assert forall j :: 0 <= j < o.processed ==> other[j] == script[j];
    assert tail != [] ==> other[o.processed] == tail[0];
    UnreadReadsIgnored(|prompt| + 1, [], StopTest(stops), script, other, 0);
  }

  /** The stop test as `generate` applies it: the loop ends right after the
      first write that leaves the trimmed output ending in a stop word. */
  lemma StopEndsLoopAtFirstMatch(prompt: seq<byte>, stops: seq<seq<byte>>, script: seq<ReadResult>)
    ensures var o := Run(prompt, stops, script);
            o.exit == StopMatched ==> StopHit(Flatten(o.writes), stops)
    ensures var o := Run(prompt, stops, script);
            forall m :: 1 <= m <= |o.writes| && (m < |o.writes| || o.exit == StreamEnded) ==>
              !StopHit(Flatten(o.writes[..m]), stops)
  {
    var o := Run(prompt, stops, script);
    StopMatchesAccumulatedOutput(|prompt| + 1, [], StopTest(stops), script, 0);
    assert [] + Flatten(o.writes) == Flatten(o.writes);
    forall m | 1 <= m <= |o.writes| && (m < |o.writes| || o.exit == StreamEnded)
      ensures !StopHit(Flatten(o.writes[..m]), stops)
    {
      NoEarlierMatch(|prompt| + 1, [], StopTest(stops), script, 0, m);
      assert [] + Flatten(o.writes[..m]) == Flatten(o.writes[..m]);
    }
  }

  /** A stop match writes the matching read in full from the point where
      the echo ends (or from its start, once the echo is behind): nothing
      after the stop word is held back. */
  lemma MatchingReadWrittenInFull(prompt: seq<byte>, stops: seq<seq<byte>>, script: seq<ReadResult>)
    ensures var o := Run(prompt, stops, script);
            o.exit == StopMatched ==>
              o.writes[|o.writes| - 1]
              == Drop(script[o.processed - 1].chunk, |prompt| + 1 - |Received(script, 0, o.processed - 1)|)
  {
    var o := Run(prompt, stops, script);
    if o.exit == StopMatched {
      MatchingReadEndsOutput(|prompt| + 1, [], StopTest(stops), script, 0, o, o.processed - 1,
                             |prompt| + 1 - |Received(script, 0, o.processed - 1)|);
    }
  }

  // ---------------------------------------------------------------------
  // Worked cases (bytes are ASCII: "hi" is [104, 105], "\n" is 10)

  /** Prompt "hi" gives a skip of 3; reads "hi\nw" and "orld" write "w" and
      then "orld", and the stream ends at the end-of-stream read. */
  lemma EchoSplitAcrossReads()
    ensures Run([104, 105], [], [Data([104, 105, 10, 119]), Data([111, 114, 108, 100]), EndOfStream])
            == Outcome([[119], [111, 114, 108, 100]], StreamEnded, 2)
  {
    var script := [Data([104, 105, 10, 119]), Data([111, 114, 108, 100]), EndOfStream];
    var none := StopTest([]);
    assert RunFrom(-5, [119, 111, 114, 108, 100], none, script, 2) == Outcome([], StreamEnded, 2);
    assert RunFrom(-1, [119], none, script, 1) == Outcome([[111, 114, 108, 100]], StreamEnded, 2);
  }

  /** The stop word "world" straddles two reads ("wo" | "rld "): it matches
      after the second, whose trailing space is written too, and the third
      read is never looked at. */
  lemma StopWordAcrossReads(prompt: seq<byte>, stops: seq<seq<byte>>, script: seq<ReadResult>,
                            first: seq<byte>, second: seq<byte>)
    requires prompt == [104, 105] && stops == [[119, 111, 114, 108, 100]]
    requires script == [Data([104, 105, 10, 119, 111]), Data([114, 108, 100, 32]), Data([33])]
    requires first == [119, 111] && second == [114, 108, 100, 32]
    ensures Run(prompt, stops, script) == Outcome([first, second], StopMatched, 2)
  {
    var test := StopTest(stops);
    FirstReadForwarded(stops, script, first);
    SecondReadMatches(stops, script, first, second);
    assert Run(prompt, stops, script) == RunFrom(3, [], test, script, 0);
    assert [first] + [second] == [first, second];
  }

  lemma FirstReadForwarded(stops: seq<seq<byte>>, script: seq<ReadResult>, first: seq<byte>)
    requires stops == [[119, 111, 114, 108, 100]]
    requires script == [Data([104, 105, 10, 119, 111]), Data([114, 108, 100, 32]), Data([33])]
    requires first == [119, 111]
    ensures var rest := RunFrom(-2, first, StopTest(stops), script, 1);
            RunFrom(3, [], StopTest(stops), script, 0) == Outcome([first] + rest.writes, rest.exit, rest.processed)
  {
    assert script[0].chunk[Max0(3)..] == first;
    PartialWordDoesNotMatch(stops, [] + first);
    ForwardedRead(3, [], StopTest(stops), script, 0, first);
  }

  lemma SecondReadMatches(stops: seq<seq<byte>>, script: seq<ReadResult>, first: seq<byte>, second: seq<byte>)
    requires stops == [[119, 111, 114, 108, 100]]
    requires script == [Data([104, 105, 10, 119, 111]), Data([114, 108, 100, 32]), Data([33])]
    requires first == [119, 111] && second == [114, 108, 100, 32]
    ensures RunFrom(-2, first, StopTest(stops), script, 1) == Outcome([second], StopMatched, 2)
  {
    assert script[1].chunk[Max0(-2)..] == second;
    WordWithTrailingSpaceMatches(stops, first + second);
    MatchingRead(-2, first, StopTest(stops), script, 1, second);
  }

  lemma PartialWordDoesNotMatch(stops: seq<seq<byte>>, text: seq<byte>)
    requires stops == [[119, 111, 114, 108, 100]] && text == [119, 111]
    ensures !StopHit(text, stops)
  {
    assert Trim(text) == text;
  }

  lemma WordWithTrailingSpaceMatches(stops: seq<seq<byte>>, text: seq<byte>)
    requires stops == [[119, 111, 114, 108, 100]] && text == [119, 111, 114, 108, 100, 32]
    ensures StopHit(text, stops)
  {
    assert TrimRight(text) == stops[0] by {
      assert text[..|text| - 1] == stops[0];
    }
    assert Trim(text) == stops[0];
    assert HasSuffix(Trim(text), stops[0]);
  }

  /** A stop word followed by a non-space byte in the same read is not a
      suffix of the trimmed output, so it does not match: "world!" does not
      stop on "world". */
  lemma StopWordInsideReadMissed()
    ensures Run([104, 105], [[119, 111, 114, 108, 100]],
                [Data([104, 105, 10, 119, 111, 114, 108, 100, 33]), EndOfStream])
            == Outcome([[119, 111, 114, 108, 100, 33]], StreamEnded, 1)
  {
    var stops: seq<seq<byte>> := [[119, 111, 114, 108, 100]];
    var script := [Data([104, 105, 10, 119, 111, 114, 108, 100, 33]), EndOfStream];
    var out: seq<byte> := [119, 111, 114, 108, 100, 33];
    assert script[0].chunk[3..] == out;
    WordFollowedByBangDoesNotMatch();
    ForwardedRead(3, [], StopTest(stops), script, 0, out);
  }

  /** Spaces after a stop word in the same read are trimmed before the
      test, so "world " in one read does stop on "world". */
  lemma StopWordThenSpaceInOneReadMatches()
    ensures Run([104, 105], [[119, 111, 114, 108, 100]],
                [Data([104, 105, 10, 119, 111, 114, 108, 100, 32]), EndOfStream])
            == Outcome([[119, 111, 114, 108, 100, 32]], StopMatched, 1)
  {
    var stops: seq<seq<byte>> := [[119, 111, 114, 108, 100]];
    var script := [Data([104, 105, 10, 119, 111, 114, 108, 100, 32]), EndOfStream];
    var out: seq<byte> := [119, 111, 114, 108, 100, 32];
    assert script[0].chunk[3..] == out;
    assert [] + out == out;
    WordWithTrailingSpaceMatches(stops, [] + out);
    MatchingRead(3, [], StopTest(stops), script, 0, out);
  }

  /** The matching read is written only past the echo: with prompt "hi"
      and stop word "w", the read "hi\nw" writes "w" and stops. */
  lemma MatchInReadHoldingEchoEnd()
    ensures Run([104, 105], [[119]], [Data([104, 105, 10, 119]), EndOfStream])
            == Outcome([[119]], StopMatched, 1)
  {
    var stops: seq<seq<byte>> := [[119]];
    var script := [Data([104, 105, 10, 119]), EndOfStream];
    var out: seq<byte> := [119];
    assert script[0].chunk[3..] == out;
    assert [] + out == out;
    assert Trim(out) == out;
    assert HasSuffix(Trim([] + out), stops[0]);
    MatchingRead(3, [], StopTest(stops), script, 0, out);
  }

  lemma WordFollowedByBangDoesNotMatch()
    ensures !StopHit([] + [119, 111, 114, 108, 100, 33], [[119, 111, 114, 108, 100]])
  {
    var out: seq<byte> := [119, 111, 114, 108, 100, 33];
    assert [] + [119, 111, 114, 108, 100, 33] == out;
    assert Trim(out) == out;
  }
}
