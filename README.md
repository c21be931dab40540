# llama-microservice relay, modelled in Dafny

The service has one HTTP handler, `generate`. It takes a JSON request
(prompt, optional model name, optional temperature, stop words) and settles
the model and temperature. It launches an external inference binary and
relays the binary's standard output to the client. Before relaying, it drops
the echoed prompt and its delimiter by byte count. It ends the relay as soon
as the accumulated output, with spaces trimmed from both ends, ends with a
stop word.

This project models that handler in four modules:

- `Text` covers Go's byte-level `strings.HasSuffix` and `strings.Trim(s, " ")`.
  It proves that trimming removes only spaces, keeps a contiguous part of the
  text, and never leaves a space at either end.
- `Forwarder` is the chunked, stop-aware loop that ends the handler.
  - `Forward` is an imperative method. It uses a skip counter, a reused
    128-byte `array<byte>` buffer, the accumulated output and a log of writes,
    and ends with either a break on a match or the end of the stream.
  - The reader is a sequence of read results: bytes, end of stream, or a
    failed read.
  - `Forward` is proved equal to the recursive reference definition
    `RunFrom`/`Run`. Its invariants tie the skip counter to the bytes
    received so far, and `total` to the concatenation of the writes.
- `ForwarderProperties` proves what the loop does, using the reference
  definition. The proofs that do not depend on the stop words hold for any
  stop test.
  - Skip accounting across chunk boundaries, and output order.
  - No match can happen inside the skip region.
  - The loop stops at the first matching write.
  - The matching read is written in full past the echo, including any bytes
    after the stop word.
  - Reads after the end of the loop are never looked at.
  - Worked byte-level cases.
- `Normalizer` covers the defaulting and lookup at the start of `generate`.
  - The three-entry model table.
  - The "llama" default model; the default temperature, versus a given one
    kept as a 64-bit pattern.
  - The 400 and 404 responses. Neither one leaves the handler.
- `Relay` is the whole handler, `Generate`. It normalises the request, builds
  the command line, and either answers 500 when the launch fails or forwards
  the output. It then kills the process: the deferred `Kill` runs exactly
  when the launch succeeded.

Behaviours of the code that a reader might not expect, all kept in the model:

- The stop test trims spaces from both ends of the accumulated output before
  the suffix test (main.go:113). So a stop word that ends in a space never
  matches (`TrimmedNeverEndsWithSpace`), and an empty stop word matches on the
  first write (`EmptyStopFiresOnFirstWrite`).
- The read that completes a match is written in full past the echo,
  including any bytes after the stop word. `MatchingReadEndsOutput`,
  `StopWordAcrossReads` and `MatchInReadHoldingEchoEnd` show this.
- A stop word followed by a non-space byte later in the same read is not a
  suffix of the trimmed output, so it does not match there
  (`StopWordInsideReadMissed`). Trailing spaces do not prevent a match
  (`StopWordThenSpaceInOneReadMatches`).
- The 400 and 404 branches send their error and carry on, so the process is
  still launched. An unknown model runs with an empty model path.
- The skip is a byte count, not a search for the echo. For prompt "hi" and
  reads "hi\nw", "orld", the skip is 3, so the first write is "w"
  (`EchoSplitAcrossReads`).
- If `StdoutPipe` succeeds and `Start` fails, the handler returns before it
  registers the deferred `Kill`. So there is no kill on that path.

## Model

| member | source | states |
|---|---|---|
| Text.HasSuffix | main.go:113 | `strings.HasSuffix`: the suffix is no longer than the text and equals its tail |
| Text.TrimRight | main.go:113 | the right half of `strings.Trim(s, " ")`: the result is no longer than the input and does not end with a space (what it keeps and removes is in the rows below) |
| Text.TrimLeft | main.go:113 | the left half of `strings.Trim(s, " ")`: the result is no longer than the input and does not start with a space |
| Text.Trim | main.go:113 | `strings.Trim(total, " ")`: the result is no longer than the input and neither starts nor ends with a space |
| Text.TrimRightIsPrefix | main.go:113 | trimming on the right keeps a prefix of the text |
| Text.TrimLeftIsSuffix | main.go:113 | trimming on the left keeps a suffix of the text |
| Text.TrimRightRemovesSpaces | main.go:113 | every byte removed on the right is a space |
| Text.TrimLeftRemovesSpaces | main.go:113 | every byte removed on the left is a space |
| Text.TrimEmptyIffAllSpaces | main.go:113 | the trimmed output is empty exactly when the output is all spaces (both directions) |
| Text.TrimmedNeverEndsWithSpace | main.go:113 | a stop word ending in a space is never a suffix of the trimmed output |
| Text.HasSuffixLast | main.go:113 | a non-empty suffix ends with the same byte as the text it is a suffix of |
| Forwarder.DataEnd | main.go:95-98 | the index of the first read that ends the loop: every read before it succeeded, and it is terminal or past the end |
| Forwarder.StopHit | main.go:112-116 | the stop test of one iteration: some stop word is a suffix of the output with spaces trimmed from both ends (a definition; `CheckStops` and `StopEndsLoopAtFirstMatch` state its use) |
| Forwarder.Run | main.go:89-91 | the loop from its start state: a skip of `len(prompt)+1`, empty output, the real stop test (a definition; the properties are the `ForwarderProperties` rows) |
| Forwarder.RunFrom | main.go:93-119 | reference loop: it processes only successful reads; it stops on a stream end only at a terminal read or the end; a stop match comes after at least one write |
| Forwarder.CheckStops | main.go:112-116 | the inner loop over the stop words reports a hit exactly when some stop word is a suffix of the trimmed output |
| Forwarder.Fill | main.go:95 | `reader.Read(p)` puts the chunk's bytes at the front of the buffer |
| Forwarder.Window | main.go:105 | `p[start:nb]` is the chunk from `start` on |
| Forwarder.Step | main.go:99-116 | a chunk inside the skip region writes nothing and does not test; otherwise it writes exactly the bytes after `max(to_skip,0)`, appends them to `total`, and reports a hit exactly when a stop word matches the new `total` |
| Forwarder.Forward | main.go:89-119 | the loop computes the reference run; `total` is the concatenation of the writes; the final skip counter is `len(prompt)+1` minus the bytes of the reads that reached the decrement |
| Forwarder.Advance | main.go:99-118 | an iteration that does not break hands the run on to the next read with the updated state, and `total` stays the concatenation of the writes |
| Forwarder.FinalStep | main.go:112-116 | the iteration that matches ends the run with its own write as the last one |
| Forwarder.SkipAdvance | main.go:118 | after each read, the skip counter is the initial skip minus every byte received, including reads that wrote nothing |
| Forwarder.SkippedRead | main.go:99 | a read that lies entirely in the skip region writes nothing and the loop goes on |
| Forwarder.MatchingRead | main.go:113-114 | a write after which the stop test holds is the last one |
| Forwarder.ForwardedRead | main.go:99-118 | a write after which the stop test fails is followed by the rest of the run from the next read |
| Forwarder.DropConcat | main.go:99-103 | skipping across a chunk boundary: dropping n bytes from two chunks drops n from the first and the remainder from the second |
| Forwarder.ReceivedFrontLength | main.go:95 | the bytes received from read `i` on count read `i`'s chunk plus those received from read `i + 1` on |
| Forwarder.ReceivedExtend | main.go:95 | the bytes received grow by each read's chunk, in order |
| Forwarder.FlattenAppend | main.go:110 | appending a write appends its bytes to the accumulated output |
| ForwarderProperties.OutputIsReceivedMinusSkip | main.go:89-118 | on either exit, the writes concatenate to the bytes of the consumed reads, in order, minus the first `to_skip` |
| ForwarderProperties.DataEndUnique | main.go:95-98 | only one index ends a run of successful reads at a terminal read |
| ForwarderProperties.StreamEndsAtFirstFailedRead | main.go:95-98 | a stream that ends without a match stops at the first read that reports EOF or an error |
| ForwarderProperties.StopMatchesAccumulatedOutput | main.go:110-114 | when the loop stops on a match, the stop test holds for everything written |
| ForwarderProperties.NoEarlierMatch | main.go:110-116 | the stop test fails after every write except the last; after an end of stream, it fails after every write |
| ForwarderProperties.MatchingReadEndsOutput | main.go:99-114 | after a match, the last write is exactly the matching read with the skip count left at that read dropped: the whole read, apart from any echo bytes still in it, is written, including bytes after the stop word |
| ForwarderProperties.EndsOutputAfterForward | main.go:99-118 | the forwarding case of the previous row |
| ForwarderProperties.EndsOutputAfterSkip | main.go:99-118 | the skipping case of the previous row |
| ForwarderProperties.MatchingReadWrittenInFull | main.go:89-114 | for the loop as started with `len(prompt)+1`: after a match, the last write is the matching read minus whatever of the echo it still held |
| ForwarderProperties.NoStopInsideSkip | main.go:99-112 | a match happens only after more bytes than the skip count were received |
| ForwarderProperties.QuietWhileSkipping | main.go:99 | a stream that never gets past the skip region writes nothing and runs to its end |
| ForwarderProperties.UnreadReadsIgnored | main.go:95-98 | two scripts that agree on the consumed reads, and end at the same place when the stream ended, give the same outcome |
| ForwarderProperties.UnreadAfterForward | main.go:99-118 | the forwarding case of the previous row |
| ForwarderProperties.UnreadAfterSkip | main.go:99-118 | the skipping case of the previous row |
| ForwarderProperties.AlwaysMatchingStopsAtFirstWrite | main.go:110-116 | a stop test that always holds ends the loop on a match exactly when something is written, after at most one write |
| ForwarderProperties.NeverMatchingRunsToEnd | main.go:93-98 | a stop test that never holds lets the loop run to the first terminal read |
| ForwarderProperties.CompleteStreamForwardsAllButEcho | main.go:89-118 | a stream that ends without a match forwards every byte of the successful reads except the first `len(prompt)+1`, in order |
| ForwarderProperties.EchoNeverForwarded | main.go:89 | the first `len(prompt)+1` bytes are never written, however the reads split them |
| ForwarderProperties.EmptyStopFiresOnFirstWrite | main.go:113 | an empty stop word stops the loop on the first write |
| ForwarderProperties.UnmatchableStopsForwardEverything | main.go:112-116 | with no stop words, or only ones ending in a space, the loop forwards everything after the echo and runs to the end of the stream |
| ForwarderProperties.ConsumedPrefixDecides | main.go:93-119 | after a match any reads may follow, and after the end of the stream any terminal result: the outcome does not change |
| ForwarderProperties.StopEndsLoopAtFirstMatch | main.go:110-116 | with the real stop test, the run ends right after the first write that leaves the trimmed output ending in a stop word |
| ForwarderProperties.EchoSplitAcrossReads | main.go:89-118 | prompt "hi" and reads "hi\nw", "orld" write "w" then "orld" |
| ForwarderProperties.StopWordAcrossReads | main.go:105-116 | "world" split over two reads matches after the second, whose trailing space is written, and the third read is not looked at |
| ForwarderProperties.FirstReadForwarded | main.go:99-110 | first step of the previous row: "wo" is written and does not match |
| ForwarderProperties.SecondReadMatches | main.go:110-114 | second step: "rld " completes the match |
| ForwarderProperties.PartialWordDoesNotMatch | main.go:113 | "wo" does not end with "world" |
| ForwarderProperties.WordWithTrailingSpaceMatches | main.go:113 | "world " trimmed ends with "world" |
| ForwarderProperties.StopWordInsideReadMissed | main.go:105-116 | "world!" in one read never stops on "world"; it is written in full |
| ForwarderProperties.StopWordThenSpaceInOneReadMatches | main.go:105-114 | "world " in one read stops on "world": the trailing space is trimmed before the test, and the write keeps it |
| ForwarderProperties.MatchInReadHoldingEchoEnd | main.go:99-114 | prompt "hi", stop word "w": the read "hi\nw" writes only "w", past the echo, and stops |
| ForwarderProperties.WordFollowedByBangDoesNotMatch | main.go:113 | "world!" does not end with "world" |
| Normalizer.HttpError.Status | main.go:48-84 | the statuses are 400, 404 and 500; only the launch failure is a 5xx |
| Normalizer.ModelsTable | main.go:23-33 | the table has exactly the keys "llama", "llama2" and "codellama", each with its model path and an empty binary |
| Normalizer.NormalizedFrom | main.go:51-65 | the defaulting rules as a relation: the model name, the entry or the zero entry, found exactly when the name is in the table, the temperature, and the 400/404 errors in order (a definition; `Normalize` is proved to meet it) |
| Normalizer.Normalize | main.go:46-65 | the settled request: the model defaults to "llama", the temperature to the default, and present values are used unchanged; the lookup succeeds exactly for names in the table and otherwise gives the zero entry; errors are 400 if decoding failed, then 404 if the lookup failed |
| Normalizer.LookupWithConfiguredTable | main.go:51-60 | with the configured table, the lookup succeeds exactly for the three keys, and a request without a model gets the "llama" entry with no 404 |
| Normalizer.UnknownModelFallsThrough | main.go:57-60 | an unknown model answers 404 and carries on with an empty model path, after a 400 when decoding also failed |
| Relay.ErrorResponses | main.go:48-84 | one `http.Error` per settled error, in order |
| Relay.BodyWrites | main.go:105 | one body write per forwarded slice, in order |
| Relay.Generate | main.go:43-119 | the handler: it settles the request, builds the command from LLAMA_BIN, the model path, the temperature and the prompt; it sends the errors, then either a 500 or the reference run's writes; it kills the process exactly when the launch succeeded |

## Left out

- HTTP transport is left out: the server in `main`, the writer's `Write` and `Flush`, and client disconnects. Each write is an entry in a log of responses.
- JSON decoding is left out. `Generate` takes a flag saying whether the decoder failed, and the body it left.
- Launching the process is left out: `exec.CommandContext`, `StdoutPipe`, `Start` and `Kill`.
  - Whether the launch succeeded is a parameter.
  - The command is returned as a value.
  - The deferred kill is a returned flag.
- Environment variables are parameters: `LLAMA_BIN`, and the three model paths that `ModelsTable` takes.
- The temperature's `%.6f` formatting and floating point are left out. A given temperature is only its bit pattern; the default 0.8 is a tag.
- The concurrency between the process and the loop, and backpressure, are left out.
- The reader is a finite script of read results. Reads past the end of the script count as end of stream.
- A read that returns an error, `io.EOF` included, ends the loop and its bytes are dropped (main.go:96). A read of `n > 0` bytes together with an error or `io.EOF` is written as `ReadFailed` with those bytes, which are never looked at. `EndOfStream` stands for a read that returns `io.EOF` and no bytes.
- Model names, table paths and `LLAMA_BIN` are Dafny strings, not bytes. They are only passed on, never inspected.
- Forwarder.Forward: the skip counter is an unbounded integer. In Go `to_skip` is an `int`, 64 bits wide on 64-bit platforms and 32 bits on 32-bit ones (main.go:89, 118), and its decrement would wrap only after about 2^63 (or 2^31) bytes had been read.
- Forwarder.Forward requires `ChunksFit`: each read returns at most the buffer's 128 bytes. This is what `io.Reader` promises for `Read(p)`; a larger count would make the slice `p[start:nb]` panic.
- Forwarder.Fill states only the bytes the read delivers. `Read(p)` may use the rest of `p` as scratch space, so nothing is promised about it.
- Normalizer.Normalize tells a given temperature from the default one, but not what value 0.8 is.
