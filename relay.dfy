// The whole of `generate`: normalise the request, build the inference
// command, launch it (a launch failure answers 500 and returns), forward its
// output, and kill the process on the way out.

module Relay {
  import opened Text
  import opened Forwarder
  import opened Normalizer

  /** One call on the response writer: an http.Error or a body write. */
  datatype Response = Error(err: HttpError) | Body(bytes: seq<byte>)

  /** The inference command: LLAMA_BIN -m <model file> --temp <temperature> -p <prompt>. */
  datatype Command = Command(binary: string, modelFile: string, temperature: Temperature, prompt: seq<byte>)

  function ErrorResponses(es: seq<HttpError>): (r: seq<Response>)
    ensures |r| == |es| && forall k :: 0 <= k < |es| ==> r[k] == Error(es[k])
  {
    if es == [] then [] else [Error(es[0])] + ErrorResponses(es[1..])
  }

  function BodyWrites(ws: seq<seq<byte>>): (r: seq<Response>)
    ensures |r| == |ws| && forall k :: 0 <= k < |ws| ==> r[k] == Body(ws[k])
  {
    if ws == [] then [] else [Body(ws[0])] + BodyWrites(ws[1..])
  }

  /** The request handler. `decoded` says whether the JSON decoder succeeded,
      `llamaBin` is LLAMA_BIN, `launched` whether StdoutPipe and Start both
      succeeded, and `script` what the process's stdout delivers. Returns the
      settled request, the command, the calls on the response writer in
      order, and whether the deferred Kill ran. */
  method Generate(decoded: bool, input: RequestBody, llamaBin: string, table: map<string, ModelEntry>,
                  launched: bool, script: seq<ReadResult>)
    returns (n: Normalized, cmd: Command, response: seq<Response>, killed: bool)
    requires ChunksFit(script)
    ensures NormalizedFrom(decoded, input, table, n)
    ensures cmd == Command(llamaBin, n.options.model, n.temperature, input.prompt)
    ensures launched ==>
              response == ErrorResponses(n.errors) + BodyWrites(Run(input.prompt, input.stop, script).writes)
    ensures !launched ==> response == ErrorResponses(n.errors) + [Error(InternalServerError)]
    ensures killed <==> launched
  {
    n := Normalize(decoded, input, table);
    cmd := Command(llamaBin, n.options.model, n.temperature, input.prompt);
    response := ErrorResponses(n.errors);
    if !launched {
      response := response + [Error(InternalServerError)];
      killed := false;
      return;
    }
    var o, _ := Forward(input.prompt, input.stop, script);
    response := response + BodyWrites(o.writes);
    killed := true;
  }
}
