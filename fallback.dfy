/** The local language-model wrapper of src/llm/fallback.py. The text-generation pipeline is a
    function given to the model; without one, `generate` answers with a stub built from the
    prompt. */
module Fallback {
  import opened Wrappers
  import opened Text

  /** The arguments the wrapper passes to the pipeline. */
  datatype PipeRequest = PipeRequest(prompt: string, maxNewTokens: int, doSample: bool, temperature: real)

  /** A text-generation pipeline: the generated text, or None when the call raises. */
  type Pipe = PipeRequest -> Option<string>

  /** `LocalLLM`: its pipeline is fixed when it is constructed (None when none could be loaded). */
  datatype LocalLLM = LocalLLM(pipe: Option<Pipe>, maxTokens: int, temperature: real)

  /** The client a component holds: the hosted client (or any object with a `generate` method),
      or the local wrapper. */
  datatype LlmClient = Hosted(hostedGenerate: string -> string) | Local(local: LocalLLM)

  const STUB_PREFIX: string := "Fallback (no local model). Context signals: "

  const LOCAL_ERROR: string :=
    "Local generation error; please provide a Gemini API key for higher quality responses."

  /** The duck-typed test the components use: a `LocalLLM` whose `pipe` is None. */
  predicate IsStub(llm: LlmClient) {
    llm.Local? && llm.local.pipe.None?
  }

  /** The last (at most) eight lines of the prompt, each cut to 60 characters. */
  function ContextSignals(prompt: string): (r: seq<string>)
    ensures |r| == Min(8, |SplitLines(prompt)|)
    ensures forall i :: 0 <= i < |r| ==>
      var lines := SplitLines(prompt);
      r[i] == Take(lines[|lines| - |r| + i], 60)
    ensures forall i :: 0 <= i < |r| ==> |r[i]| <= 60
    ensures forall i :: 0 <= i < |r| ==>
      var lines := SplitLines(prompt);
      StartsWith(lines[|lines| - |r| + i], r[i])
  {
    var tail := Last(SplitLines(prompt), 8);
    seq(|tail|, i requires 0 <= i < |tail| => Take(tail[i], 60))
  }

  /** The stub reply of `generate` when there is no pipeline. */
  function StubReply(prompt: string): (r: string)
    ensures StartsWith(r, STUB_PREFIX)
    ensures |r| <= |STUB_PREFIX| + 400
  {
    STUB_PREFIX + Take(Join(" ", ContextSignals(prompt)), 400)
  }

  /** The pipeline arguments for a prompt: at most 256 new tokens, sampling iff the
      temperature is positive. */
  function Request(llm: LocalLLM, prompt: string): (q: PipeRequest)
    ensures q.prompt == prompt && q.temperature == llm.temperature
    ensures q.maxNewTokens <= 256 && q.maxNewTokens <= llm.maxTokens
    ensures q.maxNewTokens == 256 || q.maxNewTokens == llm.maxTokens
    ensures q.doSample <==> llm.temperature > 0.0
  {
    PipeRequest(prompt, Min(llm.maxTokens, 256), llm.temperature > 0.0, llm.temperature)
  }

  /** Removes an echoed prompt from the generated text. */
  function StripEcho(prompt: string, text: string): string {
    if StartsWith(text, prompt) then Strip(text[|prompt|..]) else text
  }

  /** `LocalLLM.generate`. */
  function LocalGenerate(llm: LocalLLM, prompt: string): (r: string)
    ensures llm.pipe.None? ==> r == StubReply(prompt)
    ensures llm.pipe.Some? && llm.pipe.value(Request(llm, prompt)).None? ==> r == LOCAL_ERROR
    ensures llm.pipe.Some? && llm.pipe.value(Request(llm, prompt)).Some? ==>
      r == StripEcho(prompt, llm.pipe.value(Request(llm, prompt)).value)
  {
    match llm.pipe
    case None => StubReply(prompt)
    case Some(pipe) =>
      match pipe(Request(llm, prompt))
      case None => LOCAL_ERROR
      case Some(text) => StripEcho(prompt, text)
  }

  /** `llm.generate(prompt)` for either kind of client. */
  function Generate(llm: LlmClient, prompt: string): string {
    match llm
    case Hosted(g) => g(prompt)
    case Local(l) => LocalGenerate(l, prompt)
  }

  /** A pipeline that echoes the prompt before its reply yields the stripped reply alone. */
  lemma StripEchoRoundTrip(prompt: string, reply: string)
    ensures StripEcho(prompt, prompt + reply) == Strip(reply)
  {
    assert (prompt + reply)[..|prompt|] == prompt;
    assert (prompt + reply)[|prompt|..] == reply;
  }

  /** Text that does not begin with the prompt is returned whole. */
  lemma StripEchoNoEcho(prompt: string, text: string)
    requires !StartsWith(text, prompt)
    ensures StripEcho(prompt, text) == text
  {
  }

  /** Stripping keeps a prefix whose first and last characters are not whitespace. */
  lemma StripKeepsPrefix(s: string, p: string)
    requires StartsWith(s, p) && p != []
    requires !IsSpace(p[0]) && !IsSpace(p[|p| - 1])
    ensures StartsWith(Strip(s), p)
  {
    StripByKeepsPrefix(s, p, IsSpace);
  }
}
