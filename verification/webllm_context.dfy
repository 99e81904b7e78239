/** The in-browser inference provider (`WebLLMProvider`): the engine flags,
    the running message history sent to the engine, and the streaming
    wrapper that accumulates the assistant's reply. React state is an
    explicit `Provider` value; the engine's answers (whether creation
    succeeds, the progress reports, the streamed chunks) are inputs. */
module WebLLMContext {
  import opened Common

  const SystemPrompt: string :=
    "You are a helpful, respectful and honest assistant. Always be direct and concise in your responses."

  /** `engine` says whether `engineRef.current` holds an engine. */
  datatype Provider = Provider(
    isModelLoaded: bool,
    loadingProgress: string,
    isGenerating: bool,
    engine: bool,
    history: seq<RoleMessage>)

  /** A history that starts with the one system message and has no other. */
  predicate SystemFirst(h: seq<RoleMessage>) {
    && |h| >= 1
    && h[0] == RoleMessage(System, SystemPrompt)
    && forall i :: 1 <= i < |h| ==> h[i].role != System
  }

  /** The provider as first rendered. */
  function Initial(): (p: Provider)
    ensures SystemFirst(p.history) && |p.history| == 1
    ensures !p.isModelLoaded && !p.isGenerating && !p.engine
  {
    Provider(false, "", false, false, [RoleMessage(System, SystemPrompt)])
  }

  /** `initializeEngine`: every progress report overwrites `loadingProgress`;
      on success the engine is stored and the model marked loaded, on failure
      the error is logged and nothing else changes. */
  function InitializeEngine(p: Provider, reports: seq<string>, created: bool): (r: Provider)
    ensures r.engine == (p.engine || created)
    ensures r.isModelLoaded == (p.isModelLoaded || created)
    ensures r.loadingProgress == (if |reports| == 0 then p.loadingProgress else reports[|reports| - 1])
    ensures r.history == p.history && r.isGenerating == p.isGenerating
  {
    var q := if |reports| == 0 then p else p.(loadingProgress := reports[|reports| - 1]);
    if created then q.(engine := true, isModelLoaded := true) else q
  }

  /** The chat-completion request: streaming, with usage reported at the end. */
  datatype Request = Request(
    stream: bool,
    includeUsage: bool,
    messages: seq<RoleMessage>,
    temperature: real,
    maxTokens: int)

  /** How `sendMessage` ends: the "Engine not initialized" error, a rethrown
      error from `chat.completions.create`, or the wrapped stream of the
      accepted request. */
  datatype SendOutcome = NotInitialized | CreateFailed(request: Request) | Streaming(request: Request)

  /** `sendMessage(message)`. `captured` is the `messageHistory` the callback
      closed over, which need not be the current one; `reports` and `created`
      are what initialisation does if it is attempted, and `createOk` is
      whether the engine accepts the request. */
  function SendMessage(p: Provider, captured: seq<RoleMessage>, message: string,
                       reports: seq<string>, created: bool, createOk: bool): (r: (Provider, SendOutcome))
    // initialisation is attempted exactly when there is no engine and no loaded model
    ensures var p1 := if !p.engine && !p.isModelLoaded then InitializeEngine(p, reports, created) else p;
      && (r.1.NotInitialized? <==> !p1.engine)
      && (r.1.NotInitialized? ==> r.0 == p1)
      && (!r.1.NotInitialized? ==>
            && r.0.history == captured + [RoleMessage(User, message)]
            && r.0.engine && r.0.isModelLoaded == p1.isModelLoaded
            && r.0.loadingProgress == p1.loadingProgress
            && r.1.request == Request(true, true, r.0.history, 0.7, 800)
            && (r.1.Streaming? <==> createOk)
            && r.0.isGenerating == createOk)
  {
    var p1 := if !p.engine && !p.isModelLoaded then InitializeEngine(p, reports, created) else p;
    if !p1.engine then (p1, NotInitialized)
    else
      var updated := captured + [RoleMessage(User, message)];
      var p2 := p1.(isGenerating := true, history := updated);
      var request := Request(true, true, updated, 0.7, 800);
      if createOk then (p2, Streaming(request))
      else (p2.(isGenerating := false), CreateFailed(request))
  }

  // ---------------------------------------------------------------------------
  // The streaming wrapper

  datatype Delta = Delta(content: Option<string>)
  datatype Choice = Choice(delta: Option<Delta>)
  datatype Chunk = Chunk(choices: seq<Choice>)

  /** `chunk.choices[0]?.delta?.content || ""`. */
  function DeltaText(c: Chunk): (t: string)
    ensures t != "" ==>
      (|c.choices| > 0 && c.choices[0].delta.Some? && c.choices[0].delta.value.content == Some(t))
    ensures (|c.choices| > 0 && c.choices[0].delta.Some? && c.choices[0].delta.value.content.Some?)
      ==> t == c.choices[0].delta.value.content.value
  {
    if |c.choices| > 0 && c.choices[0].delta.Some? && c.choices[0].delta.value.content.Some?
    then c.choices[0].delta.value.content.value
    else ""
  }

  /** Reference definition: the texts of the chunks, concatenated in order. */
  function Deltas(chunks: seq<Chunk>): (ts: seq<string>)
    ensures |ts| == |chunks|
    ensures forall i :: 0 <= i < |chunks| ==> ts[i] == DeltaText(chunks[i])
  {
    seq(|chunks|, i requires 0 <= i < |chunks| => DeltaText(chunks[i]))
  }

  /** How the consumer's iteration over the wrapped stream ends: the engine's
      stream runs out, it throws, or the consumer stops early (which runs the
      generator's `finally` without the history update). */
  datatype StreamEnd = Exhausted | Threw | Stopped

  /** `wrappedResponse`: re-yields every chunk, accumulates the delta texts,
      appends one assistant message when the stream is exhausted, and clears
      `isGenerating` however it ends. The history update is the functional
      form, so it extends the current history `q.history`. */
  method ConsumeStream(q: Provider, chunks: seq<Chunk>, end: StreamEnd)
    returns (r: Provider, yielded: seq<Chunk>, assistantMessage: string)
    ensures yielded == chunks
    ensures assistantMessage == Concat(Deltas(chunks))
    ensures end == Exhausted ==> r.history == q.history + [RoleMessage(Assistant, assistantMessage)]
    ensures end != Exhausted ==> r.history == q.history
    ensures !r.isGenerating
    ensures r.engine == q.engine && r.isModelLoaded == q.isModelLoaded && r.loadingProgress == q.loadingProgress
  {
    assistantMessage := "";
    yielded := [];
    for i := 0 to |chunks|
      invariant yielded == chunks[..i]
      invariant assistantMessage == Concat(Deltas(chunks[..i]))
    {
      assert Deltas(chunks[..i + 1]) == Deltas(chunks[..i]) + [DeltaText(chunks[i])];
      ConcatAppend(Deltas(chunks[..i]), DeltaText(chunks[i]));
      assistantMessage := assistantMessage + DeltaText(chunks[i]);
      yielded := yielded + [chunks[i]];
    }
    assert chunks[..|chunks|] == chunks;
    r := q;
    if end == Exhausted {
      r := r.(history := r.history + [RoleMessage(Assistant, assistantMessage)]);
    }
    r := r.(isGenerating := false);
  }

  /** `interruptGeneration`: acts only when an engine exists and a reply is
      being generated; the boolean says whether `interruptGenerate` is called. */
  function InterruptGeneration(p: Provider): (r: (Provider, bool))
    ensures r.1 <==> p.engine && p.isGenerating
    ensures r.1 ==> r.0 == p.(isGenerating := false)
    ensures !r.1 ==> r.0 == p
    ensures p.engine ==> !r.0.isGenerating
  {
    if p.engine && p.isGenerating then (p.(isGenerating := false), true) else (p, false)
  }

  // ---------------------------------------------------------------------------
  // Properties relating several operations

  /** A second interrupt right after the first never reaches the engine. */
  lemma InterruptOnce(p: Provider)
    ensures !InterruptGeneration(InterruptGeneration(p).0).1
    ensures InterruptGeneration(InterruptGeneration(p).0).0 == InterruptGeneration(p).0
  {
  }

  /** A failed send leaves the history and the generating flag alone. */
  lemma NotInitializedKeepsHistory(p: Provider, captured: seq<RoleMessage>, message: string,
                                   reports: seq<string>, created: bool, createOk: bool)
    requires SendMessage(p, captured, message, reports, created, createOk).1.NotInitialized?
    ensures var r := SendMessage(p, captured, message, reports, created, createOk).0;
      r.history == p.history && r.isGenerating == p.isGenerating && !r.engine
  {
  }

  /** Only user and assistant messages are ever appended, so the history
      keeps its single leading system message, as long as the history the
      send callback closed over had it too. */
  lemma SendKeepsSystemFirst(p: Provider, captured: seq<RoleMessage>, message: string,
                             reports: seq<string>, created: bool, createOk: bool)
    requires SystemFirst(p.history) && SystemFirst(captured)
    ensures SystemFirst(SendMessage(p, captured, message, reports, created, createOk).0.history)
  {
  }

  lemma StreamKeepsSystemFirst(q: Provider, assistantMessage: string)
    requires SystemFirst(q.history)
    ensures SystemFirst(q.history + [RoleMessage(Assistant, assistantMessage)])
  {
  }

  /** A full turn from a fresh closure: the history gains exactly the user
      message and then the assistant reply made of the streamed deltas. */
  method Turn(p: Provider, message: string, reports: seq<string>, created: bool, chunks: seq<Chunk>)
    returns (r: Provider, outcome: SendOutcome)
    requires SystemFirst(p.history)
    ensures outcome.NotInitialized? ==> r.history == p.history
    ensures outcome.Streaming? ==>
      && r.history == p.history + [RoleMessage(User, message), RoleMessage(Assistant, Concat(Deltas(chunks)))]
      && SystemFirst(r.history)
      && !r.isGenerating
  {
    var sent := SendMessage(p, p.history, message, reports, created, true);
    outcome := sent.1;
    r := sent.0;
    if outcome.Streaming? {
      SendKeepsSystemFirst(p, p.history, message, reports, created, true);
      var yielded, reply;
      r, yielded, reply := ConsumeStream(r, chunks, Exhausted);
      StreamKeepsSystemFirst(sent.0, reply);
    }
  }
}
