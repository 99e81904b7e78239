/** The main chat view (`ChatContainer`): a numbered transcript, the model
    status reported by the worker, and the reply being streamed. React state
    is an explicit `Container` value; the worker slot of the worker client
    is threaded through, and the clock's display string is an input. */
module ChatContainer {
  import opened Common
  import opened ChatWorker

  const Greeting: string := "Hello! How can I help you today?"

  datatype Container = Container(
    messages: seq<Message>,
    isGenerating: bool,
    modelStatus: Option<ModelStatus>,
    currentResponse: string)

  /** Every message's id is its one-based position in the transcript. */
  predicate IdsSequential(ms: seq<Message>) {
    forall i :: 0 <= i < |ms| ==> ms[i].id == i + 1
  }

  /** The view as first rendered: the greeting alone, no status, idle. */
  function Initial(time: string): (c: Container)
    ensures |c.messages| == 1 && c.messages[0] == Message(1, Greeting, false, time)
    ensures IdsSequential(c.messages)
    ensures !c.isGenerating && c.modelStatus.None? && c.currentResponse == ""
  {
    Container([Message(1, Greeting, false, time)], false, None, "")
  }

  /** The status the view sets while the first worker is being created. */
  const LoadingStatus: ModelStatus := ModelStatus("loading", None, None, None, None)

  /** `handleSendMessage(content)`. The user message is always appended.
      Without a status, the worker is initialised with this view's callbacks
      (`handlers`) and the status becomes `loading`; with status `ready`,
      generation is requested on the extended transcript; any other status
      sends nothing. Returns the new view, the new worker slot and what was
      posted to the worker. */
  function HandleSendMessage(c: Container, slot: Slot, content: string, time: string, handlers: nat)
    : (r: (Container, Slot, Option<Post>))
    ensures r.0.messages == c.messages + [Message(|c.messages| + 1, content, true, time)]
    ensures r.0.currentResponse == c.currentResponse
    ensures c.modelStatus.None? ==>
      && r.0.modelStatus == Some(LoadingStatus)
      && r.1 == InitializeWorker(slot, handlers).0
      && r.2.None?
      && r.0.isGenerating == c.isGenerating
    ensures c.modelStatus.Some? && c.modelStatus.value.status == "ready" ==>
      && r.0.isGenerating
      && r.1 == slot
      && r.2 == GenerateResponse(slot, r.0.messages)
      && r.0.modelStatus == c.modelStatus
    ensures c.modelStatus.Some? && c.modelStatus.value.status != "ready" ==>
      r.0 == c.(messages := r.0.messages) && r.1 == slot && r.2.None?
  {
    var userMessage := Message(|c.messages| + 1, content, true, time);
    var c' := c.(messages := c.messages + [userMessage]);
    match c.modelStatus
    case None =>
      (c'.(modelStatus := Some(LoadingStatus)), InitializeWorker(slot, handlers).0, None)
    case Some(st) =>
      if st.status == "ready" then
        (c'.(isGenerating := true), slot, GenerateResponse(slot, c'.messages))
      else (c', slot, None)
  }

  /** The `onStatus` callback is `setModelStatus`. */
  function OnStatus(c: Container, st: ModelStatus): (r: Container)
    ensures r.modelStatus == Some(st)
    ensures r.messages == c.messages && r.isGenerating == c.isGenerating
    ensures r.currentResponse == c.currentResponse
  {
    c.(modelStatus := Some(st))
  }

  /** The `onUpdate` callback replaces the reply being shown. */
  function OnUpdate(c: Container, text: string): (r: Container)
    ensures r.currentResponse == text
    ensures r.messages == c.messages && r.isGenerating == c.isGenerating
    ensures r.modelStatus == c.modelStatus
  {
    c.(currentResponse := text)
  }

  /** The `onComplete` callback. `captured` is the `currentResponse` the
      callback closed over when the worker was initialised, not necessarily
      the streamed text. */
  function OnComplete(c: Container, captured: string, time: string): (r: Container)
    ensures r.messages == c.messages + [Message(|c.messages| + 1, captured, false, time)]
    ensures r.currentResponse == "" && !r.isGenerating && r.modelStatus == c.modelStatus
  {
    c.(messages := c.messages + [Message(|c.messages| + 1, captured, false, time)],
       currentResponse := "", isGenerating := false)
  }

  /** A worker message delivered through the worker client's dispatch to this
      view's callbacks. */
  function Deliver(c: Container, ev: WorkerEvent, captured: string, time: string): (r: Container)
    ensures ev.status == "complete" ==> r == OnComplete(c, captured, time)
    ensures ev.status != "complete" ==> r.messages == c.messages && r.isGenerating == c.isGenerating
    ensures ev.status == "update" && Truthy(ev.output) ==> r == c.(currentResponse := ev.output.value)
  {
    match Dispatch(ev)
    case OnStatus(st) => OnStatus(c, st)
    case OnUpdate(text) => OnUpdate(c, text)
    case OnComplete => OnComplete(c, captured, time)
  }

  // ---------------------------------------------------------------------------
  // Properties over whole sessions

  /** What can happen to the view: a send, or a worker message. */
  datatype Step =
    | Send(content: string, time: string, handlers: nat)
    | Receive(ev: WorkerEvent, captured: string, time: string)

  function Replay(c: Container, slot: Slot, steps: seq<Step>): (r: (Container, Slot))
    decreases |steps|
  {
    if |steps| == 0 then (c, slot)
    else match steps[0]
      case Send(content, time, handlers) =>
        var (c', slot', _) := HandleSendMessage(c, slot, content, time, handlers);
        Replay(c', slot', steps[1..])
      case Receive(ev, captured, time) =>
        Replay(Deliver(c, ev, captured, time), slot, steps[1..])
  }

  /** Each step adds at most one message and never rewrites one, so the
      transcript only grows and ids keep numbering positions. */
  lemma {:induction false} ReplayAppendOnly(c: Container, slot: Slot, steps: seq<Step>)
    requires IdsSequential(c.messages)
    ensures var r := Replay(c, slot, steps).0;
      && |r.messages| >= |c.messages|
      && r.messages[..|c.messages|] == c.messages
      && IdsSequential(r.messages)
    decreases |steps|
  {
    if |steps| > 0 {
      var c' := match steps[0]
        case Send(content, time, handlers) => HandleSendMessage(c, slot, content, time, handlers).0
        case Receive(ev, captured, time) => Deliver(c, ev, captured, time);
      var slot' := match steps[0]
        case Send(content, time, handlers) => HandleSendMessage(c, slot, content, time, handlers).1
        case Receive(_, _, _) => slot;
      assert Replay(c, slot, steps) == Replay(c', slot', steps[1..]);
      assert c'.messages[..|c.messages|] == c.messages;
      ReplayAppendOnly(c', slot', steps[1..]);
      var r := Replay(c', slot', steps[1..]).0;
      assert r.messages[..|c.messages|] == r.messages[..|c'.messages|][..|c.messages|];
    }
  }

  /** The first send starts the worker and generates nothing; a send after the
      worker reported `ready` posts the whole transcript, the new user message
      included, with each message's speaker. */
  lemma FirstSendOnlyStartsWorker(time0: string, slot: Slot, content: string, time: string, handlers: nat)
    ensures var (c, s, post) := HandleSendMessage(Initial(time0), slot, content, time, handlers);
      && post.None? && s.Some?
      && c.messages == [Message(1, Greeting, false, time0), Message(2, content, true, time)]
  {
  }

  lemma ReadySendPostsTranscript(c: Container, slot: Slot, content: string, time: string, handlers: nat)
    requires c.modelStatus.Some? && c.modelStatus.value.status == "ready" && slot.Some?
    ensures var (c', _, post) := HandleSendMessage(c, slot, content, time, handlers);
      && post.Some? && post.value.Generate?
      && post.value.messages == ToEngineMessages(c.messages) + [RoleMessage(User, content)]
  {
    var m := Message(|c.messages| + 1, content, true, time);
    ToEngineAppend(c.messages, [m]);
  }

  /** Updates overwrite rather than accumulate: after several, only the last
      text is shown. */
  lemma UpdatesOverwrite(c: Container, a: string, b: string)
    requires a != "" && b != ""
    ensures Deliver(Deliver(c, WorkerEvent("update", None, Some(a), None, None, None), "", ""),
                    WorkerEvent("update", None, Some(b), None, None, None), "", "").currentResponse == b
  {
  }
}
