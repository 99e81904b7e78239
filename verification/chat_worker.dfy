/** The worker client (`chat.ts`): a module-level worker slot, the dispatch
    of worker messages to three callbacks, and the two requests the page can
    post. The slot is an explicit value; a worker is identified by the
    callbacks it was bound to when it was created. */
module ChatWorker {
  import opened Common

  /** `{ status, data?, file?, progress?, total? }` as handed to `onStatus`. */
  datatype ModelStatus = ModelStatus(
    status: string,
    data: Option<string>,
    file: Option<string>,
    progress: Option<int>,
    total: Option<int>)

  /** The worker created by `initializeWorker`; `handlers` names the three
      callbacks its `onmessage` calls. */
  datatype Worker = Worker(handlers: nat)

  /** The module-level `let worker`. */
  type Slot = Option<Worker>

  /** Which of the three callbacks a worker message reaches. */
  datatype Callback = OnStatus(status: ModelStatus) | OnUpdate(text: string) | OnComplete

  /** Messages posted to the worker. */
  datatype Post = Generate(messages: seq<RoleMessage>) | Reset

  /** `initializeWorker`: creates and binds a worker only when there is none;
      returns the slot's worker either way. */
  function InitializeWorker(slot: Slot, handlers: nat): (r: (Slot, Worker))
    ensures r.0 == Some(r.1)
    ensures slot.Some? ==> r.0 == slot
    ensures slot.None? ==> r.1.handlers == handlers
  {
    match slot
    case Some(w) => (slot, w)
    case None => (Some(Worker(handlers)), Worker(handlers))
  }

  /** `worker.onmessage`: an `update` carrying output goes to `onUpdate`,
      `complete` to `onComplete`, and everything else, an `update` without
      output included, to `onStatus` with the status fields copied. */
  function Dispatch(ev: WorkerEvent): (cb: Callback)
    ensures cb.OnUpdate? <==> ev.status == "update" && Truthy(ev.output)
    ensures cb.OnComplete? <==> ev.status == "complete"
    ensures cb.OnUpdate? ==> cb.text == ev.output.value
    ensures cb.OnStatus? ==>
      cb.status == ModelStatus(ev.status, ev.data, ev.file, ev.progress, ev.total)
  {
    if ev.status == "update" && Truthy(ev.output) then OnUpdate(ev.output.value)
    else if ev.status == "complete" then OnComplete
    else OnStatus(ModelStatus(ev.status, ev.data, ev.file, ev.progress, ev.total))
  }

  /** The role an engine message gets for a transcript message. */
  function RoleOf(m: Message): Role {
    if m.isUser then User else Assistant
  }

  /** The `messages.map` in `generateResponse`. */
  function ToEngineMessages(ms: seq<Message>): (r: seq<RoleMessage>)
    ensures |r| == |ms|
    ensures forall i :: 0 <= i < |ms| ==> r[i] == RoleMessage(RoleOf(ms[i]), ms[i].content)
  {
    seq(|ms|, i requires 0 <= i < |ms| => RoleMessage(RoleOf(ms[i]), ms[i].content))
  }

  /** `generateResponse`: posts the mapped transcript, or nothing when no
      worker exists. */
  function GenerateResponse(slot: Slot, ms: seq<Message>): (post: Option<Post>)
    ensures post.Some? <==> slot.Some?
    ensures post.Some? ==> post.value.Generate? && post.value.messages == ToEngineMessages(ms)
  {
    if slot.None? then None else Some(Generate(ToEngineMessages(ms)))
  }

  /** `resetWorker`: posts a reset, or nothing when no worker exists. */
  function ResetWorker(slot: Slot): (post: Option<Post>)
    ensures post.Some? <==> slot.Some?
    ensures post.Some? ==> post.value == Reset
  {
    if slot.None? then None else Some(Reset)
  }

  // ---------------------------------------------------------------------------
  // Properties relating several operations

  /** Only the first call creates a worker: a second call returns the same
      worker, still bound to the first caller's callbacks. */
  lemma InitializeOnce(slot: Slot, h1: nat, h2: nat)
    ensures var (s1, w1) := InitializeWorker(slot, h1);
      InitializeWorker(s1, h2) == (s1, w1)
    ensures slot.None? ==> InitializeWorker(InitializeWorker(slot, h1).0, h2).1 == Worker(h1)
  {
  }

  /** Every message reaches exactly one callback, and a status word other
      than `update` and `complete` always reaches `onStatus`. */
  lemma DispatchOtherIsStatus(ev: WorkerEvent)
    requires ev.status != "update" && ev.status != "complete"
    ensures Dispatch(ev).OnStatus? && Dispatch(ev).status.status == ev.status
  {
  }

  /** The mapping never invents a system message, keeps who spoke, and is
      lossless: the transcript's speakers and texts can be read back. */
  lemma RoleMappingFaithful(ms: seq<Message>)
    ensures forall i :: 0 <= i < |ms| ==> ToEngineMessages(ms)[i].role != System
    ensures forall i :: 0 <= i < |ms| ==>
      (ToEngineMessages(ms)[i].role == User <==> ms[i].isUser)
      && ToEngineMessages(ms)[i].content == ms[i].content
  {
  }

  /** The mapping works message by message, so appending to the transcript
      appends to what is posted. */
  lemma ToEngineAppend(a: seq<Message>, b: seq<Message>)
    ensures ToEngineMessages(a + b) == ToEngineMessages(a) + ToEngineMessages(b)
  {
    var l, r := ToEngineMessages(a + b), ToEngineMessages(a) + ToEngineMessages(b);
    assert |l| == |r|;
    forall i | 0 <= i < |l| ensures l[i] == r[i] {
      if i < |a| {
        assert (a + b)[i] == a[i];
      } else {
        assert (a + b)[i] == b[i - |a|];
      }
    }
  }
}
