/** The stand-alone chat view (`ChatBot`): a transcript of user and
    assistant messages, the input box, and two flags, driven by the model
    worker's messages and by submissions. React state is an explicit `Bot`
    value and the message posted to the worker is returned. */
module ChatBot {
  import opened Common

  datatype Bot = Bot(
    messages: seq<RoleMessage>,
    input: string,
    isLoading: bool,
    isGenerating: bool)

  /** The view as first rendered: no messages, model still loading. */
  function Initial(): (b: Bot)
    ensures b.messages == [] && b.input == "" && b.isLoading && !b.isGenerating
  {
    Bot([], "", true, false)
  }

  /** `last.content += e.data.output`: a missing output is appended as the
      text `undefined`. */
  function OutputText(output: Option<string>): (t: string)
    ensures output.Some? ==> t == output.value
    ensures output.None? ==> t == "undefined"
  {
    output.GetOr("undefined")
  }

  /** `onMessageReceived`. The `update` branch reads the last message, so it
      needs a non-empty transcript. Toasts are not modelled. */
  function OnMessageReceived(b: Bot, ev: WorkerEvent): (r: Bot)
    requires ev.status == "update" ==> |b.messages| > 0
    ensures r.input == b.input
    ensures r.isLoading == (b.isLoading && ev.status != "ready")
    ensures r.isGenerating == (b.isGenerating && ev.status != "complete")
    ensures ev.status == "start" ==> r.messages == b.messages + [RoleMessage(Assistant, "")]
    ensures ev.status == "update" ==>
      var n := |b.messages|;
      && |r.messages| == n
      && r.messages[..n - 1] == b.messages[..n - 1]
      && r.messages[n - 1] == (if b.messages[n - 1].role == Assistant
                               then b.messages[n - 1].(content := b.messages[n - 1].content + OutputText(ev.output))
                               else b.messages[n - 1])
    ensures ev.status != "start" && ev.status != "update" ==> r.messages == b.messages
  {
    match ev.status
    case "ready" => b.(isLoading := false)
    case "start" => b.(messages := b.messages + [RoleMessage(Assistant, "")])
    case "update" =>
      var n := |b.messages|;
      var last := b.messages[n - 1];
      if last.role == Assistant
      then b.(messages := b.messages[n - 1 := last.(content := last.content + OutputText(ev.output))])
      else b
    case "complete" => b.(isGenerating := false)
    case _ => b
  }

  /** `handleSubmit(content)`: ignored when the content is blank after
      trimming or a reply is being generated; otherwise appends the user
      message as typed, clears the input, marks generation and posts the
      transcript with the new message. */
  function HandleSubmit(b: Bot, content: string): (r: (Bot, Option<seq<RoleMessage>>))
    ensures r.1.None? <==> AllSpace(content) || b.isGenerating
    ensures r.1.None? ==> r.0 == b
    ensures r.1.Some? ==>
      && r.0.messages == b.messages + [RoleMessage(User, content)]
      && r.1.value == r.0.messages
      && r.0.input == "" && r.0.isGenerating && r.0.isLoading == b.isLoading
  {
    if Trim(content) == "" || b.isGenerating then (b, None)
    else
      var msgs := b.messages + [RoleMessage(User, content)];
      (b.(messages := msgs, input := "", isGenerating := true), Some(msgs))
  }

  // ---------------------------------------------------------------------------
  // Properties relating several events

  function UpdateEvent(output: string): WorkerEvent {
    WorkerEvent("update", None, Some(output), None, None, None)
  }

  function StartEvent(): WorkerEvent {
    WorkerEvent("start", None, None, None, None, None)
  }

  /** The view after one `update` message per output, in order. */
  function ApplyUpdates(b: Bot, outputs: seq<string>): (r: Bot)
    requires |b.messages| > 0
    ensures |r.messages| == |b.messages|
    decreases |outputs|
  {
    if |outputs| == 0 then b
    else ApplyUpdates(OnMessageReceived(b, UpdateEvent(outputs[0])), outputs[1..])
  }

  /** A `start` followed by updates o1 .. on leaves one new assistant message
      whose content is o1 + ... + on, and every earlier message untouched. */
  lemma {:induction false} StreamedReply(b: Bot, outputs: seq<string>)
    ensures ApplyUpdates(OnMessageReceived(b, StartEvent()), outputs).messages
         == b.messages + [RoleMessage(Assistant, Concat(outputs))]
  {
    UpdatesAppend(b.messages, "", outputs, OnMessageReceived(b, StartEvent()));
    assert "" + Concat(outputs) == Concat(outputs);
  }

  lemma {:induction false} UpdatesAppend(prefix: seq<RoleMessage>, text: string, outputs: seq<string>, b: Bot)
    requires b.messages == prefix + [RoleMessage(Assistant, text)]
    ensures ApplyUpdates(b, outputs).messages == prefix + [RoleMessage(Assistant, text + Concat(outputs))]
    decreases |outputs|
  {
    if |outputs| == 0 {
      assert text + Concat(outputs) == text;
    } else {
      var b' := OnMessageReceived(b, UpdateEvent(outputs[0]));
      assert b'.messages == prefix + [RoleMessage(Assistant, text + outputs[0])] by {
        assert b.messages[..|b.messages| - 1] == prefix;
      }
      UpdatesAppend(prefix, text + outputs[0], outputs[1..], b');
      assert text + outputs[0] + Concat(outputs[1..]) == text + Concat(outputs);
    }
  }

  /** Status messages never touch the transcript. */
  lemma StatusKeepsMessages(b: Bot, ev: WorkerEvent)
    requires ev.status in {"loading", "ready", "error", "complete"}
    ensures OnMessageReceived(b, ev).messages == b.messages
  {
  }

  /** A rejected submission is invisible: submitting the same content again
      is rejected again, and nothing is posted either time. */
  lemma RejectedSubmitIsNoOp(b: Bot, content: string)
    requires HandleSubmit(b, content).1.None?
    ensures HandleSubmit(HandleSubmit(b, content).0, content) == (b, None)
  {
  }

  /** An accepted submission locks further submissions until `complete`. */
  lemma SubmitLocksUntilComplete(b: Bot, c1: string, c2: string)
    requires HandleSubmit(b, c1).1.Some?
    ensures HandleSubmit(HandleSubmit(b, c1).0, c2).1.None?
    ensures var after := OnMessageReceived(HandleSubmit(b, c1).0, WorkerEvent("complete", None, None, None, None, None));
      HandleSubmit(after, c2).1.Some? <==> !AllSpace(c2)
  {
  }
}
