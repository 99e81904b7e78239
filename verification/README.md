# Local chat assistant: conversation store, document chunker and chat transitions

This project models the logic at the centre of a browser-based chat assistant that runs its
language model locally. It covers three pieces.

- **The conversation store** (`ChatDB`). This is a list of conversation records under one
  local-storage key. It supports create, look-up, update, rename, delete and the
  most-recent-first listing.
- **The document pipeline** (`pdfProcessor`). It has four steps:
  - the sentence scanner behind `splitIntoChunks`;
  - the greedy packer that groups sentences into chunks under a size limit;
  - the `[CLS] … [SEP]` wrapping that pairs chunk *i* with embedding *i*;
  - the top-K selection of `findRelevantChunks`.
- **The chat transitions.** These cover:
  - the in-browser inference provider (`WebLLMContext`): its history, request shape, streaming
    accumulation and interrupt gate;
  - the stand-alone chat view (`ChatBot`): its worker-event reducer and submit guard;
  - the worker client (`chat.ts`): its worker slot, event dispatch and role mapping;
  - the main chat view (`ChatContainer`): its send transition and callbacks.

Each piece is written as pure functions over immutable values:

- React state becomes a datatype (`Provider`, `Bot`, `Container`).
- The `localStorage` item becomes `Storage = Option<seq<Conversation>>`.
- The module-level worker becomes `Slot = Option<Worker>`.
- The clock, the engine's answers, the embedding vectors and the streamed chunks become inputs.

JavaScript string lengths are UTF-16 code units. `Units` counts a character outside the Basic
Multilingual Plane as two.

Files:

- `common.dfy`: shared values. It holds options, roles and messages, `String.prototype.trim` on
  the characters `IsSpace` recognises, concatenation, and a stable sort by non-increasing key.
- `chat_db.dfy`: `client/src/lib/db.ts`.
- `pdf_processor.dfy`: `client/src/lib/pdfProcessor.ts`.
- `webllm_context.dfy`: `client/src/lib/WebLLMContext.tsx`.
- `chat_bot.dfy`: `client/src/components/ChatBot.tsx`.
- `chat_worker.dfy`: `client/src/lib/chat.ts`.
- `chat_container.dfy`: `client/src/components/ChatContainer.tsx`.

## Model

| member | source | states |
|---|---|---|
| ChatDB.Read | client/src/lib/db.ts:26-28 | with nothing stored the read gives the empty list; otherwise it gives the stored list as it is |
| ChatDB.FindIndex | client/src/lib/db.ts:61-62 | -1 exactly when no record has the id; otherwise the position of the first record that has it |
| ChatDB.Init | client/src/lib/db.ts:20-24 | afterwards a list is always stored; a list that was already stored is left as it was; the records read back are the same |
| ChatDB.InitIdempotent | client/src/lib/db.ts:20-24 | calling `init` twice is the same as calling it once |
| ChatDB.Create | client/src/lib/db.ts:34-47 | appends exactly one record and returns its id (the clock reading); earlier records stay in order; the new record has the given title or `New Chat`, no messages, and `createdAt == updatedAt` |
| ChatDB.Get | client/src/lib/db.ts:55-57 | null exactly when no record has the id; otherwise the first record that has it |
| ChatDB.Update | client/src/lib/db.ts:59-70 | an unknown id leaves storage untouched; otherwise only the first match changes: its messages are replaced, its title only for a truthy title, `updatedAt` becomes now, and `createdAt` is kept |
| ChatDB.Rename | client/src/lib/db.ts:77-85 | an unknown id leaves storage untouched; otherwise only the first match changes: its title becomes the new one, even `""`, and `updatedAt` becomes now |
| ChatDB.RemoveId | client/src/lib/db.ts:74 | the survivors are exactly the records with a different id; with no match the list is unchanged |
| ChatDB.Delete | client/src/lib/db.ts:72-75 | always writes a list back, holding exactly the records with a different id |
| ChatDB.List | client/src/lib/db.ts:49-53 | the listing is a permutation of the stored records, ordered by non-increasing `updatedAt` |
| ChatDB.CreateThenGet | client/src/lib/db.ts:34-57 | when the clock reading is not yet an id, looking it up after a create finds the new record |
| ChatDB.DeleteIdempotent | client/src/lib/db.ts:72-75 | deleting an id twice is deleting it once |
| ChatDB.RemoveIdKeepsOrder | client/src/lib/db.ts:74 | the filter distributes over concatenation, so surviving records keep their relative order |
| ChatDB.EmptyTitleAsymmetry | client/src/lib/db.ts:64-66 | an update with title `""` keeps the old title, while a rename to `""` sets it |
| ChatDB.UpdateKeepsIds | client/src/lib/db.ts:59-70 | an update never changes the number of records or the id of any of them |
| ChatDB.RenameKeepsMessages | client/src/lib/db.ts:77-85 | a rename never changes the number of records, their ids or their messages |
| Common.Trim | client/src/lib/pdfProcessor.ts:15 | trimming never lengthens, leaves no white space at either end, and gives `""` exactly for all-white-space input |
| Common.TrimIsInfix | client/src/lib/pdfProcessor.ts:15 | trimming cuts only at the two ends: the result is a contiguous piece of the input, and everything cut off before and after it is white space |
| Common.Truthy | client/src/lib/db.ts:64 | a missing string and `""` are falsy; every non-empty string is truthy |
| Common.SortDesc | client/src/lib/pdfProcessor.ts:88 | the sorted list is a permutation of its input, in non-increasing key order |
| PdfProcessor.Sentences | client/src/lib/pdfProcessor.ts:10 | every match of `/[^.!?]+[.!?]+/g` is a run of non-terminators followed by a run of terminators; text without a terminator has no matches |
| PdfProcessor.SentencesCover | client/src/lib/pdfProcessor.ts:10 | the text is some leading terminators, then the matches end to end, then a final fragment with no terminator: nothing else is skipped |
| PdfProcessor.SplitIntoChunks | client/src/lib/pdfProcessor.ts:8-26 | the chunks are the trimmed texts of the greedy packing of the sentences; there are no more chunks than sentences; every chunk is well formed; text without a terminator gives no chunks |
| PdfProcessor.PackSentences | client/src/lib/pdfProcessor.ts:11-23 | the loop with its `currentChunk` buffer yields exactly the trimmed groups of the packer |
| PdfProcessor.PackStep | client/src/lib/pdfProcessor.ts:13-19 | one pass of the loop keeps its invariant: the chunks pushed so far, followed by what the packer makes of the open group and the remaining sentences, are the whole result |
| PdfProcessor.Units | client/src/lib/pdfProcessor.ts:14 | a string's `length` is at least its number of characters and at most twice that |
| PdfProcessor.UnitsIsLength | client/src/lib/pdfProcessor.ts:14 | `length` equals the number of characters exactly when every character lies in the Basic Multilingual Plane |
| PdfProcessor.JoinIsSpacedConcat | client/src/lib/pdfProcessor.ts:18 | the buffer holds the group's sentences in order, each followed by one space, with nothing else |
| PdfProcessor.PackIsGreedy | client/src/lib/pdfProcessor.ts:13-23 | the groups concatenate back to the sentences in order, every group is non-empty, every sentence after a group's first fitted when it was added, and a group is closed only because the next sentence did not fit |
| PdfProcessor.GreedyPackingUnique | client/src/lib/pdfProcessor.ts:14-18 | there is only one greedy packing of a sentence list under a limit |
| PdfProcessor.ChunkTextShape | client/src/lib/pdfProcessor.ts:15-22 | a trimmed group is non-empty, has no white space at either end and ends in `.`, `!` or `?`; a fitting group of two or more sentences is within the limit |
| PdfProcessor.ChunksWellFormed | client/src/lib/pdfProcessor.ts:13-25 | for sentences as the scanner produces them, every chunk is well formed and there are no more chunks than sentences |
| PdfProcessor.ChunkSizeBound | client/src/lib/pdfProcessor.ts:14-18 | a chunk made of two or more sentences has at most `chunkSize` UTF-16 code units |
| PdfProcessor.WidthIsLength | client/src/lib/pdfProcessor.ts:14-18 | the packer's width of a group equals the `length` of the buffer `currentChunk` that holds it |
| PdfProcessor.EmbeddingInput | client/src/lib/pdfProcessor.ts:53 | the input is `[CLS] `, then the chunk, then ` [SEP]`, so it is exactly 12 characters longer |
| PdfProcessor.EmbeddingInputUnits | client/src/lib/pdfProcessor.ts:53 | the input's `length` is the chunk's `length` plus 12 UTF-16 code units |
| PdfProcessor.EmbeddingInputInjective | client/src/lib/pdfProcessor.ts:53 | different chunks never share an embedding input |
| PdfProcessor.QueryInput | client/src/lib/pdfProcessor.ts:76 | the query goes through the same wrapping, with the search instruction in front |
| PdfProcessor.ProcessPdf | client/src/lib/pdfProcessor.ts:49-66 | one embedding input per chunk, in order; it rejects exactly when the engine call rejects, even with no chunks, or when the engine returns fewer vectors than chunks; otherwise the result pairs chunk i with embedding i and has the chunk count as its length |
| PdfProcessor.Scores | client/src/lib/pdfProcessor.ts:83-86 | one score per chunk, in chunk order: entry i carries index i and the similarity of chunk i's embedding |
| PdfProcessor.SliceEnd | client/src/lib/pdfProcessor.ts:91-92 | `slice(0, k)` keeps min(k, n) elements for k ≥ 0, and counts back from the end for negative k |
| PdfProcessor.Selected | client/src/lib/pdfProcessor.ts:83-92 | the kept scores number `slice(0, topK)`'s length, come from distinct chunks with their own scores, are in non-increasing order, and no chunk left out scores higher than one kept |
| PdfProcessor.RankedPrefix | client/src/lib/pdfProcessor.ts:88-92 | any prefix of the sorted scores has the selection properties above |
| PdfProcessor.RelevantTexts | client/src/lib/pdfProcessor.ts:83-93 | returns min(topK, number of chunks) texts for topK ≥ 0; text i is the text of the chunk ranked i-th |
| PdfProcessor.FindRelevantChunks | client/src/lib/pdfProcessor.ts:68-97 | the promise never settles exactly when the query request rejects, or when the answer has no vector and there is a chunk to score; an answer without a vector and no chunks resolves with `[]`; with a vector it resolves with min(topK, number of chunks) texts for topK ≥ 0, text i being the text of the chunk ranked i-th |
| PdfProcessor.DefaultTopKKeepsThree | client/src/lib/pdfProcessor.ts:72 | with `topK` omitted, a search answered with a vector returns min(3, number of chunks) texts |
| WebLLMContext.Initial | client/src/lib/WebLLMContext.tsx:29-57 | the history is exactly the one system message with the fixed prompt; nothing is loaded, generating or created |
| WebLLMContext.InitializeEngine | client/src/lib/WebLLMContext.tsx:35-50 | the engine and the loaded flag are set exactly when creation succeeds; `loadingProgress` is the last progress report; history and `isGenerating` are untouched |
| WebLLMContext.SendMessage | client/src/lib/WebLLMContext.tsx:59-107 | initialisation is tried only with no engine and no loaded model; "Engine not initialized" exactly when there is still no engine, with nothing else changed; otherwise the history is the captured one plus the user message, the request is streaming with usage, that history, temperature 0.7 and 800 tokens, and `isGenerating` stays set only when `create` succeeds |
| WebLLMContext.NotInitializedKeepsHistory | client/src/lib/WebLLMContext.tsx:60-66 | a send that fails with "Engine not initialized" leaves history and `isGenerating` unchanged |
| WebLLMContext.DeltaText | client/src/lib/WebLLMContext.tsx:92 | a non-empty delta text is `choices[0].delta.content`; a present content is taken as is, and anything missing counts as `""` |
| WebLLMContext.ConsumeStream | client/src/lib/WebLLMContext.tsx:88-100 | every chunk is re-yielded in order; the accumulated text is the concatenation of the delta texts; exactly one assistant message with that text is appended when the stream runs out, none otherwise; `isGenerating` is false however it ends |
| WebLLMContext.InterruptGeneration | client/src/lib/WebLLMContext.tsx:109-114 | the engine is interrupted exactly when it exists and a reply is being generated, and then only `isGenerating` changes; otherwise nothing changes |
| WebLLMContext.InterruptOnce | client/src/lib/WebLLMContext.tsx:109-114 | a second interrupt right after the first is a no-op |
| WebLLMContext.SendKeepsSystemFirst | client/src/lib/WebLLMContext.tsx:52-74 | sending keeps the single leading system message when the captured history had it |
| WebLLMContext.StreamKeepsSystemFirst | client/src/lib/WebLLMContext.tsx:96 | appending the assistant reply keeps the single leading system message |
| WebLLMContext.Turn | client/src/lib/WebLLMContext.tsx:59-107 | a turn from a fresh closure extends the history by exactly the user message and the assistant reply made of the deltas, keeps the system message first and ends not generating |
| ChatBot.Initial | client/src/components/ChatBot.tsx:12-15 | no messages, empty input, loading, not generating |
| ChatBot.OnMessageReceived | client/src/components/ChatBot.tsx:25-66 | `ready` clears `isLoading` and `complete` clears `isGenerating`; `start` appends one empty assistant message; `update` appends the output to the last message only when it is the assistant's, keeping length and earlier messages; other statuses leave the messages alone |
| ChatBot.OutputText | client/src/components/ChatBot.tsx:57 | a present output is appended as it is; a missing one is appended as the text `undefined` |
| ChatBot.HandleSubmit | client/src/components/ChatBot.tsx:76-86 | rejected exactly when the content is blank after trimming or a reply is being generated, and then nothing changes; otherwise the untrimmed user message is appended, the input cleared, `isGenerating` set, and the extended transcript posted |
| ChatBot.StreamedReply | client/src/components/ChatBot.tsx:49-61 | `start` then updates o1 … on leave one new assistant message whose content is o1 + … + on, and the earlier messages untouched |
| ChatBot.StatusKeepsMessages | client/src/components/ChatBot.tsx:29-64 | `loading`, `ready`, `error` and `complete` never touch the transcript |
| ChatBot.RejectedSubmitIsNoOp | client/src/components/ChatBot.tsx:77 | a rejected submission, made again, is rejected again and posts nothing |
| ChatBot.SubmitLocksUntilComplete | client/src/components/ChatBot.tsx:62-81 | after an accepted submission every further one is rejected until `complete`, after which a non-blank one is accepted |
| ChatWorker.InitializeWorker | client/src/lib/chat.ts:21-42 | the slot always ends up holding the returned worker; an existing worker is returned unchanged; a new one is bound to the given callbacks |
| ChatWorker.InitializeOnce | client/src/lib/chat.ts:26-41 | a second call returns the same worker, still bound to the first caller's callbacks |
| ChatWorker.Dispatch | client/src/lib/chat.ts:29-39 | `onUpdate` exactly for `update` with truthy output, carrying that output; `onComplete` exactly for `complete`; otherwise `onStatus` with the status fields copied |
| ChatWorker.DispatchOtherIsStatus | client/src/lib/chat.ts:36-37 | any other status word reaches `onStatus` unchanged |
| ChatWorker.ToEngineMessages | client/src/lib/chat.ts:49-52 | one engine message per transcript message, in order, with role `user` exactly for user messages and the content unchanged |
| ChatWorker.RoleMappingFaithful | client/src/lib/chat.ts:49-52 | the mapping never produces a system message and keeps who spoke and what was said |
| ChatWorker.ToEngineAppend | client/src/lib/chat.ts:49-52 | mapping an extended transcript extends the mapped one |
| ChatWorker.GenerateResponse | client/src/lib/chat.ts:44-54 | posts exactly when a worker exists, and then the mapped transcript |
| ChatWorker.ResetWorker | client/src/lib/chat.ts:56-59 | posts a reset exactly when a worker exists |
| ChatContainer.Initial | client/src/components/ChatContainer.tsx:9-17 | one non-user greeting with id 1; no status, not generating, no reply in progress |
| ChatContainer.HandleSendMessage | client/src/components/ChatContainer.tsx:30-60 | a user message with id length + 1 is always appended; without a status the worker is initialised with this view's callbacks, the status becomes `loading` and nothing is generated; with `ready`, generation is requested on the extended transcript and `isGenerating` is set; any other status changes nothing else |
| ChatContainer.OnStatus | client/src/components/ChatContainer.tsx:42 | a status report sets the status and leaves the transcript, `isGenerating` and the reply in progress alone |
| ChatContainer.OnUpdate | client/src/components/ChatContainer.tsx:43 | an update sets the reply in progress to its text and leaves the transcript, `isGenerating` and the status alone |
| ChatContainer.OnComplete | client/src/components/ChatContainer.tsx:44-53 | appends one non-user message with id length + 1 carrying the captured text, clears the reply in progress and `isGenerating` |
| ChatContainer.Deliver | client/src/lib/chat.ts:29-39 | `complete` runs the completion; everything else leaves the transcript and `isGenerating` alone; an update with output shows that output |
| ChatContainer.ReplayAppendOnly | client/src/components/ChatContainer.tsx:30-60 | over any sequence of sends and worker messages the transcript only grows, never rewrites a message, and every id stays its position |
| ChatContainer.FirstSendOnlyStartsWorker | client/src/components/ChatContainer.tsx:40-55 | the first send from the initial view starts a worker and requests nothing |
| ChatContainer.ReadySendPostsTranscript | client/src/components/ChatContainer.tsx:56-59 | a send while `ready` posts the mapped transcript followed by the new user message |
| ChatContainer.UpdatesOverwrite | client/src/components/ChatContainer.tsx:43 | after two updates only the second text is shown |

## Left out

- Two members of `ChatDB` share the name `getConversations` (`client/src/lib/db.ts:26` and `client/src/lib/db.ts:49`).
  - In a JavaScript class the later definition wins. So as written, every internal read calls the async listing, and the listing calls itself.
  - The model keeps the evident intent instead: `ChatDB.Read` is the private storage read and `ChatDB.List` is the public sorted listing.
- `localStorage` and JSON serialisation are left out. The stored item is the `Storage` value.
- `Date` is left out.
  - One clock input `now` stands for `Date.now()` and both `toISOString()` calls of a create.
  - ISO timestamps are kept as the milliseconds `Date.getTime` recovers.
  - The view's `toLocaleTimeString()` is an opaque `time` string.
- ChatDB.Create: ids are clock readings and can collide, so id uniqueness is not claimed. Lookups are stated for the first match.
- ChatDB.List and PdfProcessor.Selected: the order among equal keys is not stated. Only the permutation and the non-increasing order are.
- The engine's answer to the query request is an input of `PdfProcessor.FindRelevantChunks`: it rejects, resolves without a vector, or resolves with one. A rejection ends the executor before `resolve` (`client/src/lib/pdfProcessor.ts:77`). A missing vector ends it only once the scoring callback runs (`client/src/lib/pdfProcessor.ts:85`), so with no chunks the search still resolves with `[]`.
- `cosineSimilarity` is left out (`client/src/lib/pdfProcessor.ts:99-104`). It is floating point with square roots and gives NaN on zero vectors. Scores are an integer function of the embedding, standing for any totally ordered score.
- PDF text extraction (`client/src/lib/pdfProcessor.ts:35-47`, `client/src/lib/pdfUtils.ts`) is left out. It is foreign, asynchronous I/O. `ProcessPdf` starts from the extracted text.
- Engine calls are inputs rather than modelled: `CreateWebWorkerMLCEngine`, `chat.completions.create` and `embeddings.create`.
  - Creation success and the progress reports are inputs.
  - Acceptance of the request is an input.
  - The streamed chunks are a given sequence.
  - The embeddings are opaque values returned by a function argument, which can also report that the request rejected.
- The abort controller in `sendMessage` is left out. It is created and never used.
- React closure staleness is made explicit rather than resolved.
  - The `messageHistory` that `sendMessage` closes over (`client/src/lib/WebLLMContext.tsx:107`) is the `captured` argument of `WebLLMContext.SendMessage`.
  - The `currentResponse` that the completion callback closes over (`client/src/components/ChatContainer.tsx:47`) is the `captured` argument of `ChatContainer.OnComplete`.
  - Nothing is claimed about later turns seeing the latest history, or about the completed message carrying the streamed text.
- ChatBot.OnMessageReceived: the `update` branch requires a non-empty transcript. As written it would crash on an empty one.
  - It also mutates the last message in place. The model builds the new value instead.
  - Toasts are not modelled.
- The worker implementations are left out: `client/src/lib/worker.ts`, `client/src/lib/webllm.worker.ts` and the Transformers workers. Their messages are the `WorkerEvent` input alphabet.
- The `ChatBot` mount effect is left out. It only creates the worker and posts `check` and `load`.
- Pure UI components, scrolling, GPU checks and asynchronous scheduling are left out. Each event is one atomic transition.
