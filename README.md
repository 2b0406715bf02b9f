# Turn controller of a terminal chat client for a local language model

This project models, in Dafny, the interactive loop of `main.cpp`: a chat
client that loads a GGUF model through llama.cpp, keeps the whole
conversation as one growing text, and on every turn recreates an inference
context, re-tokenizes that text, feeds it to the engine in batches of at
most 2048 tokens, and generates at most 512 tokens of reply, streaming
each piece to the console and cutting the reply where the model starts to
write the next `User:` turn.

The engine is replaced by oracles (module `Engine`): the tokenizer, the
end-of-generation test and the token-to-text rendering form a `Vocab`
fixed for the process; each turn's freshly created context is a `Context`
that says whether creation succeeded, whether each history chunk decoded,
which token the greedy sampler picks at each step and whether feeding that
token back succeeded.

Modules, one per part of `main`:

- `Text`: substring search as `std::string::find` performs it, prefixes,
  concatenation of streamed pieces.
- `Setup`: argument selection and the three-way decision of
  `ensure_model_exists`.
- `StopSequence`: the stop test on the accumulated reply and the offset
  where the reply is cut.
- `Ingestion`: the `llama_batch` arrays (class `Batch`), filling one chunk,
  and the chunked decoding of the history (`Ingest`), with the chunking law.
- `Generation`: the generation loop (`Generate`) proved equal to the
  recursive specification `GenFrom`, and the lemmas about that
  specification.
- `Chat`: the session object holding `conversation_history` and
  `first_run`, one pass of the loop (`Turn`) and the loop itself (`Run`),
  with a ghost transcript of entries that the history text always renders.

## Model

| member | source | states |
|---|---|---|
| Text.Find | main.cpp:208-214 | the result is the first offset where the pattern occurs, and None exactly when it does not occur; it is 0 exactly when the string starts with the pattern |
| Setup.SelectArgs | main.cpp:51-59 | without arguments the path is `models/` followed by the default model name and there is no first prompt; otherwise the path is `argv[1]` and a third argument becomes the first prompt |
| Setup.EnsureModel | main.cpp:17-45 | the check passes iff the file exists; the path is rejected iff it is missing and does not contain the default model name; the process exits iff the path is rejected or the download returned a non-zero status |
| Setup.DefaultPathIsFetchable | main.cpp:51-61 | started without arguments, the path is never rejected, and a missing model with a successful download is fetched |
| StopSequence.StopTest | main.cpp:208-209 | the stop test as computed with `find` fires iff the reply starts with `User:` or contains `\nUser:` anywhere (`StopCheck`) |
| StopSequence.StopOffset | main.cpp:212-215 | the cut offset is within the reply, is 0 when the reply starts with `User:`, is otherwise the first occurrence of `\nUser:`, and the cut reply no longer fires the stop test |
| StopSequence.TruncationRemovesMarker | main.cpp:208-216 | cutting at the offset the source computes leaves a prefix that neither starts with `User:` nor contains `\nUser:` |
| Ingestion.ChunkLen | main.cpp:148-151 | `n_eval` is between 1 and 2048, stays inside the history, and is below 2048 only for the chunk that ends the history |
| Ingestion.Chunks | main.cpp:147-151 | every submitted batch is well formed and holds between 1 and 2048 tokens |
| Ingestion.ChunkAt | main.cpp:148-171 | defines the batch built at offset i: `n_eval` tokens from the history, positions i onwards, sequence id 0, logits only on the history's last token |
| Ingestion.ChunkCount | main.cpp:147-151 | L remaining tokens are submitted in exactly ceil(L / 2048) batches |
| Ingestion.ChunkingLaw | main.cpp:147-171 | the batches concatenated field by field equal the whole history as one batch: tokens in order, positions contiguous from the start offset, sequence id 0 with one id per token, logits on the last token only |
| Ingestion.HistoryIngested | main.cpp:157-171 | slot k of the flattened batches holds history token k at position k and requests logits iff k is the last token |
| Ingestion.Batch.Init | main.cpp:156 | a new batch has five fresh arrays of capacity `n_eval` and no tokens |
| Ingestion.Batch.Fill | main.cpp:157-171 | after filling, the batch holds exactly the chunk that starts at offset i, with its positions, sequence ids and logits flags |
| Ingestion.Ingest | main.cpp:147-182 | ingestion succeeds iff every chunk decodes; on success the submitted batches are all chunks in order; on failure they are a non-empty prefix of the chunks whose last one failed and whose others decoded |
| Generation.GenFrom | main.cpp:188-225 | defines the generation loop from step i: budget check, sampling, end-of-generation exit, piece appended and streamed, stop check and cut, and the decode of the generated token |
| Generation.StreamedPieces | main.cpp:188-204 | the loop only appends pieces, at most 512 of them, and the j-th piece renders the token sampled at step j, which was not an end-of-generation token |
| Generation.StoredReply | main.cpp:203-216 | the stored reply is a prefix of the printed stream and fires no stop test; it equals the printed stream unless a stop matched, in which case it is the stream cut at the stop offset |
| Generation.EndReason | main.cpp:190-225 | the loop ends on an end-of-generation token sampled at the next step, after 512 pieces with the last one decoded, on a failed decode of the last streamed token, or on a stop match |
| Generation.DecodedBeforeEnd | main.cpp:219-224 | every generated token except the last streamed one was fed back to the engine successfully |
| Generation.Generate | main.cpp:187-225 | the imperative loop, using the `find`-based stop test, computes the specification `GenFrom` from an empty reply, streams at most 512 pieces and stores a prefix of them that fires no stop test |
| Chat.IsExitCommand | main.cpp:106 | defines the exit commands as `exit`, `quit` and the empty line |
| Chat.TurnSpec | main.cpp:106-187 | one pass of the loop exits exactly on an exit command and fails for lack of a context exactly when it is not an exit command and creation failed; otherwise tokenization failure, a failed history chunk or the generation result |
| Chat.HistoryAfter | main.cpp:111-229 | the history after a pass extends the history before it, and equals it exactly when the pass exited |
| Chat.TurnResultFacts | main.cpp:106-216 | a pass of the loop exits exactly on `exit`, `quit` and the empty line; a completed turn's reply fires no stop test, is a prefix of the printed stream and has at most 512 pieces |
| Chat.HistoryMatchesTranscript | main.cpp:110-229 | the history after a pass is the rendering of the transcript extended by that pass's entry: nothing on exit, `User: <input>\nAssistant: ` when tokenization, history decoding or context creation failed, that plus `<reply>\n` once generation ran, whichever way it ended (a failed decode of a generated token included) |
| Chat.TurnKeepsWellFormed | main.cpp:106-229 | a pass keeps the transcript free of exit commands and of replies holding a stop marker, and records one entry unless the input was an exit command |
| Chat.Session.constructor | main.cpp:91-92 | a new session has an empty history and has not yet used its first prompt |
| Chat.Session.Turn | main.cpp:106-234 | one pass of the loop yields `TurnSpec`'s result, grows the history as `HistoryAfter` says, keeps the history equal to the rendered transcript, and leaves history untouched exactly on an exit command |
| Chat.Session.ReadInput | main.cpp:98-104 | the line of the next pass is the non-empty first prompt when not yet used (and `first_run` is then cleared), else the next line of standard input, else the empty line that reading past the end yields |
| Chat.Session.Step | main.cpp:95-234 | one pass of the loop reads its line and runs the turn; when it exits or fails to create its context the loop's outcome is fixed, and otherwise the trace of passes that went on grows by one |
| Chat.Session.Run | main.cpp:94-235 | the loop computes `RunFrom` over the lines it reads; it ends at the first `exit`/`quit`/empty line unless a context failed to be created first, every line read before the end is recorded in order, the history and transcript are only appended to, and a non-empty first prompt is used exactly once |
| Chat.Feed | main.cpp:98-104 | the lines read are the unused non-empty first prompt, then the lines of standard input, then one empty line; the last of them is always an exit command |
| Chat.RunStops | main.cpp:94-122 | the loop stops at the first exit command read, unless a context creation failed earlier; it ends with `ContextFailure` exactly when the context of its last pass was not created, and every earlier pass had its context |
| Chat.RunRecordsInputs | main.cpp:98-111 | every pass before the loop ends records the line it read, in the order read |
| Chat.RunKeepsTranscript | main.cpp:111-229 | across the whole loop the history text stays the rendering of a well formed transcript, and both only grow |
| Chat.RunOutcome | main.cpp:94-235 | the loop as a whole: where it stops, the inputs it records, and that history and transcript only grow |
| Chat.StopsAtFirstExit | main.cpp:106-108 | when every pass before the first exit command had its context, the loop ends by the user's exit after exactly the passes before that command |

## Left out

- The llama.cpp engine (model loading, context and sampler creation,
  tokenization, decoding, sampling, end-of-generation test, token
  rendering) is foreign code: each is an oracle of `Engine.Vocab` or
  `Engine.Context`. In particular the sampled token depends on engine state
  the model does not represent; it is indexed by generation step.
- Model download, directory creation, `fs::exists`, the redirection of
  standard error to `log.txt`, console reading and printing: I/O. The
  download's outcome and the existence test are parameters of
  `Setup.EnsureModel`; console lines are the `lines` parameter of `Run`;
  printed output is the `pieces` sequence of a generation result.
- Model load failure (`main.cpp:76-86`) is a fatal exit before the loop
  and is not modelled.
- The length query by negative return of `llama_tokenize` and the sign of
  `llama_token_to_piece`'s result: both depend on library contracts that
  are not part of this model; tokenization is one oracle returning tokens
  or failure, and rendering always yields a string.
- Freeing of batches, samplers and contexts: memory management of foreign
  handles.
- The 32-bit casts of `n_eval` and positions and the 128-byte piece
  buffer: histories and pieces are unbounded here.
- Text is Dafny `string`, a sequence of characters, where `std::string`
  holds bytes and a piece may be part of a UTF-8 sequence: each character
  stands for one byte, so `find`, `substr` and concatenation behave alike.
- Context size and GPU offload parameters, apart from the batch bound 2048.
- The stateful-reset and single-shot variants of the client are not part
  of this model.

## Notes on the code

Three behaviours of the code are worth noting:

- A failed history tokenization or history decode skips the turn, but the
  `User: <input>\nAssistant: ` prefix has already been appended to the
  history (`main.cpp:111`) and stays there.
- A failed context creation ends the whole loop (`main.cpp:119-122`), again
  after the prefix was appended; it does not skip just the turn.
- A failed decode of a generated token comes after that token's piece was
  printed and appended, so the kept reply includes that piece.
