# Onyx engine: a verified model

Onyx serves a language model over HTTP through llama.cpp. This project models
the parts of it where a mistake would go unnoticed: the engine that batches
many requests into one model, the memory it reuses between them, and the text
and number formats around it. Dafny 4.11 verifies all of it:
`dafny verify dfyconfig.toml`.

| module | what it models |
|---|---|
| `KvMemory` | llama.cpp's memory as cells per sequence. A cell carries the cells its row read, so equal cells mean equal outputs, and "computed as if nothing had been cached" is an equation |
| `EngineState`, `Engine` | the slots, queue and shared batch of the engine thread: admission with prefix reuse, batch building, decoding in views, sampling, context shift, failures |
| `Admission` | the queue under concurrency: a state machine over the lock-delimited steps of all threads |
| `Streaming` | stop sequences, holdback and logprob entries while text is streamed |
| `Reasoning` | the reasoning-budget automaton and its rolling tag matcher |
| `Decision` | decision requests: a cache across requests and a copied shared prefix |
| `PromptCut` | cutting decision prompts to their token budgets |
| `Escape`, `Quoting`, `JsonText` | escaping and quoting special spellings; JSON text and the nesting scanner |
| `Answers` | from scores to probabilities, confidences, expected scores and the answer |
| `SystemOne` | the decision handler from end to end: prompts, evaluation, answers |
| `Gguf`, `Base64` | the file the converter writes; base64 |
| `Common` | an option, a result, and a few sequence helpers |

The central statement is the mirror invariant of `Engine.Engine.Inv`: between
ticks, each busy text slot's `cache_tokens` has length `n_past` and its sequence
holds exactly those tokens at their positions, and each idle slot's memory is
its mirror or one of the two is empty. As long as a slot was not shifted since
its sequence was last emptied, its cells are moreover the very cells of
evaluating the tokens from nothing; and as long as a request was not shifted,
those tokens are its prompt and all it has generated. So every output row the
sampler reads then is the row that a cold evaluation of the prompt and the
generated tokens would have produced (`Sound`, `DrawOk`). The invariant holds
after every tick for every choice of sampler, decode result, removal the memory
refuses, and exception, out of the sweep or an admission as out of a decode.

Two statements about whole runs rest on it. A text request that ends without
failure and without a shift has generated exactly the tokens it generates when
it runs alone on an empty memory, whatever else was running, cached or failing
(`OutcomeOk`, `EngineState.RunsAgree`). And no request is lost or finished
twice: through any submissions, cancellations and ticks every accepted request
is queued, running or done, once, and when the engine comes to rest the finished
requests are the accepted ones (`Engine.Engine.Run`, `Engine.Engine.RunToRest`).
`Admission` proves the second at the grain of the locks, with all threads and
the shutdown; `Engine.Engine` proves it of the loop's own code.

llama.cpp and mtmd appear as nondeterministic methods with the contracts the
engine relies on. Each removal or decode the memory refuses is counted
(`KvMemory.Memory.refusals`), so contracts can say that a prefix is reused, a
context shifted or a prompt answered unless it was refused. The sampler is an arbitrary function of the request, the output
row and the tokens drawn before, which may throw; what the model's heads compute
from an output row is an arbitrary function too.

Where the code does less than one would expect, the exact condition is proved:
for a memory that prunes to a window, the test of a prefix refuses every one
shorter than the window less one (`EngineState.TestAcceptsCovered`,
`EngineState.ShortPrefixIsRefused`; not reached as shipped, where `load()` keeps
the full sliding-window cache and `n_swa_` is 0), the tag matcher is exact only for tags that
pass a check on the tag (`Reasoning.MatcherIsExactIffSafe`), and quoting may
leave a listed spelling exactly when the list of spellings passes a finite check
(`Quoting.LeftIffExposed`, for spellings without a backslash;
`Quoting.BackslashMayComplete` shows what one can do). The comment above the laya
cut promises question and options within `max_head_tokens`; the code keeps to it
exactly under the condition on their lengths in `PromptCut.HeadFitsIff`, and
`PromptCut.HeadMayNotFit` gives, for any number of options, a prompt that goes
over.

## Model

| member | source | states |
|---|---|---|
| KvMemory.NewCellIsCold | src/engine.cpp:913-935 | a row decoded on top of cells that are a cold evaluation of the tokens before it reads exactly what it would read with no cache |
| KvMemory.FeedStaysPristine | src/engine.cpp:1003-1018 | feeding the next tokens, in any number of rows, keeps a sequence equal to the tail of a cold evaluation of all its tokens, and covering what the next row reads |
| KvMemory.LastFedIsCold | src/engine.cpp:1061-1084 | the output row of the last token fed is the last row of evaluating all the tokens from an empty memory |
| KvMemory.FeedMirrors | src/engine.cpp:971-980 | rows at the next positions keep cells and token list in step, whatever the cells were computed from |
| KvMemory.EvictionMirrors | src/engine.cpp:924-935 | a memory that forgets cells no later row can read still mirrors the tokens and stays pristine; full attention forgets nothing |
| KvMemory.BetweenIsSlice | src/engine.cpp:934-935 | cutting contiguous cells back by position is cutting the list of cells, for any bounds |
| KvMemory.WithoutIsSplice | src/engine.cpp:1342-1345 | removing a range of positions removes exactly that stretch of the list of cells |
| KvMemory.Memory.Decode | src/engine.cpp:1037-1059 | llama_decode as the engine relies on it, of at most n_batch rows: 0 appends the rows per sequence, 1 changes nothing, anything else leaves untouched only the sequences not in the view; every result but 0 counts as a refusal |
| KvMemory.Memory.SeqRm | src/engine.cpp:934-942 | whole sequences always go; anything less is removed exactly or refused, which is counted, with nothing changed; a recurrent state is cut only to a position it has the state of |
| EngineState.TestAcceptsCovered | src/engine.cpp:924-935 | llama-server's position test accepts a prefix exactly when the memory holds everything the first new row reads and the prefix is at least the window less one |
| EngineState.ShortPrefixIsRefused | src/engine.cpp:924-935 | every prefix shorter than the window less one is refused even by a windowed memory that still holds all tokens |
| EngineState.CutBackHolds | src/engine.cpp:930-940 | a sequence that passes the test and is cut back holds exactly the prefix, pristine if it was, with everything its next row reads |
| EngineState.FullSlotDiscards | src/engine.cpp:1329-1340 | for every n_keep and prompt length a full slot has something to drop exactly when its context is at least 2; from context 4 up it drops at least 2 cells, after at most n_ctx - 4 kept ones, and a tail stays |
| EngineState.KeptIsShifted | src/engine.cpp:1329-1352 | a shift keeps the first n_keep tokens, the whole prompt for a negative n_keep, and one more with a BOS, as far as n_ctx - 4 allows, and of the rest drops the older half, rounded down, and nothing else |
| EngineState.ShiftHolds | src/engine.cpp:1342-1352 | after a shift the memory holds the kept head and every later token, in order, at contiguous positions |
| EngineState.PushKeepsAll | src/engine.cpp:964-1018 | putting one row into the batch keeps the mirror of every slot, the rows not yet decoded included |
| EngineState.DecodeBacks | src/engine.cpp:1037-1088 | decoding a view takes its rows off what is pending and leaves every slot backed by its cells |
| EngineState.ViewOutputIsCold | src/engine.cpp:1071-1084 | the output row at index i_batch - off of a decoded view is the last row of a cold evaluation of the tokens of the slot it belongs to |
| EngineState.DecodeStartsSampling | src/engine.cpp:1061-1084 | a view that decoded leaves every slot with a row in it ready to be sampled from that row, and every other slot as it was |
| EngineState.ViewsSampleOnce | src/engine.cpp:1024-1088 | when the views of a batch follow each other without gap or overlap and each sampled the slots of its logits rows, every logits row of the batch was sampled exactly once, for its slot |
| EngineState.AllVisited | src/engine.cpp:1072-1084 | when the loop over the slots is done, each logits row of the view was sampled exactly once, at its index in the view, and no other row was |
| EngineState.PendingRowsAreBusy | src/engine.cpp:1024-1088 | whatever was sampled and finished in earlier views, every row still to be decoded belongs to a busy slot |
| EngineState.AfterDecodeRows | src/engine.cpp:964-993 | once the decode rows are in, what is left is as many prefilling slots as before, and some slot is busy exactly when some slot generates or prefills |
| EngineState.RoomShrinks | src/engine.cpp:958-1019 | if no slot gains room and one loses some, the room of all slots together gets smaller; room counts positions, or with context shift prompt tokens and draws |
| EngineState.EndingTakesRoom | src/engine.cpp:706-720 | a busy slot that becomes idle loses room, so ending a request is progress too |
| EngineState.BusyHasRoom | src/engine.cpp:958-1019 | no slot has negative room, and a settled busy slot whose request ends by itself has some |
| EngineState.TickTakesRoom | src/engine.cpp:686-741 | the slots of a tick that served nothing from the queue have less room after it, whether it released, decoded or failed |
| EngineState.LengthOutcome | src/engine.cpp:1186-1197 | with shift off, a text request that ends by length has generated exactly min(n_predict, n_ctx_slot - n_prompt) tokens, the second term when n_predict is negative, and they are those it generates alone |
| EngineState.DrawSettles | src/engine.cpp:1259-1260 | a drawn token is appended to those of the request and is the one decoded next, and the slot is settled with it |
| EngineState.DrawIsAlone | src/engine.cpp:1176-1274 | the token drawn from the row offered to a text slot that was not shifted is the next one its request draws when it runs alone on an empty memory |
| EngineState.RunsAgree | src/engine.cpp:1176-1274 | a text request that ended without failure and without a shift generated the same tokens in any two runs, as far as both went: those of running alone, whatever else ran, was cached, cut back or failed |
| EngineState.PushKeepsPhase | src/engine.cpp:964-1018 | with the row of the last token drawn, or of the last prompt token, in the batch, the slot stands for its prompt and everything generated |
| EngineState.WaitingHas | src/engine.cpp:775-807 | a queued request stays in the queue exactly when it was not judged to go |
| EngineState.WaitingInOrder | src/engine.cpp:775-807 | and those that stay keep their order |
| EngineState.AgreementIsShared | src/engine.cpp:853-865 | two token lists agree up to any index up to the counted agreement |
| EngineState.SlotFollows | src/engine.cpp:1367-1424 | a slot that keeps its request, or ends it with one outcome, leaves every request as often waiting, running or done, in all, as it was |
| EngineState.SeatFollows | src/engine.cpp:881-953 | so does moving the head of the queue to an idle slot |
| EngineState.SweepFollows | src/engine.cpp:775-818 | so does the sweep |
| EngineState.FailedFollows | src/engine.cpp:1043-1059 | so does failing every busy slot |
| Engine.Batch.Add | src/llama_util.cpp:67-78 | appends one row to the parallel arrays and nothing else |
| Engine.Engine.constructor | src/engine.cpp:137-332 | a loaded engine has empty sequences, idle slots and an empty queue, and meets the invariant |
| Engine.Engine.ContextShift | src/engine.cpp:1326-1356 | done exactly when the context is at least 2 and the memory refuses nothing, else nothing changes; the slot keeps its head, of the length n_keep asks for, and the newer half of the rest, memory and mirror alike |
| Engine.Engine.MoveDown | src/engine.cpp:1347-1350 | the in-place loop leaves exactly the kept head followed by everything after the dropped stretch |
| Engine.Engine.Finish | src/engine.cpp:1367-1424 | releases the slot with its mirror still right and the time it became idle, records one outcome with the given reason and failure and what the slot generated, and lowers the gauge by one |
| Engine.Engine.FailSlot | src/engine.cpp:1049-1057 | sequence and mirror of the slot are emptied together, the slot is released and its request gets one outcome, a failure |
| Engine.Engine.WithinLimits | src/engine.cpp:1186-1197 | goes on exactly with tokens left to generate and a position free in the context, or freed by a shift that is allowed and not refused; otherwise the request ends by length, without failure |
| Engine.Engine.SampleSlot | src/engine.cpp:1176-1274 | at most one token is drawn, from the row at tok_idx, which in a clean text slot is the row of a cold evaluation of the prompt and all tokens generated so far, and is recorded with that row; a slot that stays busy and did not throw has exactly one token more; the request keeps its slot, which is below its limits, or ends with one outcome: by length exactly when it had all its tokens or its context stayed full, then with nothing drawn and no failure, otherwise by stop, with one token more unless it failed; the slot is settled after, or, if the sampling threw, busy with its mirror right |
| Engine.Engine.PickSlot | src/engine.cpp:842-879 | an idle slot with the longest reusable prefix, least recently used among equals; none exactly when all are busy |
| Engine.Engine.SharedPrefix | src/engine.cpp:849-868 | the longest common prefix, less than the prompt, 0 if whole-sequence memory cannot keep all of it |
| Engine.Engine.TrimToPrefix | src/engine.cpp:913-946 | the slot keeps the shared prefix of its prompt, held with everything the next row reads, exactly when reuse asks for it, the memory can serve it and refuses nothing; otherwise the sequence is empty |
| Engine.Engine.CutBack | src/engine.cpp:924-940 | accepted exactly when the memory can serve the prefix and does not refuse, with memory and mirror equal after; a stale mirror over an emptied sequence is never reused |
| Engine.Engine.Admit | src/engine.cpp:881-953 | the request gets the slot with at least one prompt token left to evaluate, or ends in it with one outcome, and every slot stays settled; an exception leaves no other slot changed |
| Engine.Engine.AdmitQueued | src/engine.cpp:820-956 | the queue is swept, then served from its head, in order, until it is empty, every slot is busy or an admission throws; each request that left the queue has a slot or its one outcome, and busy slots are not touched |
| Engine.Engine.SweepQueue | src/engine.cpp:775-818 | exactly the requests that were cancelled or waited too long leave the queue, each with its outcome, Cancel for the first and a failure for the others, and who waits keeps the order |
| Engine.Engine.ServeHead | src/engine.cpp:824-953 | the head waits exactly when it was not given up and every slot is busy; given up, it leaves the slots alone and gets its outcome; otherwise the best idle slot gets it, or ends it at once |
| Engine.Engine.PrefillMedia | src/engine.cpp:1104-1172 | a media prompt fills some positions, fails with its outcome, or throws out of mtmd or the sampling; it keeps no mirror, and unless it throws its slot is settled |
| Engine.Engine.BuildBatch | src/engine.cpp:958-1019 | has rows exactly when some slot is busy, one row per generating slot, at most n_batch in all and at most max(tick_tokens, decode rows + 1) when a budget is set and a slot prefills; what the budget leaves is shared evenly: each prefilling slot gets what is left of its prompt up to the largest even share, but one row, and less only if the batch is full by then |
| Engine.Engine.AddDecodeRows | src/engine.cpp:964-981 | one logits row for the token each generating slot sampled, and no other change |
| Engine.Engine.AddPromptRows | src/engine.cpp:1003-1018 | at least one prompt token in all whenever a slot prefills, none past the budget |
| Engine.Engine.AddChunk | src/engine.cpp:1007-1017 | exactly the smallest of the prompt left, the slot's share and the rows left |
| Engine.Engine.DecodeSome | src/engine.cpp:1024-1042 | halving stops: some rows are decoded from the offset on, or, after a refused decode, every request that ran has failed |
| Engine.Engine.DecodeView | src/engine.cpp:1027-1088 | 0: the rows are decoded, each slot with a logits row in the view is sampled once from it, and each that ended has one outcome of the right reason; 1 on more than one row: nothing changed; anything else, which only a refused decode leads to: every slot that was busy lost sequence, mirror and request, which got its outcome, and the others are as they were; no request is lost |
| Engine.Engine.DecodeBatch | src/engine.cpp:1021-1091 | terminates; on success the views follow each other over the whole batch, the memory was fed exactly its rows in order, and each view sampled once every slot with a logits row in it; on failure every slot busy at the failing decode lost sequence, mirror and request; the mirror invariant holds after both, and no request is lost |
| Engine.Engine.SampleView | src/engine.cpp:1071-1084 | each slot whose logits row is in the view is sampled once, at index i_batch - off, and no other slot; each that ended, and no other, has one outcome, by length at a limit and otherwise by stop; what throws out of the sampling fails that request alone |
| Engine.Engine.FailAll | src/engine.cpp:1043-1059 | after a failed decode every slot that was busy is released without cells and mirror, its request gets one outcome, a failure with what it had generated, and the others are as they were |
| Engine.Engine.TickFailed | src/engine.cpp:730-741 | from any state in the middle of a tick the memory is emptied and every busy request fails with one outcome; idle slots keep their stale mirror and the invariant still holds |
| Engine.Engine.ReleaseCancelled | src/engine.cpp:706-720 | exactly the slots whose caller gave up are released, in order, each with its outcome, Cancel with what it had generated and no failure, and nothing else changes |
| Engine.Engine.Tick | src/engine.cpp:686-741 | the mirror invariant holds after every tick, whatever decodes, samplers and exceptions do, the sweep and admission included; every request that waited, ran or was done still does, once, and what was drawn and finished stays recorded; a tick with anything to do shortens the queue or uses up room, if context shift is off or every request has a limit, unless its sweep threw |
| Engine.Engine.Drain | src/engine.cpp:686-741 | with no new submissions, context shift off or every request limited, and finitely many sweeps that throw, the loop ends with the queue empty and every slot idle, and each request that waited or ran has exactly one new outcome |
| Engine.Engine.Run | src/engine.cpp:686-741 | through any submissions, cancellations and ticks, in any order, every accepted request is queued, running or done, and once |
| Engine.Engine.RunToRest | src/engine.cpp:686-741 | when a fresh engine comes to rest after any of them, the finished requests are exactly the accepted ones, each finished once |
| Engine.Engine.Submit | src/engine.cpp:492-556 | a request is queued behind all others exactly when its prompt, an empty one as the BOS token, fits its slot and is of the vocabulary, its sampler can be built and the queue is not full |
| Decision.FirstReadIsLeast | src/decision.cpp:91-102 | the position returned is read and is the least one read, and -1 exactly when none is |
| Decision.PosFirst | src/decision.cpp:91-102 | the loop computes that position |
| Decision.ReadsFindTheirRows | src/engine.cpp:1481-1536 | every position read lies in the last batch, at index position - out_from, in a row whose output was asked for |
| Decision.UnreadableIff | src/engine.cpp:1512-1576 | an evaluated prompt has no scores exactly when it reads embeddings and its column is out of range, or it asks for joint scores that it has too few rows for or whose rows it did not ask for |
| Decision.CutBackIsPristine | src/engine.cpp:1443-1450 | cutting the cached prefix back leaves exactly the cells of evaluating the shorter prefix alone |
| Decision.ChunkStaysPristine | src/engine.cpp:1481-1502 | a chunk decoded after a pristine prefix leaves the sequence as a cold evaluation of both |
| Decision.ChunkOutputIsCold | src/engine.cpp:1508-1510 | the output rows of the last chunk are the rows of that cold evaluation, in order |
| Decision.SharedLength | src/engine.cpp:1880-1900 | the longest prefix that all prompts share while each keeps a token, and everything it reads, for itself |
| Decision.ScoresAreRead | src/engine.cpp:1512-1576 | without groups label k has its logit in the last row; with groups, score g bounds the logits of its consecutive labels and is one of them; without labels the joint scores come first, one per row, then for each marker the column of its row, or the dot product of the first half of the pointer row with the second half of that row, scaled |
| Decision.LabelsHaveTheirLogits | src/engine.cpp:1512-1524 | so without groups score k of an answered prompt is the logit of label k in the last row of evaluating the prompt alone |
| Decision.GroupScores | src/engine.cpp:1524-1532 | the largest score of each consecutive group of labels |
| Decision.Decider.Reuse | src/engine.cpp:1432-1452 | sequence 0 and the cache are cut to one common prefix of cache and prompt, as long as the cache, prompt and limit allow; shorter only, and then empty, when reuse is off or the memory refused |
| Decision.Decider.EvalRange | src/engine.cpp:1481-1506 | in chunks the memory takes, at most n_batch rows each, up to the first row read and then in one batch, the sequence becomes a cold evaluation of the prompt, its last batch the rows from the first read on, asked for as they are read; the other sequence is not touched |
| Decision.Decider.Read | src/engine.cpp:1512-1576 | what the loops read from the batch is each label's logit or its group's largest, the joint scores and each marker's column or dot product, of the rows they belong to; None if a row is missing or was not asked for, or the column is out of range |
| Decision.Decider.Eval | src/engine.cpp:1458-1510 | scores are those of the prompt evaluated alone, label by label, group by group and marker by marker; the batch is reported too small exactly when what is read does not fit it, an unreadable prompt only if it has no scores alone, and a refusal only if the memory refused |
| Decision.Decider.DecideShared | src/engine.cpp:1902-1925 | running each prompt on a copy of the shared prefix gives every prompt the scores it has alone |
| Decision.Decider.DecideEach | src/engine.cpp:1927-1957 | so does running them one after another on whatever prefix is cached |
| Decision.Decider.EvalMediaPrompt | src/engine.cpp:1585-1790 | after a media prompt, read or failed, sequence 0 and the cache are still equal |
| Decision.Decider.Decide | src/engine.cpp:1837-1958 | for any earlier requests, sharing or not, and any failures: sequence 0 holds the cache and sequence 1 is empty on every return; on success every text prompt has the scores of being evaluated alone, label k the logit of label k; a request is refused up front exactly when a prompt is empty, too long or has a bad label, and fails later only for a prompt that reads more than a batch, has no scores even alone or has media, or because the memory refused |
| Streaming.FindIsFirst | src/engine.cpp:1290-1296 | the search finds the first occurrence at or after a position, and fails only without one |
| Streaming.StopHoldback | src/engine.cpp:379-391 | exactly the length of the longest end of the text that starts some stop sequence |
| Streaming.MatchIsUnsent | src/engine.cpp:1276-1311 | a stop sequence completed by a new piece starts at or after what was sent |
| Streaming.WindowedSearchIsFull | src/engine.cpp:1290-1296 | the windowed search finds the same match as a search of the whole text |
| Streaming.SentIsNeverTrimmed | src/engine.cpp:1276-1322 | whatever tokens follow, the text sent so far is a prefix of the final text |
| Streaming.Stream.OnSampled | src/engine.cpp:1276-1322 | over any run of tokens the text is what a plain search of the whole text after each token would leave; with logprobs the entries are those before and the token's, all of them while it runs and on a stop the longest start of them that fits the text; while it runs exactly the longest end that starts a stop sequence is held back; when it ends, the pieces sent add up to exactly the result text and every undelivered entry has no text |
| Streaming.Stream.FirstMatch | src/engine.cpp:1290-1311 | the first listed stop sequence that occurs wins, at its first occurrence |
| Streaming.Stream.CollectDelivered | src/engine.cpp:453-467 | hands out, in order and once, exactly the entries whose text is sent in full |
| Streaming.Stream.Emit | src/engine.cpp:1358-1365 | appends the text and entries to what was delivered, which never shrinks |
| Streaming.Stream.Finish | src/engine.cpp:1393-1399 | on a normal finish all text is delivered and only entries without text are not; a cancelled or failed request gets nothing more |
| Streaming.Stream.TrimProbs | src/engine.cpp:1297-1308 | trimming to the stop position keeps the longest start of the entries whose text fits, and so every delivered one |
| Streaming.UndeliveredAreEmpty | src/engine.cpp:453-467 | once all text is sent, an entry that was not delivered has an empty text |
| Streaming.LegacyOffsets | src/server.cpp:255-279 | a frame's offsets are where its entries' texts start, and the next frame starts where they end |
| Streaming.ThreadingIsOneCall | src/server.cpp:255-279 | threading the offset frame by frame gives the offsets of one call on all entries |
| Reasoning.RollIsSound | src/engine.cpp:1232-1254 | the rolling matcher never reports a tag that is not there, and its progress is always a real partial match |
| Reasoning.RollIsComplete | src/engine.cpp:1232-1254 | for a safe tag it finds the tag exactly when the stream holds it, and its progress is the longest partial match |
| Reasoning.UniqueFirstTokenIsSafe | src/engine.cpp:1232-1254 | a tag whose first token does not recur in it is safe |
| Reasoning.UnsafeTagIsMissed | src/engine.cpp:1243-1253 | every other tag that can lose a partial match has a stream that holds it and in which it is not found |
| Reasoning.MatcherIsExactIffSafe | src/engine.cpp:1232-1254 | the matcher is right on every stream exactly for the tags that pass a check on the tag alone |
| Reasoning.Automaton.Next | src/engine.cpp:1199-1257 | the per-token code is the step of the automaton |
| Reasoning.ForcingEmits | src/engine.cpp:1210-1221 | once forcing, the next tokens are the rest of the forced ones in a row, then sampled ones for good |
| Reasoning.CountingOutput | src/engine.cpp:1199-1257 | inside the block: at most budget sampled tokens, then, if it is not closed, exactly the forced tokens, and nothing is ever forced again |
| Reasoning.RequestOutput | src/engine.cpp:1199-1257 | over any token stream a request has at most one such splice, after the first match of the start tag |
| Admission.StepKeeps | src/engine.cpp:686-890 | every step of every thread keeps the invariant, an exception in the middle of admission included |
| Admission.RunIsSafe | src/engine.cpp:686-890 | so it holds under every interleaving |
| Admission.OnePlace | src/engine.cpp:540-556 | each accepted request is in exactly one of queue, hand-over, slot and finished, and once |
| Admission.FinishedForGood | src/engine.cpp:1416-1423 | what is finished stays finished, in order, and is not finished again |
| Admission.EraseMoves | src/engine.cpp:802-807 | erasing by identity moves exactly the judged requests out of the queue |
| Admission.PoppedIsPeeked | src/engine.cpp:824-890 | the request popped is the one that was peeked and matched to a slot |
| Admission.FirstInFirstOut | src/engine.cpp:874-890 | admissions follow submission order, and no admitted request is younger than a waiting one |
| Admission.GaugesAreRight | src/engine.cpp:540-556 | requests_processing is the number of busy slots, and the queue keeps a positive limit |
| Admission.StoppedMeansFinished | src/engine.cpp:744-766 | after shutdown exactly the requests accepted before the queue was swapped out are finished, and the later ones stay in it |
| Admission.FailedTickFreesAll | src/engine.cpp:730-741 | when a failed tick is over every slot is free, and each accepted request is finished or still queued |
| Gguf.ReadValueOf | scripts/convert-safetensors.py:190-214 | a reader gets back every metadata value, nested arrays included, from its bytes |
| Gguf.ReadKvsOf | scripts/convert-safetensors.py:268-271 | all metadata entries read back in order, whatever follows them |
| Gguf.ReadInfosOf | scripts/convert-safetensors.py:273-279 | all tensor records read back in order, whatever follows them |
| Gguf.RoundTrip | scripts/convert-safetensors.py:253-284 | a version 3 reader recovers every key, type, value and tensor record and finds the data at the aligned end of the header |
| Gguf.OffsetsAreApart | scripts/convert-safetensors.py:254-260 | offsets are multiples of 32 and no tensor reaches into the next |
| Gguf.DataFrom | scripts/convert-safetensors.py:286-298 | the writing loop puts the data of tensor i where its offset says |
| Gguf.TensorInFile | scripts/convert-safetensors.py:253-298 | at the start and offset a reader computes stand exactly the bytes of that tensor |
| Gguf.SwappedAt | scripts/convert-safetensors.py:289-292 | the element of swapped coordinates (h, y, x, c) is the one of coordinates (h, x, y, c) |
| Gguf.SwapBack | scripts/convert-safetensors.py:289-292 | swapping back restores the array, so the reordering is a bijection |
| Gguf.ReorderedPairs | scripts/convert-safetensors.py:289-292 | in each head, stored rows 2j and 2j + 1 are rows j and half + j |
| Gguf.StoredAt | scripts/convert-safetensors.py:293-295 | element k takes four or two bytes at k times that width |
| Gguf.Writer.Write | scripts/convert-safetensors.py:253-298 | the file starts with GGUF, version 3 and both counts, lowest byte first; a reader gets the metadata back and for each tensor a record of its name, its shape from the last axis to the first, [1] for none, its type and an offset, the data following each other padded to 32 and nothing more; an error is raised exactly when a value does not fit its field or a query or key tensor has the wrong number of rows |
| Gguf.Convert | scripts/convert-safetensors.py:459-510 | a reader of the converted file gets every metadata entry back and a record for each tensor as the writer promises, and finds its bytes where the record says; an error exactly as for the writer |
| PromptCut.MarkersOfIsExact | src/decision.cpp:1374-1379 | the recorded list is exactly the positions of the marker, ascending |
| PromptCut.GivenIsThePrompt | src/decision.cpp:1381-1403 | the parts found are the prompt, nothing lost or repeated |
| PromptCut.PartsAreGiven | src/decision.cpp:1374-1403 | and the parts a prompt is made of are the ones found in it |
| PromptCut.MarkersSurvive | src/decision.cpp:1370-1424 | after any cut the markers stand exactly at the recorded positions, one per option |
| PromptCut.UnchangedIffWithinLimits | src/decision.cpp:1404-1414 | the prompt is left as it is exactly when no option and no question is over its limit |
| PromptCut.PartsAreCut | src/decision.cpp:1404-1424 | every option keeps its first tokens, at most max_option_tokens + 1, and where that leaves less than 16 of max_head_tokens at most the largest even share of the rest, but four; the question keeps its first tokens, as many as the options leave of max_head_tokens, but eight; nothing else changes |
| PromptCut.HeadFitsIff | src/decision.cpp:1404-1414 | question and options keep to max_head_tokens exactly when the options, at most max_option_tokens + 1 each, leave 16 tokens over, or, at most the shared number each, leave room for eight tokens of the question or all of it |
| PromptCut.HeadFits | src/decision.cpp:1404-1414 | they do whenever max_head_tokens has four tokens per option and 16 over, and never take more than it or four per option and eight |
| PromptCut.HeadMayNotFit | src/decision.cpp:1370-1424 | for any number of options there is a prompt of the right layout whose question and options take four tokens more than max_head_tokens |
| PromptCut.FillLaya | src/decision.cpp:1370-1424 | fails exactly on another layout, and otherwise gives the parts of the prompt so cut, with the places of the markers |
| PromptCut.D1Fits | src/decision.cpp:1457-1519 | text and media never exceed their limits |
| PromptCut.D1CutsTheState | src/decision.cpp:1513-1519 | only the state is cut when what surrounds it fits, and only by what does not fit; otherwise it goes first |
| PromptCut.D1Limits | src/decision.cpp:1457-1500 | the text may take 16384 tokens, or with media what they leave of it up to 896 for images and 15360 for audio; the question gets 24 tokens per option and 32, up to half the text, but 96; an option the largest even share of that with three more tokens each, but two; each keeps its first tokens, and other pieces all of theirs |
| PromptCut.PieceStands | src/decision.cpp:1478-1511 | the pieces are joined in order: each stands whole, as cut, right after what those before it leave |
| PromptCut.OptionsShareTheBudget | src/decision.cpp:1468-1500 | n option texts take at most the budget less three tokens each, or two each |
| PromptCut.D1MarkersLieInTheText | src/decision.cpp:1521-1531 | the recorded positions are exactly the marker rows after the media |
| PromptCut.FillD1omni | src/decision.cpp:1457-1531 | succeeds only with one state and one marker per option, and names which failed otherwise |
| Escape.EscapeSpecialTokens | src/decision.cpp:711-735 | the scan with find() equals leftmost non-overlapping replacement |
| Escape.NoneIsLeft | src/decision.cpp:711-735 | the result contains no special-token spelling, at any place and with any name |
| Escape.EscapingIsIdempotent | src/decision.cpp:711-735 | escaping twice is escaping once |
| Escape.UnchangedIffUnspelled | src/decision.cpp:711-735 | a text is left as it is exactly when nothing is spelled in it |
| Escape.OnlyBarsAreBroken | src/decision.cpp:711-735 | the result differs from the text only in bars that became broken bars: with every broken bar read as a bar the two are equal |
| Quoting.Quoter.H2oQuote | src/decision.cpp:965-989 | the loop quotes, at each place, the first listed spelling that stands there |
| Quoting.QuoteLeavesNone | src/decision.cpp:965-989 | the result never contains a listed spelling that begins with an angle bracket and has no backslash |
| Quoting.LeftIffExposed | src/decision.cpp:965-989 | a listed spelling without a backslash is left in the output of some text exactly when the list passes a finite check: what quoting some spelling leaves at its end starts it, and the rest goes through |
| Quoting.AngledIsNotExposed | src/decision.cpp:965-989 | a spelling without angle brackets always passes that check, one that begins with an angle bracket never does |
| Quoting.OutputIsInput | src/decision.cpp:965-989 | as long as the output shows no backslash it is the input |
| Quoting.LongestIsQuoted | src/decision.cpp:354-371 | of the spellings that stand at a place the longest is quoted |
| Quoting.UnangledIsKept | src/decision.cpp:965-989 | a text without angle brackets, and so a spelling without them, goes through unchanged |
| Quoting.BackslashMayComplete | src/decision.cpp:965-989 | with a backslash in a spelling, quoting one may write another |
| JsonText.NextOfUtf8 | src/decision.cpp:771-783 | on well-formed UTF-8 each step reads one code point and its whole encoding |
| JsonText.Utf8Next | src/decision.cpp:771-783 | the accumulating loop computes that code point |
| JsonText.StrReadsBack | src/decision.cpp:858-884 | every byte string written without ensure_ascii is read back by section 7 of RFC 8259 |
| JsonText.AsciiStrReadsBack | src/decision.cpp:814-884 | with ensure_ascii every well-formed UTF-8 string is, surrogate pairs included |
| JsonText.WriteStr | src/decision.cpp:858-884 | the loop appends exactly that text |
| JsonText.Dump | src/decision.cpp:886-932 | the recursive writer appends exactly the text of the value, at any indent and separators, which reads back |
| JsonText.TextReadsBack | src/decision.cpp:886-932 | a reader of sections 2 to 7 of RFC 8259 gets the value back from its text and leaves what follows, at any level and indent, with any white space in the separators, if its numbers are printed in JSON's characters and, with ensure_ascii, its strings are well-formed UTF-8 |
| JsonText.DumpReadsBack | src/decision.cpp:886-932 | so a dumped text is read as the value it was dumped from, with nothing left |
| JsonText.NestingDepth | src/http_util.cpp:190-232 | the byte loop is the scanner |
| JsonText.RunStr | src/http_util.cpp:190-232 | a written string, whatever it contains, leaves the scanner as it was |
| JsonText.NestingDepthIsDepth | src/http_util.cpp:190-232 | the scanner's answer for a dumped value is the depth of the value, with any separators free of quotes and brackets |
| Answers.Flatten | src/server.cpp:1226-1243 | variant v of question k is prompt number (prompts of earlier questions) + v |
| Answers.Regroup | src/server.cpp:1252-1272 | each question gets its own scores back, or its slice of the joint result; refused exactly when the joint result is too short |
| Answers.AnswerEach | src/server.cpp:1226-1272 | whatever the prompts are answered, each question is given the answers to its own variants |
| Answers.SlicesCover | src/server.cpp:1258-1266 | the slices of a joint result are consecutive and lose nothing |
| Answers.RealignedToOptions | src/decision.cpp:1186-1214 | a score at label j of the reversed variant goes to the option shown there |
| Answers.SoftmaxIsDistribution | src/decision.cpp:1745-1751 | for any positive exponential and any temperature but 0 the outputs are non-negative and sum to 1 |
| Answers.SoftmaxFollows | src/decision.cpp:1745-1751 | for an increasing exponential and a positive temperature, probabilities are ordered as the scores, equal ones exactly for equal scores |
| Answers.SoftmaxRatio | src/decision.cpp:1745-1751 | for a multiplicative exponential, p[i] == p[j] * e((logits[i] - logits[j]) / t) |
| Answers.MixIsDistribution | src/decision.cpp:1752-1756 | so do the averages over the variants, after realignment |
| Answers.MixIsAverage | src/decision.cpp:1752-1756 | times the number of variants, each is the sum of what the variants give the option, every variant after the first showing the options in reverse |
| Answers.Probabilities | src/decision.cpp:1712-1757 | the loops compute the average of the softmaxes of the variants' scores, biased for score questions only, or report wrong counts and missing scores, and nothing else fails |
| Answers.FormatAnswer | src/decision.cpp:1712-1803 | the answer names the first most probable option, which with one variant is the first of largest score, the expected score or the probability of true, of the average of the softmaxes of the scores; each number, the confidences included, is what those probabilities say and lies on its scale; it fails exactly on wrong counts or missing scores |
| Answers.OrderCancels | src/decision.cpp:1073-1079 | when options score alike wherever they are shown, two orders answer what one would |
| Answers.ChoiceConfidenceRange | src/decision.cpp:1660-1667 | in [0, 1], 1 exactly for a certain answer and 0 exactly for a uniform one |
| Answers.ScoreConfidenceRange | src/decision.cpp:1669-1684 | in [0, 1], and 1 exactly for a certain answer |
| Answers.ScoreIsOnTheScale | src/decision.cpp:1788-1798 | the expected score lies in [0, n - 1] |
| Answers.RatingIsAProbability | src/decision.cpp:1761-1769 | lev's expected rating lies in [0, 1] |
| SystemOne.Handle | src/server.cpp:1226-1272 | if the request is answered, each question is answered from the average softmax of what its own prompts, or its slice of the joint prompt, score when evaluated alone, whatever was shared or cached; an invalid prompt among them is refused with nothing changed; a refusal is reported only if the memory refused |
| SystemOne.ChoiceIsLargest | src/server.cpp:1226-1272 | so a choice question with one variant is answered with its first option of largest score |
| Base64.RoundTrip | src/http_util.cpp:91-138 | decoding what was encoded gives the bytes back |
| Base64.EncodedLength | src/http_util.cpp:125-138 | the length is 4 * ceil(n / 3) |
| Base64.GroupIsSpelled | src/http_util.cpp:125-138 | each group of three bytes, missing ones zero, is four letters of the RFC 4648 table, six bits each from the highest down, = standing for no byte |
| Base64.Base64Encode | src/http_util.cpp:125-138 | the loop computes the encoding |
| Base64.Base64Decode | src/http_util.cpp:91-119 | the loop with its four-element buffer decodes the longest prefix of alphabet characters |
| Base64.SextetsAreThePrefix | src/http_util.cpp:91-119 | what is decoded is exactly the longest prefix of alphabet characters |
| Base64.DependsOnThePrefix | src/http_util.cpp:91-119 | nothing from the first other character on changes the result |
| Base64.EmbeddingBase64 | src/http_util.cpp:142-152 | the text is the encoding of the words' bytes, lowest first |
| Base64.EmbeddingReadsBack | src/http_util.cpp:142-152 | a client that decodes it and reads little-endian words has the vector that was sent |

## Left out

- llama.cpp, ggml and mtmd internals: `KvMemory.Memory` states what the engine relies on; that llama.cpp meets it is not proved here.
- The cells a media prompt leaves: positions of media slots are counted, their contents and M-RoPE positions are not modelled.
- The sampler chain and grammars: in a text slot a draw is some function of the request, its seed included, the output row and the tokens drawn before, or an exception; in a media slot it is any token.
- Engine.Engine.SampleSlot: leaves open whether the sampler throws and whether the token ends the text; the reasoning automaton and the streaming code that decide it are proved on their own in `Reasoning` and `Streaming`.
- Engine.Engine.Tick: an exception may come out of the sweep, of any admission once the request has its slot, of media prefill, before any decoded view, and of any sampling; running out of memory between popping a request and marking its slot busy (src/engine.cpp:884-895), or inside the few assignments of one row, is not modelled.
- Engine.Engine.Drain: with context shift on, a request without `n_predict` may run for ever by design, so every request is required to have one then; a sweep that runs out of memory in every tick would never let the queue move.
- Engine.Engine.BuildBatch: promises progress for the prefilling slots together; with a budget smaller than their number some of them may get no row in a tick.
- EngineState.TestAcceptsCovered: the extra refusal of prefixes shorter than the window less one is what the clamped threshold does; it costs time, not correctness, and only in a context that prunes its window.
- Equality with a cold evaluation after a context shift: shifted cells keep what they were computed from, so only tokens and positions are claimed then.
- Admission.RunIsSafe: each lock-delimited region is one step; the timeout is a free choice and clocks are not modelled.
- Requests submitted after the shutdown drain has begun: they are accepted and stay in the queue; the code promises nothing more for them.
- Streaming.Stream.OnSampled: a failed request is covered by `Streaming.Stream.Finish`; how an HTTP thread consumes the queued pieces is not modelled.
- Decision.Decider.EvalMediaPrompt: says nothing about the scores; the rows of media are llama.cpp's and mtmd's.
- Decision.Decider.Decide: says nothing about the scores of prompts with media; a causal context is taken to have a memory, and windowed attention is left out because the context keeps llama.cpp's default of a full sliding-window cache.
- Decision prompts: marker and pointer positions are required to lie in the prompt, as the prompt builders record them; which tokens the templates produce is not modelled.
- PromptCut.FillD1omni: starts from the tokenized pieces of the rendered text; splitting the text and the check that its first piece is the media markers are not modelled.
- PromptCut.MarkersSurvive: needs marker and separator to be different tokens of the vocabulary.
- Quoting.LeftIffExposed: for a spelling that has a backslash itself only the example in `Quoting.BackslashMayComplete` is given.
- JsonText.Dump: how a number is printed (`py_float`) is left to the caller; the depth needs that no quote or bracket is printed, reading back that it is printed in JSON's characters, which Python's names for infinities and NaN are not.
- Answers.FormatAnswer: works over the reals with any positive exponential; rounding, the entropy confidence, temperature tables and the JSON around the answer are not modelled.
- Gguf.Writer.Write: numpy's conversions to float32 and float16 are arbitrary functions of an element, strings are their UTF-8 bytes, and the vocabulary and configuration steps that fill the writer are left out.
- Tokenizers, templates, chat and tool-call parsing, HTTP routing, metrics other than `requests_processing`, timings, model loading, argument parsing and packaging.
