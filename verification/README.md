# Verified models of SGLang's benchmark drivers

This project models the stateful and algorithmic parts of SGLang's benchmark programs in Dafny and
proves what they promise: three multi-turn load generators as step protocols, the redirect-resolving
data generator of the line-retrieval task together with the query side that reads its output, the text
rewriting used when answers are extracted, the merging of streamed chunks, and the selection, tiling and
latency-accounting loops.

Code that updates objects in place is a class or an array method; each method is proved against a
specification function, and the theorems are about that function. The three load generators have a
step relation over values (`Enabled`, `Apply`); a run is any sequence of steps from the initial state, so
theorems about runs cover every interleaving of the sender, the requests in flight and the response
handler, and every server answer. The classes `MultiturnWorkload.WorkloadGenerator`,
`AsyncBenchmark.Benchmark` and `MixedRunner.WorkloadGenerator` carry the source's fields, and every method
of theirs is exactly one step.

Clock readings, random draws, server replies and the tokenizer are parameters. Floating-point numbers
are reals. A step is a stretch of one thread that the other thread cannot look into: in bench_multiturn.py
counting an answer on the progress bar and putting it into the queue are two steps, counting a completed
request and queueing its next round are two steps, and so are the handler's timeout and its look at the bar.

## What the proofs show about the code

- bench_multiturn.py: a run contains at most five steps of work per client and round, and as long as
  anything is left to do some step of work is at most three polling steps away
  (`MultiturnRuns.RunWork`, `MultiturnRest.WorkIsPossible`). A failure-free run comes to rest only after
  exactly clients x rounds requests (`MultiturnRest.FailureFreeRest`). What each client says is determined
  by what it was answered and asked (`MultiturnTranscript.PromptsAreTranscripts`).
- bench_multiturn.py: under the fifo policy requests go out in exactly the order in which they became ready,
  from client 0 on (`MultiturnOrder.SentInOrder`); answers are handled in the order in which they came
  (`AnswersInOrder`), and sub-questions are drawn from the end of the pool (`PoolInOrder`).
- hicache/bench_serving.py: the generator yields first-in-first-out over all conversations: one that goes on
  does so behind all others that are waiting (`AsyncServingOrder.YieldedInOrder`).
- bench_multiturn.py: that every client then has completed all its rounds is not true of every run. The
  handler can time out, see the full bar and leave while an answer is counted but not taken;
  `MultiturnRest.RoundsCompleteExactlyWhen` says exactly when, `HandlerMayMissTheLastAnswer` gives a run.
- bench_multiturn.py: a failed request keeps its slot for ever, and so does one whose task raises.
  `MultiturnRest.SenderGetsOutExactlyWhen` says exactly when the sender can leave its loop,
  `RunReturnsExactlyWhen` that both threads can be joined under the same condition, and
  `FailureMayTrapTheSender` gives a run in which they cannot.
- bench_mix.py: the scan in `push` never inserts behind the last entry, so the queue does not stay
  sorted; `MixedWorkload.PushKeepsSortedExactlyWhen` is the exact condition, `DueUserOvertaken` an example.
  That a due user is taken whenever there is one holds, pop after pop, exactly on sorted queues
  (`SortedQueueServesDueUsers`); one push breaks it exactly when it goes in front of a lone earlier user
  (`PushServesExactlyWhen`).
- bench_mix.py: over a whole run every prompt is the story of its user's answers and draws, and the token
  statistics are sums over the users of those same answers and draws (`MixedTranscript.PromptsAreStories`,
  `MixedTranscript.RunTokens`). Rounds, requested tokens and start times are the drawn ones, or the means
  where a draw is not positive (`MixedRecords.RecordsFollowDraws`).
- gen_data.py and line_retrieval/bench_sglang.py: whatever the redirect graph, every query that can be
  selected has exactly one reading in the truncated document, and it is the expected value
  (`LineQueries.QueryHasOneAnswer`); the filter is exact (`LineQueries.FilterIsExact`). The generator fails
  exactly when its few-shot example lists run out, and otherwise always lists the groups of one and of two
  hops, even if they are empty (`Redirects.GenerateLines`).
- answer_extraction.py: an answer is reported if and only if it is a balanced boxed group
  (`BoxedAnswers.ReportedExactlyWhenBoxed`), with the closing brace kept when a percent sign follows.
- utils.py: merging gives the shortest text that starts with the old text and ends with the chunk, so a
  stream of separate pieces need not be concatenated (`OverlapMerge.RepeatedPieceIsSwallowed`); it is if and
  only if no chunk begins with a non-empty end of the chunks before it (`OverlapMerge.ConcatenatedExactlyWhen`).

## Model

| member | source | states |
|---|---|---|
| MultiturnWorkload.ReadyQueue.constructor | benchmark/hicache/bench_multiturn.py:242-245 | the queue holds the initial requests under the given policy |
| MultiturnWorkload.ReadyQueue.Append | benchmark/hicache/bench_multiturn.py:247-249 | the item is added at the end, nothing else changes |
| MultiturnWorkload.ReadyQueue.Pop | benchmark/hicache/bench_multiturn.py:251-262 | nothing from an empty queue whatever the policy; the drawn or the first entry is removed and returned; an unknown policy is an error only when something is queued |
| MultiturnWorkload.WorkloadGenerator.constructor | benchmark/hicache/bench_multiturn.py:305-329 | one ready request and one record per client, history equal to the first prompt, counters at zero |
| MultiturnWorkload.WorkloadGenerator.CheckSlot | benchmark/hicache/bench_multiturn.py:344-351 | the sender goes on exactly when sent minus completed is below max_parallel |
| MultiturnWorkload.WorkloadGenerator.SendNext | benchmark/hicache/bench_multiturn.py:345-348 | the step Pop: a popped request becomes a task and is counted as sent; an empty queue changes nothing |
| MultiturnWorkload.WorkloadGenerator.TestProgress | benchmark/hicache/bench_multiturn.py:353-366 | the step Test: the sender stops exactly when the bar is full |
| MultiturnWorkload.WorkloadGenerator.FinishRequest | benchmark/hicache/bench_multiturn.py:203-205 | the step Finish: the bar counts good and bad answers alike, and not at all when its total is zero |
| MultiturnWorkload.WorkloadGenerator.DropRequest | benchmark/hicache/bench_multiturn.py:338-339 | the step Raise: a task that raises leaves no answer, does not move the bar and does not give its slot back |
| MultiturnWorkload.WorkloadGenerator.PutResponse | benchmark/hicache/bench_multiturn.py:335-337 | the step Put: the counted answer enters the response queue |
| MultiturnWorkload.WorkloadGenerator.HandleResponse | benchmark/hicache/bench_multiturn.py:377-391 | the step Handle: history, round and completed count of a good answer; a failed one is dropped without being counted |
| MultiturnWorkload.WorkloadGenerator.QueueNextRound | benchmark/hicache/bench_multiturn.py:391-404 | the step Requeue: the sub-question is popped from the pool, appended to the history and the new prompt queued |
| MultiturnWorkload.WorkloadGenerator.WaitTimesOut | benchmark/hicache/bench_multiturn.py:377-379 | the step Expire: only with an empty response queue |
| MultiturnWorkload.WorkloadGenerator.CheckProgress | benchmark/hicache/bench_multiturn.py:405-407 | the step Decide: leave exactly when the bar is full |
| Multiturn.PartitionPreserved | benchmark/hicache/bench_multiturn.py:331-410 | every step keeps each client in exactly one place |
| Multiturn.CountersPreserved | benchmark/hicache/bench_multiturn.py:331-410 | every step keeps: completed is the sum of all rounds, sent minus completed counts outstanding requests, the bar counts answered ones, and pool plus completed is conserved |
| Multiturn.RoundBoundsPreserved | benchmark/hicache/bench_multiturn.py:383-391 | every step keeps: finished clients are at the last round, all others before it |
| Multiturn.SlotsPreserved | benchmark/hicache/bench_multiturn.py:343-354 | every step keeps sent minus completed within max_parallel although the handler works between the test and the send |
| Multiturn.PayloadsPreserved | benchmark/hicache/bench_multiturn.py:305-312 | every step keeps each queued or flying payload equal to its client's history |
| Multiturn.ConversationsPreserved | benchmark/hicache/bench_multiturn.py:382-404 | every step keeps each client's sent prompts a chain of prefixes of its history, one per round and outstanding request |
| Multiturn.RunInv | benchmark/hicache/bench_multiturn.py:331-410 | all of the above in every state of every run |
| MultiturnRuns.OnePlace | benchmark/hicache/bench_multiturn.py:331-410 | in every run each client is exactly one of ready, in flight, being reported, unhandled, with the handler, finished, lost or raised, and no queue holds it twice |
| MultiturnRuns.SlotsInUse | benchmark/hicache/bench_multiturn.py:344-348 | sent minus completed is in flight plus unhandled plus lost plus raised, so requests in flight, lost and raised together never exceed max_parallel |
| MultiturnRuns.ProgressBar | benchmark/hicache/bench_multiturn.py:319 | the bar never overshoots and is full exactly when every client has an answer for each round |
| MultiturnRuns.SenderLeavesNothing | benchmark/hicache/bench_multiturn.py:353-354 | when the sender has stopped, nothing is ready, nothing is in flight and everyone is answered |
| MultiturnRuns.SenderLeavesNothingExactlyWhen | benchmark/hicache/bench_multiturn.py:353-354 | the sender leaves nothing behind if and only if the bar has a total or there are no clients |
| MultiturnRuns.NoLookupErrors | benchmark/hicache/bench_multiturn.py:345-404 | no step of any run looks up a missing client |
| MultiturnRuns.PoolNeverEmpty | benchmark/hicache/bench_multiturn.py:295-303 | a sub-question pool of the configured size is never popped empty |
| MultiturnRuns.HistoryGrows | benchmark/hicache/bench_multiturn.py:382-395 | in every run a client's earlier history is a prefix of every later one |
| MultiturnRuns.PromptsExtendEachOther | benchmark/hicache/bench_multiturn.py:382-404 | payloads equal histories, the first prompt is the configured one, and every earlier prompt is a prefix of every later prompt |
| MultiturnRuns.NextPrompt | benchmark/hicache/bench_multiturn.py:382-404 | the next prompt is the last prompt, the answer to it and the popped sub-question, whatever happens in between |
| MultiturnTranscript.PromptsAreTranscripts | benchmark/hicache/bench_multiturn.py:331-404 | in every run the prompt of round j is the first prompt with the first j answers given to that client and the sub-questions drawn for it woven in, in order; answers travel through the queue unchanged, and only good ones enter the record |
| MultiturnTranscript.StepTold | benchmark/hicache/bench_multiturn.py:331-404 | every step keeps record, sent prompts and answers on their way in line with what was answered and drawn |
| MultiturnOrder.SentInOrder | benchmark/hicache/bench_multiturn.py:251-262 | in every fifo run the requests sent, followed by the ready ones, are every client's first prompt from client 0 on and then the rounds queued since, in the order they were queued |
| MultiturnOrder.AnswersInOrder | benchmark/hicache/bench_multiturn.py:334-379 | in every run the answers taken, queued and being reported are the server's answers in the order in which they came |
| MultiturnOrder.PoolInOrder | benchmark/hicache/bench_multiturn.py:391-395 | in every run the pool is the configured one without one entry at its end per queued round |
| MultiturnRuns.WorkStep | benchmark/hicache/bench_multiturn.py:331-410 | a work step raises the work measure by one, a polling step leaves it |
| MultiturnRuns.RunWork | benchmark/hicache/bench_multiturn.py:331-410 | every run has at most five steps of work per client and round |
| MultiturnRest.WorkIsPossible | benchmark/hicache/bench_multiturn.py:331-410 | no deadlock: from a state that is not at rest, work is possible after at most three polling steps |
| MultiturnRest.QuietStays | benchmark/hicache/bench_multiturn.py:331-410 | a state of rest allows only polling and stays at rest |
| MultiturnRest.FailureFreeRest | benchmark/hicache/bench_multiturn.py:331-410 | a run at rest in which no request failed or raised has sent exactly clients x rounds requests, rounds from each client, and has a full bar |
| MultiturnRest.RoundsCompleteExactlyWhen | benchmark/hicache/bench_multiturn.py:374-410 | then every client is at its last round if and only if the handler was never past its timeout with a full bar and an answer not taken |
| MultiturnRest.UnattendedForEver | benchmark/hicache/bench_multiturn.py:405-407 | answers not taken when the handler turns away at a full bar are never taken |
| MultiturnRest.SenderGetsOutExactlyWhen | benchmark/hicache/bench_multiturn.py:343-354 | at rest, wherever the sender is in its loop, it can leave if and only if everyone is answered and lost plus unhandled requests leave a slot free |
| MultiturnRest.RunReturnsExactlyWhen | benchmark/hicache/bench_multiturn.py:412-421 | at rest both threads can still be joined if and only if everyone is answered and lost plus unhandled requests leave a slot free |
| MultiturnRest.HandlerMayMissTheLastAnswer | benchmark/hicache/bench_multiturn.py:335-337 | a failure-free run in which the last answer is never handled and the sender never leaves |
| MultiturnRest.FailureMayTrapTheSender | benchmark/hicache/bench_multiturn.py:380-381 | a run in which a failed last request traps the sender behind a full bar |
| AsyncBenchmark.Benchmark.constructor | benchmark/hicache/bench_serving.py:419-466 | every conversation is queued at its first turn with no messages |
| AsyncBenchmark.Benchmark.NextRequest | benchmark/hicache/bench_serving.py:266-275 | the step Yield, or GiveUp when nothing arrives |
| AsyncBenchmark.Benchmark.StartRequest | benchmark/hicache/bench_serving.py:97-114 | the step Start: the next prompt is appended to the messages; a conversation without that turn fails |
| AsyncBenchmark.Benchmark.AnswerRequest | benchmark/hicache/bench_serving.py:171-188 | the step Succeed: output length and answer recorded, conversation re-queued if turns are left |
| AsyncBenchmark.Benchmark.FailRequest | benchmark/hicache/bench_serving.py:189-195 | the step Fail: the conversation is not queued again |
| AsyncServing.PartitionPreserved | benchmark/hicache/bench_serving.py:171-188 | every step keeps each conversation in exactly one place |
| AsyncServing.InOrderPreserved | benchmark/hicache/bench_serving.py:261-275 | every step keeps the turns issued per conversation 0, 1, 2, ... and the budget consistent |
| AsyncServing.ConvsOkPreserved | benchmark/hicache/bench_serving.py:97-188 | every step keeps messages alternating and in step with the answered turns, and turns not answered yet as configured |
| AsyncServing.RunInv | benchmark/hicache/bench_serving.py:412-491 | all of these, and the concurrency limit, in every state of every run |
| AsyncServingRuns.Conservation | benchmark/hicache/bench_serving.py:419 | queued, waiting, running, ended and failed conversations add up to the queue's maxsize |
| AsyncServingRuns.PutNeverBlocks | benchmark/hicache/bench_serving.py:184-188 | whenever a request is running the bounded queue has room, so the re-queue never blocks; the limit is kept |
| AsyncServingRuns.TurnsInOrder | benchmark/hicache/bench_serving.py:171-188 | turns of a conversation are issued each once and in order, never beyond its length, with matching messages |
| AsyncServingOrder.YieldedInOrder | benchmark/hicache/bench_serving.py:184-188 | in every run the requests yielded, followed by the queue, are all conversations at turn 0 in order and then, for each answer that leaves turns, its conversation with the next turn |
| AsyncServingRuns.EveryTurnYieldedOnce | benchmark/hicache/bench_serving.py:261-281 | the generator has used its whole budget if and only if it has yielded every turn of every conversation once and in order |
| AsyncServingRuns.RunLength | benchmark/hicache/bench_serving.py:412-491 | every run ends: at most three steps per announced request and one for giving up |
| AsyncServingRuns.StepIsPossible | benchmark/hicache/bench_serving.py:412-491 | no deadlock in a failure-free run |
| AsyncServingRuns.FailureFreeEnd | benchmark/hicache/bench_serving.py:476-491 | a failure-free run that cannot go on has yielded exactly num_actual_requests and answered every turn |
| AsyncServingTranscript.RunReplies | benchmark/hicache/bench_serving.py:161-182 | in every run the assistant messages are the server's answers to that conversation, in order, and answered turns carry the reported lengths |
| AsyncServingTranscript.ConversationIsTranscript | benchmark/hicache/bench_serving.py:97-188 | a conversation that has not failed is exactly its configured questions, each with its answer, and at most one open question |
| AsyncServingRuns.NoLookupErrors | benchmark/hicache/bench_serving.py:97-103 | no step of any run looks up a missing conversation or turn |
| AsyncServingRuns.FlattenRequests | benchmark/hicache/bench_serving.py:416-418 | computes the flattened list |
| AsyncServingRuns.FlattenConsistent | benchmark/hicache/bench_serving.py:412-419 | after flattening the announced number of requests still is the number of turns, one per conversation |
| AsyncServingRuns.FlattenKeepsTurns | benchmark/hicache/bench_serving.py:416-418 | flattening keeps all turns in order |
| MixedGenerator.UserData.constructor | benchmark/hicache/bench_mix.py:127-134 | a new record in round 0 with start time 0 |
| MixedGenerator.UserGenerator.constructor | benchmark/hicache/bench_mix.py:192-196 | empty queue and zeroed statistics |
| MixedGenerator.UserGenerator.ChooseRounds | benchmark/hicache/bench_mix.py:202-210 | the number of rounds drawn |
| MixedWorkload.RoundsFrom | benchmark/hicache/bench_mix.py:202-210 | one more than the first index whose cumulative ratio exceeds the draw, or all rounds; always between 1 and num_rounds |
| MixedGenerator.UserGenerator.Gen | benchmark/hicache/bench_mix.py:198-230 | a fresh user, the next number, and the statistics that change |
| MixedWorkload.ScanIndex | benchmark/hicache/bench_mix.py:265-270 | the first entry that starts later, else the last entry |
| MixedGenerator.UserGenerator.Scan | benchmark/hicache/bench_mix.py:265-269 | the index the loop leaves behind |
| MixedGenerator.UserGenerator.Enqueue | benchmark/hicache/bench_mix.py:262-270 | the user is inserted at the scanned index and nothing else changes in the queue |
| MixedGenerator.UserGenerator.Push | benchmark/hicache/bench_mix.py:232-270 | the whole new state: the user's next round and queue entry, or its end, and both statistics |
| MixedGenerator.UserGenerator.Pop | benchmark/hicache/bench_mix.py:272-279 | the head of the queue only after its start time, else a new user |
| MixedRunner.WorkloadGenerator.constructor | benchmark/hicache/bench_mix.py:388-418 | the initial state of the protocol |
| MixedRunner.WorkloadGenerator.SendNext | benchmark/hicache/bench_mix.py:433-437 | the step Send |
| MixedRunner.WorkloadGenerator.StopSending | benchmark/hicache/bench_mix.py:442-444 | the step Stop |
| MixedRunner.WorkloadGenerator.FinishRequest | benchmark/hicache/bench_mix.py:420-425 | the step Finish |
| MixedRunner.WorkloadGenerator.DropRequest | benchmark/hicache/bench_mix.py:426-428 | the step Raise: a task that raises gives its slot back |
| MixedRunner.WorkloadGenerator.HandleResponse | benchmark/hicache/bench_mix.py:453-463 | the step Handle: a failed answer keeps its slot, a good one moves its user on |
| MixedRunner.WorkloadGenerator.CountCompleted | benchmark/hicache/bench_mix.py:464-469 | the step CountDone |
| MixedRunner.WorkloadGenerator.WaitTimesOut | benchmark/hicache/bench_mix.py:454 | the step Expire |
| MixedRunner.WorkloadGenerator.CheckDone | benchmark/hicache/bench_mix.py:471-473 | the step Decide |
| MixedRunner.WorkloadGenerator.NextIsNotQueued | benchmark/hicache/bench_mix.py:454-463 | the user whose answer is handled next is never queued at the same time |
| MixedWorkload.InsertedAt | benchmark/hicache/bench_mix.py:262-270 | the new entry stands at the scanned index, all others are as they were |
| MixedWorkload.InsertedAdds | benchmark/hicache/bench_mix.py:262-270 | a push adds exactly one entry to the queue's multiset |
| MixedWorkload.PushKeepsSortedExactlyWhen | benchmark/hicache/bench_mix.py:265-270 | a push into a sorted non-empty queue leaves it sorted if and only if the new start is not after the last one |
| MixedWorkload.SortedQueueServesDueUsers | benchmark/hicache/bench_mix.py:272-279 | a due user is taken whenever there is one, now and after any number of pops, if and only if the queue is sorted |
| MixedWorkload.PushServesExactlyWhen | benchmark/hicache/bench_mix.py:262-279 | after a push due users are still served if and only if the queue had more than one entry or the new user does not start after the only one |
| MixedWorkload.DueUserOvertaken | benchmark/hicache/bench_mix.py:265-279 | two pushes after which a due user waits behind a later one |
| MixedWorkload.PartitionPreserved | benchmark/hicache/bench_mix.py:420-476 | every step keeps each user in exactly one place |
| MixedWorkload.StatisticsPreserved | benchmark/hicache/bench_mix.py:198-270 | every step keeps the statistics equal to the population they describe |
| MixedWorkload.RunInv | benchmark/hicache/bench_mix.py:420-476 | all invariants in every state of every run |
| MixedWorkload.RunStatistics | benchmark/hicache/bench_mix.py:198-270 | in every run user_stats sums to the number of users and splits them by rounds, and per round inputs minus outputs is the number of users in that round |
| MixedWorkload.RunCompletions | benchmark/hicache/bench_mix.py:233-236 | in every run the answers counted for a round are as many as the users that have completed it |
| MixedWorkload.DecimalReads | benchmark/hicache/bench_mix.py:216 | the number in front of a prompt is written in digits that read as the user's number, without leading zero |
| MixedWorkload.RunUsers | benchmark/hicache/bench_mix.py:202-239 | every user has 1 to num_rounds rounds, and is queued, in flight, unanswered, lost or dropped exactly while it has rounds left |
| MixedWorkload.SentUserWasDue | benchmark/hicache/bench_mix.py:272-279 | in every run a queued user is sent only after its start time and with a round to go |
| MixedRuns.QueuedAnswersAreLatest | benchmark/hicache/bench_mix.py:422-425 | in every run an answer waiting to be handled is the latest one its user was given |
| MixedRuns.RequestsCarryPrompts | benchmark/hicache/bench_mix.py:317 | in every run a request in flight carries its user's whole prompt |
| MixedRuns.NextPrompt | benchmark/hicache/bench_mix.py:240-260 | a user queued again continues its prompt with the answer it was given and the drawn text, is one round further, and starts in the future if mean intervals are positive |
| MixedTranscript.PromptsAreStories | benchmark/hicache/bench_mix.py:198-270 | in every run the prompt a user sends in round j is its number and first drawn text with the first j answers given to it and the texts drawn for it in turn; one draw per round, only good answers move it on, and answers travel unchanged |
| MixedTranscript.StepTold | benchmark/hicache/bench_mix.py:420-470 | every step keeps record, sent prompts and answers on their way in line with what was answered and drawn |
| MixedTranscript.RunTokens | benchmark/hicache/bench_mix.py:214-244 | in every run the input tokens of a round are the sum over all users of the length of their draw for it, and the output tokens the sum of the tokens of the answers that took users through it |
| MixedRecords.RecordsFollowDraws | benchmark/hicache/bench_mix.py:198-260 | in every run a user has the rounds its first drawn ratio stands for, asks for the tokens of its last draw or the round's mean, and starts the drawn interval or the round's mean one after the time of that draw; one draw per round entered |
| MixedRecords.AnswersInOrder | benchmark/hicache/bench_mix.py:420-454 | in every run the answers taken, followed by those queued, are the server's answers in the order in which they came |
| MixedRecords.HandlerLeavesExactlyWhen | benchmark/hicache/bench_mix.py:471-473 | in every run the handler has left if and only if it has looked after a timeout behind the sender's end |
| MixedRuns.ReturnTokensPositive | benchmark/hicache/bench_mix.py:217-254 | with positive means no user ever asks for zero or fewer tokens |
| MixedWorkload.RunSlots | benchmark/hicache/bench_mix.py:433-437 | at most max_parallel users are in flight or lost |
| MixedWorkload.NoLookupErrors | benchmark/hicache/bench_mix.py:232-279 | no step of any run indexes outside a list, whatever is drawn |
| Redirects.DrawOne | benchmark/line_retrieval/gen_data.py:29-32 | draws until an unused name comes up |
| Redirects.DrawIndices | benchmark/line_retrieval/gen_data.py:28-41 | the first num_lines different names drawn, in order and all different |
| Redirects.FirstsInOrder | benchmark/line_retrieval/gen_data.py:28-40 | a name that comes up for the first time stands behind as many names as had come up before |
| Redirects.TableExactly | benchmark/line_retrieval/gen_data.py:49-54 | a line redirects to a target if and only if it was last chosen to, and is no redirect if and only if it was never chosen |
| Redirects.AddRedirects | benchmark/line_retrieval/gen_data.py:43-54 | table and lines agree: line i names the target of its last choice, and shows its own value if and only if it was never chosen |
| Redirects.WalkLength | benchmark/line_retrieval/gen_data.py:63-74 | pigeonhole: a walk that visits no line twice is no longer than the document |
| Redirects.CompleteWalkUnique | benchmark/line_retrieval/gen_data.py:63-74 | there is only one walk from a line |
| Redirects.DestinationStays | benchmark/line_retrieval/gen_data.py:75 | the line a value comes from is its own destination, also on a cycle |
| Redirects.RingExactlyWhenUnresolved | benchmark/line_retrieval/gen_data.py:71-74 | a line is marked as a ring if and only if following redirects never ends |
| Redirects.RingDestination | benchmark/line_retrieval/gen_data.py:66-75 | a line that never resolves takes its value from the first line on a cycle that following its redirects comes to |
| Redirects.LinkIsThePath | benchmark/line_retrieval/gen_data.py:66-76 | otherwise its link is the one path to a plain line, without repetition and shorter than the document |
| Redirects.FollowLink | benchmark/line_retrieval/gen_data.py:63-74 | the inner loop ends within num_lines steps with the link or the ring mark and the destination |
| Redirects.BuildLinks | benchmark/line_retrieval/gen_data.py:56-76 | links and rings of all lines; every value ends up the original value of its destination although it is overwritten in place |
| Redirects.OrderDoesNotMatter | benchmark/line_retrieval/gen_data.py:59-76 | overwriting in any other order gives the same values |
| Redirects.GroupByHops | benchmark/line_retrieval/gen_data.py:78-83 | the groups are exactly the non-empty lists of lines with equal link length, in ascending order |
| Redirects.HopGroupsPartition | benchmark/line_retrieval/gen_data.py:78-83 | the groups partition exactly the lines that resolve, by path length + 1 |
| Redirects.CandidateOrder | benchmark/line_retrieval/gen_data.py:90-95 | the sort by the candidates' keys gives a permutation of the group, ordered by key (the last line one has to read to resolve a line), then by number |
| Redirects.Examples | benchmark/line_retrieval/gen_data.py:97-108 | three examples; an error exactly when there are fewer than six one-hop lines, or exactly one two-hop line, or no two-hop line and fewer than eleven one-hop lines |
| Redirects.Reaches | benchmark/line_retrieval/gen_data.py:91-94 | a candidate's key is the largest line among it and its link |
| Redirects.PickedRanks | benchmark/line_retrieval/gen_data.py:90-108 | the examples are the one-hop line with exactly five before it, then the two-hop lines with none and one before them, or else the one-hop lines with one and ten before them |
| Redirects.LookUp | benchmark/line_retrieval/gen_data.py:90-93 | reading a group adds it, empty, when it is missing |
| Redirects.PickExamples | benchmark/line_retrieval/gen_data.py:89-108 | the examples of the sorted candidates, with groups one and two present afterwards |
| Redirects.GenerateLines | benchmark/line_retrieval/gen_data.py:16-120 | an error exactly when the example lists run out; otherwise the whole object: each line names the target of its last choice or shows its own value, names, values, links and rings agree with the redirect table, the groups are those with lines together with groups one and two, and the examples are resolved lines with their values |
| LineQueries.QueryIndices | benchmark/line_retrieval/bench_sglang.py:41-46 | computes the filtered list |
| LineQueries.Filtered | benchmark/line_retrieval/bench_sglang.py:42-46 | exactly the lines of the group before the source line whose link stays within it |
| LineQueries.FilteredInOrder | benchmark/line_retrieval/bench_sglang.py:42-46 | the filter keeps order and repetitions: a qualifying entry stands behind exactly those before it that qualify |
| LineQueries.FilteredAscending | benchmark/line_retrieval/bench_sglang.py:42-46 | the filtered lines of an ascending group are ascending |
| LineQueries.Position | benchmark/line_retrieval/bench_sglang.py:47-49 | the position is the whole part of number times percentage, or the last one if that is smaller |
| LineQueries.SelectQuery | benchmark/line_retrieval/bench_sglang.py:41-65 | for every source index, negative ones included: the line at that position of the ascending candidates, which stands before the source line, its label and name, and four body parts that make up the truncated document; an error exactly when nothing qualifies |
| LineQueries.QueryHasOneAnswer | benchmark/line_retrieval/bench_sglang.py:41-53 | every selectable query can be read in the truncated document over as many lines as its group says, in one way only, and the value read is the label |
| LineQueries.FilterIsExact | benchmark/line_retrieval/bench_sglang.py:42-46 | a line of the group passes the filter if and only if it stands before the source line and its name can be resolved in the truncated document |
| Fractions.FixFracs | benchmark/reasoning_benchmark/answer_extraction.py:8-37 | the loop with its early return computes the piecewise fix, or leaves the text alone |
| Fractions.Idempotent | benchmark/reasoning_benchmark/answer_extraction.py:8-37 | fixing twice is fixing once, for every string |
| Fractions.OnlyBracesInserted | benchmark/reasoning_benchmark/answer_extraction.py:8-37 | the output is the input with braces put in, nothing removed, changed or moved; so erasing all braces gives the same string |
| Fractions.BracedExactlyWhenFixable | benchmark/reasoning_benchmark/answer_extraction.py:13-21 | every fraction of the result opens a brace if and only if what follows each fraction of the input starts with an opening brace or has at least two characters before the next fraction; otherwise nothing is changed |
| Fractions.BareArguments | benchmark/reasoning_benchmark/answer_extraction.py:22-35 | a bare first argument gets its own group, the next group opens right behind it, what follows is left as it is, and the brace depth is kept |
| Fractions.SplitFixed | benchmark/reasoning_benchmark/answer_extraction.py:9-36 | the rebuilt text splits again into exactly the fixed pieces |
| BoxedAnswers.ExtractBoxedAnswers | benchmark/reasoning_benchmark/answer_extraction.py:182-197 | the nested loops compute the specified list |
| BoxedAnswers.CloseFromSound | benchmark/reasoning_benchmark/answer_extraction.py:185-196 | the brace the scan stops at closes the group: what precedes it is balanced |
| BoxedAnswers.CloseFromComplete | benchmark/reasoning_benchmark/answer_extraction.py:185-196 | the scan stops at the closing brace if there is one |
| BoxedAnswers.BoxedGroupIsReported | benchmark/reasoning_benchmark/answer_extraction.py:182-197 | a balanced group without inner boxed group is reported once, between the answers before and behind it |
| BoxedAnswers.ReportedExactlyWhenBoxed | benchmark/reasoning_benchmark/answer_extraction.py:182-197 | an answer is reported if and only if it is such a group of the text, with the closing brace kept before a percent sign |
| Text.Find | benchmark/reasoning_benchmark/answer_extraction.py:184 | the first occurrence, or none at all |
| Text.JoinSplit | benchmark/reasoning_benchmark/answer_extraction.py:9 | joining the pieces of a split gives the text back |
| Text.SplitJoin | benchmark/reasoning_benchmark/answer_extraction.py:9 | splitting a join gives back pieces that do not contain the separator |
| Text.SplitAtSeparator | benchmark/reasoning_benchmark/answer_extraction.py:184 | a separator in the text is always a cut |
| OverlapMerge.TrimOverlap | python/sglang/utils.py:482-493 | the downward search finds the largest overlap and drops it |
| OverlapMerge.Overlap | python/sglang/utils.py:487-492 | an overlap, and no larger one within the limit |
| OverlapMerge.MergeCovers | python/sglang/utils.py:482-493 | the merged text starts with the old text and ends with the chunk |
| OverlapMerge.MergeIsShortest | python/sglang/utils.py:482-493 | no shorter text does, and no other of the same length |
| OverlapMerge.KeptWhole | python/sglang/utils.py:482-493 | the chunk is kept whole if and only if no non-empty end of the text begins it |
| OverlapMerge.StreamAndMerge | python/sglang/utils.py:496-507 | the loop computes the fold |
| OverlapMerge.MergedKeepsEveryChunk | python/sglang/utils.py:502-507 | every chunk ends the text when merged, and nothing merged is lost later |
| OverlapMerge.GrowingStreamMergesToLast | python/sglang/utils.py:496-507 | a stream whose chunks extend each other merges to its last chunk |
| OverlapMerge.ConcatenatedExactlyWhen | python/sglang/utils.py:496-507 | a stream is concatenated if and only if no chunk begins with a non-empty end of the chunks before it |
| OverlapMerge.RepeatedPieceIsSwallowed | python/sglang/utils.py:482-507 | a repeated separate piece is swallowed |
| Tiling.RatiosAreAll | benchmark/mmmu/internvl_utils.py:47-53 | the comprehension yields exactly the pairs with an admissible product |
| Tiling.FindClosestAspectRatio | benchmark/mmmu/internvl_utils.py:24-37 | the choice is the first minimiser or the last later one passing the area test; (1, 1) without candidates |
| Tiling.ChoiceIsBest | benchmark/mmmu/internvl_utils.py:54-59 | on the sorted list it minimises the difference, and has the most tiles among minimisers passing the area test, or is the first minimiser when none passes |
| Tiling.CloserInIntegers | benchmark/mmmu/internvl_utils.py:28-30 | one ratio is at least as close as another if and only if the cross products of width, height, columns and rows say so |
| Tiling.LargeInIntegers | benchmark/mmmu/internvl_utils.py:35 | the area test passes if and only if twice the image's area exceeds that of the tiles |
| Tiling.ExactRatioChosen | benchmark/mmmu/internvl_utils.py:28-37 | the choice meets the proportions of the image exactly whenever an admissible ratio does |
| Tiling.BoxOrder | benchmark/mmmu/internvl_utils.py:69-75 | the boxes go row by row, from the left and from the top, each next to the one before |
| Tiling.CropBoxes | benchmark/mmmu/internvl_utils.py:61-79 | one box per tile, in row order |
| Tiling.EveryPixelInOneBox | benchmark/mmmu/internvl_utils.py:61-79 | every pixel of the resized image lies in exactly one box |
| Tiling.BoxWithinImage | benchmark/mmmu/internvl_utils.py:70-75 | no box is empty or sticks out of the resized image |
| Tiling.DynamicPreprocess | benchmark/mmmu/internvl_utils.py:40-83 | between min_num and max_num boxes whenever a ratio is admissible, the closest admissible aspect ratio, among equally close ones the most tiles passing the area test or the fewest tiles if none passes, and the thumbnail rule |
| FilterChat.ProcessConversation | benchmark/hicache/data_processing.py:57-85 | the acceptable turns of one conversation and their token sums |
| FilterChat.KeptExactlyWhen | benchmark/hicache/data_processing.py:58-85 | an entry is kept if and only if it is some turn's prompt with its token count and the completion's or the fixed count, and meets every limit that is set |
| FilterChat.KeptInOrder | benchmark/hicache/data_processing.py:58-85 | a kept turn stands behind exactly those before it that fit |
| FilterChat.UsableInOrder | benchmark/hicache/data_processing.py:54-88 | the usable conversations are those with a turn that fits, in the order of the dataset |
| FilterChat.OnePass | benchmark/hicache/data_processing.py:54-88 | one pass adds the usable conversations, cut off at the requested number |
| FilterChat.PassesSize | benchmark/hicache/data_processing.py:53-88 | after any number of passes row k is usable conversation k modulo their number |
| FilterChat.TerminatesExactlyWhen | benchmark/hicache/data_processing.py:53-88 | the requested number is reached if and only if nothing is requested or some conversation is usable |
| FilterChat.CommonFilterChat | benchmark/hicache/data_processing.py:49-92 | num_requests rows, row k being usable conversation k modulo their number, and token totals that are the sums over the rows |
| StreamLatency.TrtStream | python/sglang/bench_serving.py:140-169 | for all arrival times: the first token is taken at the first timestamp at which the clock has moved, every inter-token latency is the distance of two adjacent timestamps, and all together are the latency |
| StreamLatency.Progress | python/sglang/bench_serving.py:550-560 | a chunk with new tokens extends the books: its time span is shared out and adds up again |
| StreamLatency.SglangStream | python/sglang/bench_serving.py:513-565 | the loop computes the fold over the chunks |
| StreamLatency.StreamAccount | python/sglang/bench_serving.py:513-565 | for non-decreasing counts the latencies add up to last progress minus first token, one per token after the first chunk's, and the tokens of a chunk share the time since the last progress equally; in any case the reported length is the last chunk's count and the first-token time is that of the first chunk at which the clock had moved |

## Left out

- HTTP sessions, JSON parsing, progress-bar display, argument parsing, result files, percentile and throughput summaries: input and output only.
- Sleeping times and request rates: a run may pause between any two steps, so they do not matter to the proofs.
- bench_multiturn.py finished_time and performance_metrics lists: written once per step and never read by the protocol.
- bench_mix.py: increments of completed_requests from the two threads are taken as atomic; the sender's loop is allowed to yield between any two sends and to stop at any time, which admits more runs than the source has.
- bench_mix.py candidate_inputs: the sampled prompt and its length are part of a step's draw.
- hicache/bench_serving.py prompt_len sums, output metrics and the warm-up request: they do not touch the queue or the conversations.
- gen_data.py: the text substitutions that put the chosen examples into the suffix; the examples themselves are modelled. The shape of the random redirect targets is not used, any table is allowed.
- bench_sglang.py scoring of model output with a regular expression: foreign semantics.
- answer_extraction.py strip_string, _fix_sqrt, _fix_tan and the sympy comparison: dominated by regular-expression semantics.
- internvl_utils.py resizing and cropping of pixels: foreign code; only the boxes are modelled. Floating-point rounding of aspect ratios and of clock readings is not modelled.
- CommonFilterChat: a dataset without usable conversations makes the source loop for ever, so the method requires one; TerminatesExactlyWhen covers that case.
- SglangStream: time stamps of chunks without text and the latency field are not modelled, because they do not enter the latency list.
- The KV cache, scheduler and router: not part of this model.
