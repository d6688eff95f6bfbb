# A model of the Zoea server's stateful core

The server keeps one Pi process per session, talks to it over line-delimited JSON on its standard streams, stores
session rows in SQLite and limits requests per client address. This project models the parts of it whose
correctness rests on more than one function at a time, and proves what they keep over every run and every input.

* **The RPC handle** (`RpcProtocol`, `RpcGuarantees`, `RpcReplies`, `RpcAnswers`, `RpcHandle`). Command senders, the
  stdout reader, the process waiter, Close callers and subscribers are a step relation with one program counter per
  sender; a critical section is one step, except that the waiter's drain is one step per entry with the lock held
  throughout. `RpcHandle.Handle` holds the same fields as the Go struct, and each of its methods is proved to take
  exactly the protocol step it stands for (the wait loop: the run that drains both maps).
* **The stdout stream and the fan-out** (`LineDemux`, `EventNames`, `ReaderRun`, `PiStream`, `Fanout`, `EventFeed`,
  `RpcFeed`, `Gateway`). Lines are cut from the stream, given one fate each, and mapped events are broadcast to bounded,
  lossy subscriber channels. `ReaderRun` ties the reader to the RPC handle's protocol, `PiStream` says what becomes of
  each line with the reader's own decoders, `EventFeed` ties the reader to its subscribers, and `RpcFeed` shows that any
  run of the protocol is a run of the fan-out.
* **The session manager over its store** (`SessionProtocol`, `SessionGuarantees`, `SessionHandles`, `SessionLive`,
  `SessionRows`, `SessionManager`, `SessionFields`, `SessionStore`, `SessionListing`, `SessionPaging`, `SessionIds`,
  `Decimals`). Create, Resume and Delete interleave at their real lock boundaries; the classes `Manager`, `Store` and
  `Host` are the sequential level, and every method is proved to be an uninterrupted run of the interleaved one.
* **The rate limiter** (`RateWindow`, `RateLimiter`, `ForwardedFor`). The limiter compacts stamp arrays in place and
  a cleaner drops entries; both are proved to decide as a specification that remembers the full history. The client
  address lookup and its comma splitter are there too.
* **Text and arithmetic** (`Text`, `ApiKeys`, `Paths`, `SessionDirs`, `SessionTree`, `ByteUnits`): the API-key parser,
  path cleaning, session directories and arguments, and the byte-unit loop.

## What is not so

Some properties one would expect do not hold of the code. For each there is the exact condition under which it
holds, and a lemma at an input or a run that breaks it.

* *A nil error from `sendCommand` means that Pi answered.* The select's receive brings an answer if and only if the
  channel holds something, and a closed empty one returns the zero envelope with a nil error
  (`RpcAnswers.ReceiveAnswered`). A command not yet past the test of `closed` can come to that if and only if the
  handle is not closed and its waiter has not begun to drain (`RpcAnswers.UnansweredExactly`); one that is writing or
  waiting, if and only if its entry is pending or its channel was closed with nothing sent
  (`RpcAnswers.UnderwayExactly`). Afterwards the envelope's type tells (`RpcGuarantees.Correlation`). The run:
  `RpcGuarantees.NilErrorWithoutAnswer`.
* *Every live handle has its row.* The calls in flight can leave an id live without a row if and only if a Delete is
  about to remove the row of an id that is live, is being resumed, or is being created by a Create that can still
  store its row, or the row is already gone and a Resume or Create is about to attach
  (`SessionHandles.RowlessExactly`). Three runs: `SessionGuarantees.HandleOutlivesRow`,
  `SessionHandles.ResumedUnderDelete`, `SessionHandles.CreatedUnderDelete`. With one call at a time it always holds
  (`SessionManager.Manager`).
* *A session has at most one live process*, live meaning started and not handed to Close. Two share an id, and a
  session directory, if and only if two of these keep one for it: the table of handles, a Create in progress, a Delete
  between its unlock and its Close, or nobody, the handle having been overwritten (`SessionLive.SharedExactly`). If no
  stored id lies ahead of the counter at the start, that takes a Delete (`SessionLive.SharedUnderDelete`); otherwise it
  does not. The runs: `SessionLive.ResumedBesideDelete`, `SessionLive.StaleSeedShares`.
* *A row lasts until it is deleted, and then its id stays away.* Over all runs a stored row changes only its activity
  stamp, and a deleted id never comes back, if and only if no stored id lies ahead of the counter at the start
  (`SessionRows.RowsLastExactly`). The run: `SessionRows.ComesBack`.
* *No process is ever lost.* Over all interleavings this holds if and only if no stored id lies ahead of the
  manager's counter (`SessionGuarantees.ConservationExact`). The run: `SessionGuarantees.Leak`.
* *Init seeds the counter past every stored session.* It does if and only if the largest stored number's id also
  sorts last as text, which is certain only up to 999999 (`SessionIds.RestartExact`). The input:
  `SessionIds.MillionthSessionBreaksSeed`.
* *A subscriber that is there from the start gets every event.* If and only if its backlog never outgrows its channel
  and nothing is broadcast after its channel was closed (`EventFeed.FeedCompleteIff`); the waiter can close it before
  the reader has got to the last lines (`EventFeed.ExitOvertakesReader`).
* *Paging visits every session once.* For a given limit, and however the database orders equal timestamps, if and
  only if no page boundary falls between two sessions created at the same time (`SessionPaging.PagingExact`); for every
  limit, if and only if no two were created at the same time (`SessionPaging.PagingExactForAll`). The run, for any
  limit and tie: `SessionPaging.TieLosesRow`.
* *A client that waits the Retry-After header's seconds is served.* If and only if the oldest live stamp lies a whole
  number of seconds back or has at most one second to go, because the header truncates (`RateWindow.RetryAfterExact`).
  The run: `RateWindow.HeaderTooShort`.
* *A session can be found under the external id it was created with.* If and only if that id has no space at either
  end: the filter trims, the column does not (`SessionStore.FoundByOwnExternalId`). The input:
  `SessionStore.SpacedExternalIdIsLost`. The same of a working directory (`SessionStore.FoundByOwnWorkingDir`).
  `docs/endpoints.md` lines 93 and 94 promise exact matches.
* *What the API-key parser accepts, the documented format can express.* If and only if the third field of every
  accepted entry has a character that is neither a comma nor a space (`ApiKeys.Reprint`). The input `name:key:,`:
  `ApiKeys.KeyWithoutScope`.
* *Resume runs where Create ran.* If and only if a default directory is configured or the stored path has no space
  at its end (`SessionDirs.ResumeResolvesSame`). The input `/a /.`: `SessionDirs.ResumedElsewhere`.
* *A session's directory lies under the base directory.* Whichever the base is, if and only if the user id, read as a
  path, never goes above where it starts (`SessionTree.InsideExactly`). A base that is left: `SessionTree.LeftBehind`.
* *A proxy that appends itself to X-Forwarded-For does not change the client's address.* If and only if the header
  named an address and was not a single one in some other than its canonical spelling
  (`ForwardedFor.AppendedProxy`). The input: `ForwardedFor.AppendedProxyRespells`.

Where documentation and code disagree the model follows the code: `docs/authentication.md` lines 122-124 and
`docs/endpoints.md` line 335 say that only failed or unauthenticated requests are limited, but
`internal/auth/ratelimit.go` lines 161-179 counts every request once authentication is enabled; `docs/storage.md`
line 108 leaves the working-directory slug out of the session directory, which
`internal/process/rpc_manager.go` line 85 puts in.

## Model

| member | source | states |
|---|---|---|
| RpcProtocol.InvStep | internal/process/rpc_manager.go:343-526 | every step of every party, in any state, keeps the ownership invariant: a pending channel belongs to the table, then to whoever removed its entry, and nobody else sends on it or closes it |
| RpcProtocol.KeyInjective | internal/process/rpc_manager.go:398-400 | two commands never share a request id |
| RpcProtocol.ReaderKeeps | internal/process/rpc_manager.go:478-481 | the reader's send and close outside the lock neither block nor panic |
| RpcProtocol.DrainKeeps | internal/process/rpc_manager.go:503-507 | the waiter closes only channels that are still the table's |
| RpcProtocol.ReceiveCallOk | internal/process/rpc_manager.go:433-441 | what a sender receives is the one line routed to it, or the zero envelope of a drained channel |
| RpcProtocol.SubsStep | internal/process/rpc_manager.go:343-370 | every step keeps the subscriber table: in it exactly the open channels, each closed at most once, none sent to after its close |
| RpcGuarantees.ChannelSafety | internal/process/rpc_manager.go:397-515 | in every reachable state nothing has panicked, each channel has seen at most one send and one close, and a reader holding a channel can proceed |
| RpcGuarantees.Correlation | internal/process/rpc_manager.go:397-442 | a nil error carries a line with the request's own id read after it registered, or the zero envelope of an entry drained at exit with nothing sent: never both, and the envelope's type tells which |
| RpcReplies.Verdicts | internal/process/rpc_manager.go:397-442 | over all runs: a nil error never carries a reply that says success is false; a command-failed error always comes from such a reply to this call, with its error text or the standard one; a closed-handle or process-exited error tells the truth |
| RpcReplies.ReceiveDecides | internal/process/rpc_manager.go:433-440 | what a received reply becomes, exactly: the one line routed to the call decides between its own envelope and the error |
| RpcReplies.FailureHasCause | internal/process/rpc_manager.go:412-432 | a call that returns any other error took the step that error names |
| RpcReplies.AnsweredAfterRegistering | internal/process/rpc_manager.go:404-410 | no line read before a command registered is ever routed to it |
| RpcAnswers.ReceiveAnswered | internal/process/rpc_manager.go:433-441 | a receive that returns a nil error brings Pi's answer if and only if the channel held something |
| RpcAnswers.UnansweredExactly | internal/process/rpc_manager.go:404-410 | before a command registers: some run brings it back with a nil error and no answer if and only if the handle is not closed and the waiter has not begun to drain |
| RpcAnswers.UnderwayExactly | internal/process/rpc_manager.go:412-441 | once it has registered: if and only if its entry is pending or its channel was closed with nothing sent |
| RpcGuarantees.NoCrossTalk | internal/process/rpc_manager.go:471-483 | a response line reaches only the request whose id it carries, and a request at most one line |
| RpcGuarantees.NilErrorWithoutAnswer | internal/process/rpc_manager.go:501-514 | a run in which a request returns a nil error although no line was ever read and done is not yet closed |
| RpcGuarantees.ExitIsFinal | internal/process/rpc_manager.go:404-410 | closed stays closed; once the waiter has drained, nothing is ever pending again; whoever had not registered by then gets only the handle-closed error |
| RpcGuarantees.RankStep | internal/process/rpc_manager.go:360-441 | no step of anyone increases the number of steps a sender or watcher still owes, and its own steps decrease it |
| RpcGuarantees.MovesBounded | internal/process/rpc_manager.go:360-441 | in any interleaving the parties present take no more steps than they owe |
| RpcGuarantees.NobodyStuck | internal/process/rpc_manager.go:360-441 | after done is closed every sender and every subscriber watcher that still owes a step can take one, also for a Subscribe after exit |
| RpcGuarantees.ExitDrains | internal/process/rpc_manager.go:426-515 | from every state with done closed all parties can finish, within the steps they owe |
| RpcHandle.Handle.constructor | internal/process/rpc_manager.go:130-136 | a new handle stands at the protocol's initial state |
| RpcHandle.Handle.Meanwhile | internal/process/rpc_manager.go:412-441 | the steps of senders, reader, process and watchers that touch no field of the handle |
| RpcHandle.Handle.NewRequest | internal/process/rpc_manager.go:398-402 | drawing a number and making the channel is the protocol's Begin step |
| RpcHandle.Handle.Register | internal/process/rpc_manager.go:404-410 | registers the entry unless closed, and then fails |
| RpcHandle.Handle.RemovePending | internal/process/rpc_manager.go:444-448 | takes the entry away on the failure paths, whoever else may have taken it before |
| RpcHandle.Handle.Receive | internal/process/rpc_manager.go:433-441 | turns what was received into the call's result, a closed empty channel giving the zero envelope |
| RpcHandle.Handle.TakePending | internal/process/rpc_manager.go:472-477 | moves the channel under the line's id from the table to the reader |
| RpcHandle.Handle.SendReply | internal/process/rpc_manager.go:478-479 | the send finds an open channel with room |
| RpcHandle.Handle.CloseReply | internal/process/rpc_manager.go:480 | the close finds an open channel |
| RpcHandle.Handle.DrainOne | internal/process/rpc_manager.go:504-507 | one round of the drain is one protocol step and shortens the table |
| RpcHandle.Handle.DropSubscriber | internal/process/rpc_manager.go:351-358 | removing a subscriber closes its channel only if it is still in the table |
| RpcHandle.Handle.DrainPending | internal/process/rpc_manager.go:504-507 | the first loop is a run of the protocol that empties the pending table |
| RpcHandle.Handle.DrainSubscribers | internal/process/rpc_manager.go:508-511 | the second loop is a run of the protocol that empties the subscriber table |
| RpcHandle.Handle.WaitLoop | internal/process/rpc_manager.go:501-515 | the whole of it is a run of the protocol after which done and closed hold and both tables are empty |
| RpcHandle.Handle.Close | internal/process/rpc_manager.go:372-379 | only the first caller proceeds past the flag |
| RpcHandle.Handle.Subscribe | internal/process/rpc_manager.go:343-349 | a fresh id and an open channel in the table |
| LineDemux.MapRPCLine | internal/rpc/mapper.go:12-65 | at most one event a line, none for a response, and an unknown event keeps its raw line |
| LineDemux.ReadString | internal/process/rpc_manager.go:453-459 | stops at the next newline, and fails only if there is none |
| LineDemux.ReadLoop | internal/process/rpc_manager.go:450-489 | routes and broadcasts the images of the newline-terminated lines, in order, for any stream |
| LineDemux.StreamsConcatenate | internal/process/rpc_manager.go:450-489 | cutting the stream between writes makes no difference; an unfinished line waits for the rest |
| LineDemux.LinesConserved | internal/process/rpc_manager.go:460-487 | every line has exactly one fate: a response, an event, or silence |
| LineDemux.Provenance | internal/process/rpc_manager.go:485-487 | each event of the log comes from a line of its own, in line order |
| LineDemux.RunEndIff | internal/rpc/mapper.go:29-30 | the event that the activity listener waits for is sent for the end of a run and for nothing else |
| EventNames.TextNames | internal/rpc/mapper.go:74-94 | the events of text parts are named after part and phase |
| EventNames.ThinkingNames | internal/rpc/mapper.go:95-113 | so are those of thinking parts |
| EventNames.ToolcallNames | internal/rpc/mapper.go:114-134 | and those of tool calls |
| EventNames.SignalNames | internal/rpc/mapper.go:135-149 | a message's own signals are named agent.message and the signal |
| EventNames.UpdateNames | internal/rpc/mapper.go:67-155 | a message update is passed on under its part's name, as unknown if the part is not known, and lost if its struct does not decode |
| EventNames.RunNames | internal/rpc/mapper.go:27-30 | agent lines become agent.run events, always |
| EventNames.TurnNames | internal/rpc/mapper.go:31-34 | turn lines become agent.turn events, always |
| EventNames.MessageNames | internal/rpc/mapper.go:35-38 | message lines become agent.message events, always |
| EventNames.CompactionNames | internal/rpc/mapper.go:45-48 | compaction lines become agent.compaction events, always |
| EventNames.ToolNames | internal/rpc/mapper.go:39-44 | tool execution lines become agent.tool events, if they decode |
| EventNames.RetryNames | internal/rpc/mapper.go:49-52 | retry lines become agent.retry events, if they decode |
| EventNames.RequestNames | internal/rpc/mapper.go:53-58 | queue, dialog and extension error lines likewise |
| EventNames.OtherNames | internal/rpc/mapper.go:59-64 | a line of any other type is passed on as unknown, with type and line |
| EventNames.Payloads | internal/rpc/mapper.go:158-325 | whatever is sent carries its line, and exactly which events carry nothing |
| ReaderRun.ReaderFeedsProtocol | internal/process/rpc_manager.go:450-489 | along any run in which the reader reads a stream, however the others interleave, the protocol's response lines are those the loop routes, in order |
| ReaderRun.AnswerIsALine | internal/process/rpc_manager.go:397-489 | an answered command returns what a line of the process's output decodes to, and that line carries the command's id |
| ReaderRun.ReaderCanRead | internal/process/rpc_manager.go:450-489 | unless the waiter holds the lock the reader can read any lines whatever to the end, by itself |
| PiStream.ReplyIsSeen | internal/process/rpc_manager.go:459-483 | with the reader's own decoders, over any run that reads the stream: a line that is not blank and decodes to a response is among the protocol's response lines, at the place given by the earlier such lines, and no other line is |
| PiStream.AnswerIsAReply | internal/process/rpc_manager.go:397-483 | an answered command returns what a response line of the stream with its own id decodes to |
| PiStream.Delivered | internal/process/rpc_manager.go:471-481 | a response whose id is pending: from then on, over any run, either the reader can send it to that call or has sent it there once, and the call returns no other |
| PiStream.LogGrows | internal/process/rpc_manager.go:460-487 | each line adds to the log exactly what the mapper makes of it if it is not blank, decodes and is no response, and nothing otherwise |
| PiStream.FeedOfPi | internal/process/rpc_manager.go:343-526 | what a subscriber from before the first event gets of that log, over any run of the protocol |
| PiStream.FatesMeetAssumptions | internal/process/rpc_manager.go:460-487 | the reader's own body meets what the theorems about any body assume |
| Fanout.Independence | internal/process/rpc_manager.go:517-526 | in any run a subscriber's stream is what its own view alone produces, so no slow subscriber can change another's |
| Fanout.Conservation | internal/process/rpc_manager.go:517-526 | received and buffered are the kept ones in order; received, buffered and dropped add up to everything broadcast while subscribed; the buffer stays within capacity; one close at most |
| Fanout.LosslessIff | internal/process/rpc_manager.go:520-525 | an event is dropped if and only if an unbounded queue in the channel's place would have outgrown the capacity |
| Fanout.SubscriberLife | internal/process/rpc_manager.go:343-370 | the same from the subscriber's own Subscribe on, in any run of the whole table |
| Fanout.Table.Subscribe | internal/process/noop_manager.go:85-91 | a fresh id with an empty open channel |
| Fanout.Table.Unsubscribe | internal/process/noop_manager.go:93-100 | closes once, and never again |
| Fanout.Table.Receive | internal/process/rpc_manager.go:343-370 | the consumer takes the oldest buffered event, and no other stream changes |
| Fanout.Table.Broadcast | internal/process/noop_manager.go:124-131 | the loop in any order offers the event once to every subscriber and never to a closed channel |
| Fanout.Table.CloseAll | internal/process/noop_manager.go:114-122 | closes every remaining channel exactly once and empties the table |
| Fanout.NewRpcTable | internal/process/rpc_manager.go:347 | the RPC handle's channels hold 128 events |
| Fanout.NewNoopTable | internal/process/noop_manager.go:89 | the noop handle's channels hold 32 |
| EventFeed.FeedCompleteIff | internal/process/rpc_manager.go:450-526 | a subscriber gets the whole log of the stream, in order, if and only if its backlog never outgrew its channel and nothing was broadcast after its channel was closed |
| EventFeed.EveryLineAccounted | internal/process/rpc_manager.go:450-526 | lines read are responses, silent lines, and events received, waiting, dropped, or broadcast after the close: nothing is missing or counted twice |
| EventFeed.ExitOvertakesReader | internal/process/rpc_manager.go:501-526 | a run in which the waiter's close comes before a broadcast, which every subscriber then loses |
| RpcFeed.FanoutFollows | internal/process/rpc_manager.go:343-526 | over any run of the protocol, whenever the consumers receive, the handle's subscriber table and the fan-out agree on who is subscribed, under which id, and whose channel is open |
| RpcFeed.FeedOfRun | internal/process/rpc_manager.go:343-526 | over any run of the protocol in which the reader reads a stream: a subscriber from before the first event gets the whole log if and only if its backlog never outgrew its channel and nothing was broadcast after its close |
| SessionProtocol.ConservedStep | internal/session/manager.go:76-255 | every step keeps each started process in exactly one place, unless it attaches over a handle already there |
| SessionProtocol.InvStep | internal/session/manager.go:76-255 | every step keeps the lock's single holder and every number ahead of the counter unused in rows, handles and pending resumes |
| SessionGuarantees.ConservedMeans | internal/session/manager.go:76-255 | in a conserved state a process has exactly one owner and appears at most once among the closed |
| SessionGuarantees.ConservationExact | internal/session/manager.go:76-255 | all runs from a start conserve processes if and only if no stored id lies ahead of the counter |
| SessionGuarantees.RestartConserves | internal/session/manager.go:56-74 | the same for a counter seeded from the store, in terms of the stored numbers |
| SessionHandles.RowlessExactly | internal/session/manager.go:76-255 | in every reachable state where handles are within rows, for each id: the calls in flight can leave it live without a row if and only if it is doomed, as spelled out over the calls in flight |
| SessionHandles.DoomedBefore | internal/session/manager.go:76-255 | no step of a call in flight makes an id doomed that was not |
| SessionHandles.ResumedUnderDelete | internal/session/manager.go:172-244 | a run in which Resume attaches while the row is still there and Delete then removes it |
| SessionHandles.CreatedUnderDelete | internal/session/manager.go:114-244 | a run in which Create's own new row is removed before it attaches |
| SessionLive.SharedExactly | internal/session/manager.go:76-255 | from any start, over any run: two processes started for an id and not handed to Close exist exactly when the id has two holders among the handles, Creates in progress, Deletes in progress, and overwritten handles |
| SessionLive.SharedUnderDelete | internal/session/manager.go:180-247 | if no stored id lies ahead of the counter at the start: exactly when a Delete holds one unclosed and the id is live again or a second Delete holds another |
| SessionLive.TracksRun | internal/session/manager.go:76-255 | whatever is overwritten, every step keeps account of where each started process is, and no place holds two |
| SessionLive.ResumedBesideDelete | internal/session/manager.go:180-247 | a run to two live processes of one id |
| SessionLive.StaleSeedShares | internal/session/manager.go:56-81 | from any start with a stored id ahead of the counter, a run to two live processes of one id with no Delete holding either |
| SessionGuarantees.HandleOutlivesRow | internal/session/manager.go:172-206 | a run in which Resume attaches after Delete has removed the row it read |
| SessionGuarantees.CreateOver | internal/session/manager.go:119 | a run in which Create overwrites another process's handle |
| SessionGuarantees.Leak | internal/session/manager.go:76-255 | from every start with a stored id ahead of the counter, a run that loses a process |
| SessionGuarantees.DeleteReclaims | internal/session/manager.go:235-255 | Delete closes a handle whose row is already gone, whatever the store answers, and reports what closing it reported |
| SessionGuarantees.IdsNeverRepeat | internal/session/manager.go:80-81 | no two Creates of one manager return the same id, in any interleaving |
| SessionGuarantees.IdsIncrease | internal/session/manager.go:80-81 | a Create that begins later gets a larger number than every earlier one |
| SessionRows.RowsLastExactly | internal/session/manager.go:76-255 | over all runs from a start, a stored row changes only its activity stamp and a deleted id never comes back, if and only if no stored id lies ahead of the counter |
| SessionRows.ComesBack | internal/session/manager.go:56-114 | from any start with a stored id ahead of the counter, a run that deletes it and stores another session under it |
| SessionGuarantees.ExternalsRun | internal/store/sqlite.go:41-43 | external ids that are not blank stay pairwise distinct over every run |
| SessionManager.Manager.constructor | internal/session/manager.go:47-53 | an empty manager stands at the protocol's start |
| SessionManager.Manager.Init | internal/session/manager.go:56-74 | raises the counter to the parsed number of the store's last id, and changes nothing else |
| SessionManager.Manager.Create | internal/session/manager.go:76-136 | one call is one run of the protocol with the outcome spelled out, and keeps handles within rows, processes conserved, external ids distinct |
| SessionManager.CreateAllOrNothing | internal/session/manager.go:93-119 | Create leaves one new row, handle and process under the next id, or nothing but the number it drew and a process that was closed again |
| SessionFields.CreateThenGet | internal/session/manager.go:76-164 | Create succeeds exactly unless something fails or stands in the way; the new row holds the request's own fields and the resolved directory, blanks as NULL, and the Get that follows returns them; no other row changes |
| SessionFields.InsertedRow | internal/session/manager.go:83-114 | over any run, the row a Create inserts holds the fields of the request it was called with, however much happened in between |
| SessionFields.RecordSurvivesRow | internal/store/sqlite.go:136-175 | reading a stored row gives the record back, field by field |
| SessionFields.ResumedRows | internal/session/manager.go:205-209 | of the rows Resume changes the session's own stamp only, and of the handles its own |
| SessionManager.Manager.Get | internal/session/manager.go:138-164 | that row and that handle for a live session, not found for any other, and the store's failure as such |
| SessionManager.Manager.Resume | internal/session/manager.go:171-223 | starts one process exactly when the session is stored and not live, and otherwise changes nothing; the new state is spelled out |
| SessionManager.Manager.Delete | internal/session/manager.go:235-255 | afterwards neither handle nor, if the store answered, row; the handle's process is closed exactly once, and an error from closing it is returned |
| SessionManager.Manager.BumpLastActiveOnRunEnd | internal/session/manager.go:297-310 | the listener's loop is a run of activity updates |
| SessionManager.BumpedTouchesOnly | internal/session/manager.go:304-309 | those updates leave every other row and every other field alone, and leave the stamp of the last recorded end of a run |
| SessionManager.Store.CreateSession | internal/store/sqlite.go:136-148 | inserts, or reports a conflict of primary key or external id and changes nothing |
| SessionManager.Store.GetSession | internal/store/sqlite.go:150-175 | the row, or not found |
| SessionManager.Store.DeleteSession | internal/store/sqlite.go:245-255 | removes the row, reporting not found if there was none |
| SessionManager.Store.UpdateSessionActivity | internal/store/sqlite.go:257-267 | changes one field of one row, reporting not found if there was none |
| SessionManager.Store.GetMaxSessionID | internal/store/sqlite.go:318-337 | a scan in any order finds the matching id that sorts last |
| SessionStore.InsertKeepsDistinct | internal/store/sqlite.go:354-359 | inserting keeps external ids distinct, blanks counting as absent |
| SessionStore.SortedDesc | internal/store/sqlite.go:205-210 | the listing's order is newest first, without repetitions |
| SessionStore.OrderUnique | internal/store/sqlite.go:205-210 | with distinct timestamps no other order satisfies the query |
| SessionStore.Page | internal/store/sqlite.go:177-188 | a page continues where the offset says, is short only at the end and empty only past it, whatever limit and offset are asked for |
| SessionListing.PageShowsAskedFor | internal/store/sqlite.go:190-210 | every record of any page is a stored session whose user, external id and directory pass their filters |
| SessionListing.CrawlShowsExactly | internal/store/sqlite.go:177-243 | with no tie at a page boundary, a client that has paged to the end has exactly the stored sessions whose columns pass the filters |
| SessionListing.MatchesAskedFor | internal/store/sqlite.go:192-203 | a filter that is blank lets everything pass, any other is the value with margins |
| SessionListing.BlankQueryShowsAll | internal/store/sqlite.go:190-210 | without filters every stored session is listed |
| SessionPaging.PagingExact | internal/store/sqlite.go:177-243 | with a given limit, and with the database free to order equal timestamps anew for each page, a client sees every matching row once, newest first, if and only if no page boundary falls between two rows created at the same time |
| SessionPaging.PagingExactForAll | internal/store/sqlite.go:177-243 | with every limit, if and only if no two matching rows were created at the same time |
| SessionPaging.CrawlEnds | internal/store/sqlite.go:177-243 | whatever the orders, paging ends after at most one page more than there are rows, with as many records as rows |
| SessionPaging.CrawlOn | internal/store/sqlite.go:177-243 | from wherever it is, a client can go on to an end |
| SessionPaging.TieLosesRow | internal/store/sqlite.go:209-210 | from any tie at a page boundary, a run of pages that shows one row twice and another never |
| SessionStore.FoundByOwnExternalId | internal/store/sqlite.go:196-199 | a stored external id finds its session if and only if it has no space at either end |
| SessionStore.FoundByOwnWorkingDir | internal/store/sqlite.go:200-203 | likewise a stored working directory |
| SessionStore.SpacedExternalIdIsLost | internal/store/sqlite.go:196-199 | a session created under " x" is not found under it |
| SessionIds.MaxSessionId | internal/store/sqlite.go:318-337 | the matching id that sorts last, or "" |
| SessionIds.ParseInverts | internal/session/manager.go:61-72 | Init's parse undoes the id's formatting, for every number a uint64 holds |
| SessionIds.FormatInjective | internal/session/manager.go:81 | different numbers have different ids |
| SessionIds.IdText | internal/session/manager.go:81 | an id is "s_" and the number's digits, six of them unless it needs more |
| SessionIds.ForeignIdsIgnored | internal/store/sqlite.go:323 | ids that are not of that form do not disturb the seed |
| SessionIds.OrderOfIds | internal/store/sqlite.go:324 | the text order of two ids, exactly, in terms of their numbers |
| SessionIds.RestartExact | internal/session/manager.go:56-74 | after Init every later id is absent from the store if and only if the counter was already that far or the largest number's id sorts last |
| SessionIds.RestartFreshUpToMillion | internal/session/manager.go:56-74 | it always is with numbers up to 999999 |
| SessionIds.MillionthSessionBreaksSeed | internal/session/manager.go:56-81 | with s_999999 and s_1000000 stored the seed is 999999 and the next id is taken |
| RateWindow.Refines | internal/auth/ratelimit.go:34-89 | over any interleaving of requests and clean-ups with a clock that does not go back, every decision and retry time is that of the full history |
| RateWindow.AdmittedExactly | internal/auth/ratelimit.go:34-67 | after any traffic and clean-ups a request is admitted if and only if fewer than 30 of its address were admitted in the last 60 seconds |
| RateWindow.OthersUntouched | internal/auth/ratelimit.go:34-89 | a request of one address changes nothing for another, and a clean-up nothing for any |
| RateWindow.WindowBound | internal/auth/ratelimit.go:38-66 | no address is admitted more than 30 times in any window of 60 seconds |
| RateWindow.TableStaysOk | internal/auth/ratelimit.go:47-65 | stored stamps stay sorted and at most 30 |
| RateWindow.RefusalLasts | internal/auth/ratelimit.go:56-63 | after a refusal, while nothing is admitted, the next call is admitted if and only if the oldest live stamp has expired |
| RateWindow.RefusedThroughout | internal/auth/ratelimit.go:56-63 | before that instant nothing is admitted, whatever other traffic and clean-ups there are |
| RateWindow.RetryAfterExact | internal/auth/ratelimit.go:168-175 | the wait is between 1 and 60 seconds, suffices, loses less than a second in the header, and waiting the header's seconds suffices if and only if the oldest live stamp lies a whole number of seconds back or has at most one to go |
| RateWindow.HeaderTooShort | internal/auth/ratelimit.go:168-175 | after thirty requests at one instant, a client refused a nanosecond later is refused again after waiting the header's seconds |
| RateLimiter.IpEntry.Prune | internal/auth/ratelimit.go:47-54 | the in-place compaction leaves exactly the stamps inside the window, in order |
| RateLimiter.CompactStep | internal/auth/ratelimit.go:48-53 | one turn of the compaction never overwrites a stamp that is still to be read |
| RateLimiter.IpEntry.Reserve | internal/auth/ratelimit.go:65 | append's room, in the old array or a fresh one, with the stamps unchanged |
| RateLimiter.IpEntry.Put | internal/auth/ratelimit.go:65 | one more stamp at the end |
| RateLimiter.Limiter.constructor | internal/auth/ratelimit.go:27-31 | no entries |
| RateLimiter.Limiter.Allow | internal/auth/ratelimit.go:34-67 | the new table and the answer are those of the specification's step; no other address is affected |
| RateLimiter.Limiter.CleanEntry | internal/auth/ratelimit.go:75-85 | one address pruned, and dropped if nothing is left |
| RateLimiter.Limiter.Cleanup | internal/auth/ratelimit.go:69-88 | the loop over the map, in any order, cleans every address |
| RateWindow.CleanedExactly | internal/auth/ratelimit.go:75-85 | a clean-up leaves exactly the addresses admitted in the last 60 seconds, and of theirs exactly those stamps |
| ForwardedFor.TrimBlanks | internal/auth/ratelimit.go:139-149 | the two index loops trim blanks at both ends and nothing else |
| ForwardedFor.SplitCsv | internal/auth/ratelimit.go:120-137 | the index loop gives the trimmed, non-empty pieces between commas |
| ForwardedFor.Distributes | internal/auth/ratelimit.go:120-137 | splitting distributes over a comma |
| ForwardedFor.ExactlyFields | internal/auth/ratelimit.go:120-149 | the lists it can return are exactly those of non-empty, comma-free, trimmed pieces, and joining such a list is undone |
| ForwardedFor.ClientIp | internal/auth/ratelimit.go:92-118 | the header precedence and the search for the first address |
| ForwardedFor.HeadersIgnored | internal/auth/ratelimit.go:92-118 | not behind a proxy no header has any say: the address is the peer's host, or its raw address |
| ForwardedFor.FirstHeaderDecides | internal/auth/ratelimit.go:93-111 | behind one the first header that is set decides, whatever the later ones and the peer are |
| ForwardedFor.FirstOfChain | internal/auth/ratelimit.go:97-108 | of a forwarding chain the first address counts, in its canonical spelling; a single address, or none, is taken as it stands |
| ForwardedFor.AppendedProxy | internal/auth/ratelimit.go:92-118 | when an appending proxy leaves the client's address unchanged, exactly |
| ForwardedFor.AppendedProxyRespells | internal/auth/ratelimit.go:92-118 | a single address in its long spelling changes when a proxy appends itself |
| ApiKeys.ParseApiKeys | internal/auth/auth.go:38-70 | the loops give the valid entries between semicolons, in order |
| ApiKeys.ParseOne | internal/auth/auth.go:46-67 | the checks one entry has to pass |
| ApiKeys.ParseScopes | internal/auth/auth.go:60-66 | the trimmed, non-empty scopes |
| ApiKeys.OuterTrim | internal/auth/auth.go:39 | trimming the whole text first changes nothing |
| ApiKeys.Distributes | internal/auth/auth.go:44-69 | parsing distributes over a semicolon, for all strings |
| ApiKeys.MalformedSkipped | internal/auth/auth.go:47-59 | a malformed entry vanishes and leaves its neighbours alone |
| ApiKeys.RoundTrip | internal/auth/auth.go:36-70 | for any keys the documented format can carry, parsing undoes printing if and only if each has a scope |
| ApiKeys.Reprint | internal/auth/auth.go:36-70 | for any text, the keys read from it can be carried by the format, and survive printing and parsing again if and only if the third field of every accepted entry has a character that is neither a comma nor a space |
| ApiKeys.AcceptedMeans | internal/auth/auth.go:46-59 | an entry is accepted if and only if it has three fields and none of them is blank |
| ApiKeys.KeyWithoutScope | internal/auth/auth.go:57-67 | an entry whose scopes are a bare comma is accepted with no scope |
| Paths.CleanIdempotent | internal/process/rpc_manager.go:85 | a cleaned path is clean, and as rooted as before |
| Paths.AbsIdempotent | internal/process/rpc_manager.go:52 | an absolute path is left alone |
| Paths.NameSurvivesJoin | internal/process/rpc_manager.go:85 | an ordinary name joined last stays last |
| Paths.NameSurvivesAbs | internal/process/rpc_manager.go:89 | and stays last when the path is made absolute |
| SessionDirs.EncodeCwdSlug | internal/process/rpc_manager.go:66-77 | whatever the directory, one ordinary path element without separators or colons |
| SessionDirs.ResumeResolvesSame | internal/process/rpc_manager.go:42-64 | Resume resolves the stored directory to itself, exactly when |
| SessionDirs.ResumedElsewhere | internal/process/rpc_manager.go:42-64 | a session created at "/a /." runs in "/a " and is resumed in "/a" |
| SessionDirs.DirEndsInId | internal/process/rpc_manager.go:85-92 | a session directory's last element is the session id, for any user name and directory |
| SessionDirs.DistinctDirs | internal/process/rpc_manager.go:85-92 | different ids never share a directory |
| SessionTree.SessionDirElements | internal/process/rpc_manager.go:85-92 | below the base directory come the user id's own elements, the slug and the session id |
| SessionTree.InsideExactly | internal/process/rpc_manager.go:85-92 | a session's directory lies under the base, whichever that is, if and only if the user id read as a path never goes above where it starts |
| SessionTree.LeftBehind | internal/process/rpc_manager.go:85-92 | for any other user id, a base directory that it leaves |
| SessionTree.PlainUserInside | internal/process/rpc_manager.go:85-92 | of the user ids without a separator, that leaves out only ".." |
| SessionDirs.SlugMergesDirectories | internal/process/rpc_manager.go:66-77 | two directories with one slug |
| SessionDirs.SlugsCollideIff | internal/process/rpc_manager.go:66-77 | exactly which directories share a slug |
| SessionDirs.WithArgValue | internal/process/rpc_manager.go:172-184 | the loop replaces the value after the first key, or appends what is missing |
| SessionDirs.SetArgAt | internal/process/rpc_manager.go:173-181 | where the key occurs, only the argument after its first occurrence changes, or is added |
| SessionDirs.SetArgAbsent | internal/process/rpc_manager.go:183 | where it does not, both are added at the end |
| SessionDirs.SetArgSets | internal/process/rpc_manager.go:172-184 | the key's value is then the one given |
| SessionDirs.LastWriteWins | internal/process/rpc_manager.go:172-184 | a second write replaces the first |
| SessionDirs.ResumeReplaysCreate | internal/process/rpc_manager.go:79-108 | Create's and Resume's command lines name the same session directory, and a transcript adds the continue flag |
| SessionDirs.StartArgsExactly | internal/process/rpc_manager.go:100-108 | the whole command line, with and without a session directory among the configured arguments |
| SessionDirs.BaseArgsReachProcess | internal/process/rpc_manager.go:100-108 | arguments that name no session directory come first and unchanged, and the process is told to continue exactly for a transcript or if they say so |
| SessionDirs.OtherArgsReachProcess | internal/process/rpc_manager.go:100-108 | of arguments that name one, everything but the value after the first key keeps its place |
| SessionDirs.ResolveMeans | internal/process/rpc_manager.go:42-64 | a configured default decides alone, else the request without its margins; what is chosen is an existing directory, absolute |
| SessionDirs.SlugText | internal/process/rpc_manager.go:66-77 | the slug's text: two dashes on either side, dashes for separators and colons |
| ByteUnits.FormatBytes | cmd/server/status.go:137-148 | for every int64 the loop ends with div <= b < 1024 div, div the power of 1024 that belongs to the letter, within bounds of the letters and without overflow; the letter is the customary one for the size |
| ByteUnits.ShiftIsQuotient | cmd/server/status.go:143-146 | repeated truncating division is one division by the power |
| ByteUnits.UnitUnique | cmd/server/status.go:142-147 | no other unit would fit |

## Left out

- HTTP handlers, WebSockets, artifact serving, status printing, wiring in main: not modelled.
- Authentication checks other than key parsing (bearer lookup, scopes, local-connection detection): not modelled.
- JSON: decoding is a parameter of `LineDemux`, and the fields of an event's payload are not copied out one by one.
- The SQL engine, pragmas, migrations and the unused message mirror: the sessions table is a map with its two uniqueness constraints; building the query's text is not modelled, and the `pi_pid` column, which the manager never sets, is left out.
- Time: `created_at` is the text the store sorts by ; clock readings are parameters.
- Processes, pipes, signals and the file system: starting, exiting, writing and closing are steps that may or may not happen; which paths are directories is a parameter.
- RpcProtocol.InvStep: the signal, timer and kill in Close are not steps, because they only make the process's exit, which may happen at any time, come about; stdin writes are one step that succeeds or fails.
- RpcHandle.Handle.Subscribe: its watcher goroutine and contexts are steps of the protocol and not fields of the class; the channel's capacity and contents are in `Fanout`.
- LineDemux.MapRPCLine: its contract does not list which event each line type gives; `EventNames` does, family by family.
- Fanout.Table.Broadcast: in interleavings with other operations a broadcast is one step, as it holds the lock throughout.
- Counters are unbounded: the wrap-around of the uint64 request, subscriber and session counters is not modelled.
- SessionDirs.WithArgValue: works on a sequence; the code overwrites a slice that its one caller has just copied.
- Failures of `filepath.Abs`, `os.MkdirAll` and `os.Getwd` are failures to start.
- ByteUnits.FormatBytes: gives the quotient's operands and the letter; the rounding of "%.1f" is not modelled.
- The noop handle's messages and state, and `SendUIResponse`, `GetState`, `GetMessages` and their decoding: only `sendCommand` under them is modelled.
- ForwardedFor.ClientIp: `net.ParseIP` and `net.SplitHostPort` are parameters.
