# DawnShell, verified

DawnShell keeps a Debian system running beside Android from before the first
unlock. This project models its dense cores in Dafny 4.11 and proves what they
promise. `dafny verify dfyconfig.toml` checks all of it.

| module | part of the system |
|---|---|
| `Transport` | the shared-memory call between the Debian codec client and its private worker, as two processes stepping in any order |
| `TransportRepeats` | how often a request is run when calls may time out |
| `TransportResumes`, `TransportRefusals` | what the transport promises again after timeouts, and when a response is refused |
| `Wire`, `Bytes`, `CodecStatus` | the 32-byte protocol header, its big-endian fields and the status words |
| `CodecSession` | one codec session: input, end of stream, flush |
| `WorkerState` | the worker's session table and dispatcher |
| `CodecClient` | calls and retry loops on top of all of these |
| `SeccompFilter` | a packet-filter interpreter, a block assembler, and the three seccomp programs |
| `Pixels` | strided YUV planes to I420, and I420 to NV12 |
| `SupervisorLock` | the native launcher's commands, its inherited lock, state record and process identities |
| `SupervisorRecord` | whom the state record names, and when a running supervisor can drop out of it |
| `SupervisorStart` | when a start goes on to fork, and that a stop arrives |
| `SuperviseLoop` | the supervisor's wait-scan-stop-kill loop |
| `ExclusiveUsb` | taking USB interfaces from their drivers and giving them back |
| `StateFile` | the launcher's state record as text, replaced by rename |
| `LifecycleScheduler` | the Android service's preemptible requests on a one-thread executor |
| `UsbIds`, `CommandLine` | settings to shell command to launcher arguments |
| `Base64`, `SshKey`, `AuthorizedKeys` | the generated Ed25519 identity and the key validator |
| `TailBuffer` | the ring that keeps the end of a command's output |
| `AnnexB` | splitting an H.264 stream at access unit delimiters |
| `Options`, `Text` | shared helpers |

Concurrent parts are step systems: a run is any list of enabled steps, an
invariant is proved for every step, and the main results hold after every run.
Code that updates objects, arrays or loop variables is a class or a method, and
each method is proved against a function of the old state about which the
properties are then proved. Kernel, platform and clock answers are parameters,
so every answer is covered.

## What the proofs found

- After one timed-out call the worker can execute the next request twice
  (`TransportRepeats.OneTimeoutCanExecuteACallTwice`, `OldSequenceCanRunNewBytes`).
  Exactly when that can happen is `RequestRunsTwiceIff`; without timeouts every call
  is executed exactly once, and after timeouts again from every state without
  leftovers (`TransportResumes.ResumesSequentialServer`). A late response can make
  the next call fail; exactly when is `TransportRefusals.RefusedIff`, and no such
  failure lasts (`NextCallCanReturn`). With timeouts the sequence
  check still keeps late responses out for the first 2^32 - 1 calls; call 2^32 is
  the first whose sequence repeats, and sequence and id together repeat only after
  2^32 * (2^32 - 1) calls.
- The request id is not made to skip 0 as the sequence is, and the worker refuses
  id 0: every 2^32-th call fails (`Wire.RefusedCalls`).
- A transcoder whose encoder refuses a flush keeps `input_eos` set although its
  decoder's stream is already empty (`CodecSession.HalfFlushShutsAFreshStream`);
  the flag is right exactly when that has not happened (`FlagMatchesStream`).
- With the BFU mode off, every task that ends asks for the service to be stopped,
  and `onDestroy` shuts the executor down: an accepted stop that preempted a
  status request can be dropped (`LifecycleScheduler.StatusCanLoseAStop`). Exactly
  when a stop can be lost is `StopCanBeLostIff`.
- `dockerPolicyStarted` stays set for as long as the service instance lives once a
  docker settings task is cancelled before it starts; settings requests are then
  refused (`DockerFlagMeaning`, `DroppedDockerTaskSticks`,
  `StopCanStrandTheDockerFlag`).
- A scan reads vendor, product and driver and writes the unbind request at
  different times, so a device plugged in between can be taken although the filter
  does not name it (`ExclusiveUsb.ReplugCanBeTaken`, exactly when:
  `TakesOutsideIff`); it is recorded and given back like the others.
- Force-stop writes its cleared record without holding the lock, so it can erase
  the record of a supervisor that started meanwhile
  (`SupervisorLock.ForceStopCanHideARunningSupervisor`); exactly when that threat
  stands is `SupervisorRecord.CanBeHiddenIff`.
- Dead branches: the padding of a private key is never 0 bytes, the printed state
  record never reaches its 1024-byte buffer, and the transport never sees a
  request larger than its slot. In its head mode the output collector drops the
  rest of a stream without marking the report as cut.

## Model

| member | source | states |
|---|---|---|
| `Transport.RefinesSequentialServer` | app/src/main/cpp/dawnshell_codec_client.c:447-479 | In every client/worker interleaving in which no call times out: at most one of request signal, busy worker and response signal; neither slot is written while the other side uses it; every request is executed exactly once, in order, on its own bytes; every returned call returned what a plain sequential server replies; none is refused. No bound on the number of calls. |
| `Transport.NoLateResponseAccepted` | app/src/main/cpp/dawnshell_codec_client.c:460-478 | In every run, timeouts and stale signals included, a call among the first 2^32 - 1 that gets past the sequence check received every byte of its response from a dispatch that loaded this call's sequence and ran on exactly this call's request. |
| `Transport.CallCanComplete` | app/src/main/cpp/dawnshell_codec_worker.c:474-513 | Without timeouts a call in progress always has an enabled step that brings it strictly closer to returning: no deadlock and no spinning. |
| `TransportRepeats.RequestRunsTwiceIff` | app/src/main/cpp/dawnshell_codec_client.c:460-468 | From every reachable state with an idle client, whatever calls were abandoned before, the next request can be run twice before another call begins if and only if the worker has a leftover to spend on it: a stale wake-up, an abandoned sequence whose request length it has not loaded, or a fetch of as many bytes that begins like this request. |
| `TransportRepeats.RunAtMostOnce` | app/src/main/cpp/dawnshell_codec_worker.c:485-512 | Without such a leftover the next request is run at most once, under whatever sequence, until another call begins. |
| `TransportRepeats.LeftoverRepeats` | app/src/main/cpp/dawnshell_codec_worker.c:485-512 | With one, a run of both processes executes exactly this request twice, whatever its bytes. |
| `TransportResumes.ResumesSequentialServer` | app/src/main/cpp/dawnshell_codec_client.c:447-479 | After any timeouts, from every reachable state with an idle client and neither a stale wake-up nor an abandoned sequence at hand, over every continuation in which no call times out or is refused, up to call 2^32 - 1: each new call is executed exactly once, in order, on its own request, and returns the reply the sequential server gives from the state it had; at most one old request runs before them, and it is none the worker was not already fetching like. |
| `TransportRefusals.RefusedIff` | app/src/main/cpp/dawnshell_codec_client.c:466-478 | From every reachable state with an idle client, up to call 2^32 - 1 and whatever was abandoned or refused before, the next call can be refused if and only if something of an abandoned call is still on its way: a signal in either direction or a worker that is not waiting for one. |
| `TransportRefusals.NoLeftoverNoRefusal` | app/src/main/cpp/dawnshell_codec_client.c:447-479 | From every reachable state without such leftovers, over every continuation without timeouts and with no bound on the calls: no call is refused, each is executed exactly once on its own request and returns the sequential server's reply. |
| `TransportRefusals.NoLeftoverCompletes` | app/src/main/cpp/dawnshell_codec_worker.c:474-513 | And a call in progress always has a step that brings it strictly closer to returning. |
| `TransportRefusals.LetThroughIff` | app/src/main/cpp/dawnshell_codec_client.c:469-476 | In every run a call among the first 2^32 - 1 is let through exactly when the sequence it loaded is its own, however many were refused before. |
| `TransportRefusals.NextCallCanReturn` | app/src/main/cpp/dawnshell_codec_client.c:447-479 | No refusal lasts: from every reachable idle state, whatever leftovers there are, the next call can return and leave none. |
| `TransportResumes.ResumeFrom` | app/src/main/cpp/dawnshell_codec_worker.c:474-513 | Every step of such a continuation keeps the turn-taking invariant counted from its first call. |
| `TransportRepeats.SequenceRepeatsIff` | app/src/main/cpp/dawnshell_codec_client.c:460-468 | The next call can be dispatched twice under its own sequence if and only if a stale wake-up is about: a pending request signal, or a worker that has read one and not yet loaded a sequence. |
| `TransportRepeats.AtMostOnceFromQuiet` | app/src/main/cpp/dawnshell_codec_worker.c:485-512 | A call begun without a stale wake-up is dispatched at most once under its own sequence, whatever follows: timeouts, later calls, stale responses. |
| `TransportRepeats.StaleWakeUpRepeats` | app/src/main/cpp/dawnshell_codec_worker.c:485-512 | With one, the next call, whatever its message, can be executed twice on exactly that message. |
| `TransportRepeats.ExecutionsInOrder` | app/src/main/cpp/dawnshell_codec_worker.c:485-512 | In every run, timeouts included: never more executions than calls, in the order of the calls, so each repeat costs an earlier call its execution. |
| `TransportRepeats.OneTimeoutCanExecuteACallTwice` | app/src/main/cpp/dawnshell_codec_worker.c:485-512 | For every worker and every two messages, one timed-out call suffices for the second to be executed twice and the first never. |
| `TransportRepeats.OldSequenceCanRunNewBytes` | app/src/main/cpp/dawnshell_codec_worker.c:488-503 | The case of a loaded sequence at work, for every two messages: the worker runs the second request under the abandoned sequence and then again under its own (exactly when that can happen: RequestRunsTwiceIff). |
| `Transport.ReachableInv` | app/src/main/cpp/dawnshell_codec_worker.c:474-513 | Every step of both processes keeps the invariant that ties each published word and each slot byte to the call and dispatch that stored it. |
| `Transport.ReachableSync` | app/src/main/cpp/dawnshell_codec_client.c:455-478 | Every step but a timeout keeps the turn-taking invariant and the match between executions, replies and the sequential server. |
| `Transport.SequenceClosedForm` | app/src/main/cpp/dawnshell_codec_client.c:460-461 | Call k carries sequence (k - 1) mod (2^32 - 1) + 1. |
| `Transport.SequenceCollides` | app/src/main/cpp/dawnshell_codec_client.c:460-461 | The sequence is never 0, and two calls share one exactly when their distance is a multiple of 2^32 - 1. |
| `Transport.SequenceIdentifiesCall` | app/src/main/cpp/dawnshell_codec_client.c:460-461 | Up to call 2^32 - 1 the sequence identifies the call, the initial 0 included. |
| `Transport.FirstCollision` | app/src/main/cpp/dawnshell_codec_client.c:460-461 | Call 2^32 repeats the sequence of call 1, so the bound above is tight. |
| `Wire.RequestRoundTrip` | app/src/main/cpp/dawnshell_codec_worker.c:301-330 | The worker decodes every client request to exactly its fields and accepts it if and only if the type has no response bit and the id is not 0. |
| `Wire.ResponseRoundTrip` | app/src/main/cpp/dawnshell_codec_client.c:170-202 | The reply fits its slot, and parse_response returns the same status (negative ones through the unsigned field), session and payload. |
| `Wire.ForeignResponseRefused` | app/src/main/cpp/dawnshell_codec_client.c:170-186 | A reply with another request id or another type is refused. |
| `Wire.OnlyRequestsAreValid` | app/src/main/cpp/dawnshell_codec_worker.c:301-330 | The worker accepts nothing but encodings of requests: each slot content it takes is the one byte string that encodes that request. |
| `Wire.OnlyResponsesParse` | app/src/main/cpp/dawnshell_codec_client.c:170-202 | The client likewise takes for a response to a call only the one byte string that encodes it. |
| `Wire.RefusalStatus` | app/src/main/cpp/dawnshell_codec_worker.c:306-328 | Everything else is refused, with the version status exactly when the version word is not 1. |
| `Wire.RefusedCalls` | app/src/main/cpp/dawnshell_codec_client.c:456-459 | The id counter, which does not skip 0, is refused by the worker exactly at every 2^32-th call. |
| `Wire.HeaderFields` | app/src/main/cpp/dawnshell_codec_worker.c:408-419 | Every header field is read back from its offset, whatever the payload. |
| `Bytes.GetPutU64` | app/src/main/cpp/dawnshell_codec_ndk.c:765-772 | Big-endian 64-bit words survive writing and reading at any offset. |
| `Bytes.PutGetU64` | app/src/main/cpp/dawnshell_codec_ndk.c:765-772 | And every eight bytes are the word read from them. |
| `CodecSession.SessionsAreWellFed` | app/src/main/cpp/dawnshell_codec_ndk.c:653-762 | For every sequence of requests and platform answers, half-failed flushes included: until a complete flush nothing but incomplete flushes follows an end of stream, frames of a timed encoder carry strictly increasing timestamps within a stream, and the end-of-stream flag is set exactly when an end of stream came after the last complete flush. |
| `CodecSession.FlagMatchesStream` | app/src/main/cpp/dawnshell_codec_ndk.c:1013-1036 | Over every run the flag tells the truth about the input codec's current stream if and only if no flush half-failed since the end of stream. |
| `CodecSession.PlainSessionsMatch` | app/src/main/cpp/dawnshell_codec_ndk.c:1022-1036 | Sessions that are not transcoders always have a truthful flag. |
| `CodecSession.HalfFlushShutsAFreshStream` | app/src/main/cpp/dawnshell_codec_ndk.c:1017-1029 | It happens: a transcoder whose encoder refuses the flush keeps closed a decoder whose stream is empty. |
| `CodecSession.FlushStatus` | app/src/main/cpp/dawnshell_codec_ndk.c:1013-1036 | A flush succeeds exactly if both platform flushes do; success opens the session and lets the transcoder pump again; a flush that fails, even half-way, leaves the end of stream in force. |
| `CodecSession.QueueStatus` | app/src/main/cpp/dawnshell_codec_ndk.c:714-726 | Success means the record entered the codec exactly once, AGAIN and a closed stream that nothing did, and a refusal leaves nothing, an empty buffer or, in a transcoder whose pump then failed, the record. |
| `CodecSession.QueueVerdict` | app/src/main/cpp/dawnshell_codec_ndk.c:653-712 | The status of every input attempt from what the codec was fed and what the platform answers: when the platform takes the record it is OK exactly if no end of stream is open, size and flags are legal, and a timed frame is later than every frame of its stream; which status each refusal gives. |
| `CodecSession.EosVerdict` | app/src/main/cpp/dawnshell_codec_ndk.c:728-762 | Likewise for the end of stream: OK exactly if none is open and the platform takes it. |
| `CodecSession.AcceptedIff` | app/src/main/cpp/dawnshell_codec_ndk.c:653-762 | Both over every run of a session of either kind. |
| `CodecSession.StatsMatchHistory` | app/src/main/cpp/dawnshell_codec_ndk.c:695-704 | Over every run the counters for records, frames, bytes and ends of stream are those of what the codec was fed. |
| `CodecSession.FailuresCounted` | app/src/main/cpp/dawnshell_codec_ndk.c:714-762 | AGAIN and negative statuses are each counted once, except a pump that fails around an end of stream, which is not counted. |
| `CodecSession.SurfaceFrames` | app/src/main/cpp/dawnshell_codec_ndk.c:618-651 | The frames a transcoder moved on are those of the pump before an admitted input and, if it fed the codec, of the pump after it. |
| `CodecSession.EosStatus` | app/src/main/cpp/dawnshell_codec_ndk.c:728-762 | The same for the end-of-stream request. |
| `CodecSession.EndedUntilFlushed` | app/src/main/cpp/dawnshell_codec_ndk.c:1013-1036 | After an end of stream, over any requests without a successful flush, all input and further ends of stream are refused and the codec receives nothing. |
| `CodecSession.OpKeepsInv` | app/src/main/cpp/dawnshell_codec_ndk.c:653-762 | One input, end of stream or flush keeps the session invariant, whatever the platform answers. |
| `CodecSession.FlushReopens` | app/src/main/cpp/dawnshell_codec_ndk.c:1013-1036 | After a successful flush the next frame is accepted again, whatever its timestamp. |
| `CodecSession.CodecObject.PumpTranscoder` | app/src/main/cpp/dawnshell_codec_ndk.c:618-651 | The input side of the session is untouched; once the end of stream was signalled to the encoder nothing moves any more. |
| `CodecSession.CodecObject.Enqueue` | app/src/main/cpp/dawnshell_codec_ndk.c:653-726 | Keeps the session well fed and its flags true; the status is exactly what history and platform say; success puts the record into the codec exactly once, AGAIN and a closed stream leave the codec alone. |
| `CodecSession.CodecObject.EnqueueEos` | app/src/main/cpp/dawnshell_codec_ndk.c:728-762 | Keeps the session well fed; the status is exactly what history and platform say; success ends the stream exactly once, and a second end is refused. |
| `CodecSession.CodecObject.Reset` | app/src/main/cpp/dawnshell_codec_ndk.c:1013-1036 | Keeps the session well fed; success leaves no open end of stream, failure leaves the end of stream as it was. |
| `WorkerState.SessionIds` | app/src/main/cpp/dawnshell_codec_worker.c:121-202 | Over every request sequence with fewer than 2^64 - 1 creates: at most two live sessions, all ids non-zero and distinct, and a closed id unknown to every later request. |
| `WorkerState.ShutdownConserves` | app/src/main/cpp/dawnshell_codec_worker.c:514-516 | After any request sequence, shutdown has destroyed every codec handle ever created exactly once. |
| `WorkerState.CountersMatchReplies` | app/src/main/cpp/dawnshell_codec_worker.c:301-406 | The request counter is the number of requests and the error counter the number of negative replies, on 64 bits. |
| `WorkerState.RunKeeps` | app/src/main/cpp/dawnshell_codec_worker.c:301-406 | Every request sequence keeps the table invariant: handles created are the live ones plus those destroyed, and every live session is fed correctly. |
| `WorkerState.SessionsHaveOrigins` | app/src/main/cpp/dawnshell_codec_worker.c:142-202 | Over every run each live session was made by one create request, which got its id as the reply; it transcodes exactly if that request asked for a transcoder, and is held to rising timestamps exactly if it asked for an encoder. |
| `WorkerState.IdsDistinct` | app/src/main/cpp/dawnshell_codec_worker.c:165-166 | The id counter, which skips 0, does not repeat within 2^64 - 1 creates, from any start value. |
| `WorkerState.ClosedIsUnknown` | app/src/main/cpp/dawnshell_codec_worker.c:204-213 | A request on a destroyed session is refused and changes nothing. |
| `WorkerState.WorkerObject.FindSlot` | app/src/main/cpp/dawnshell_codec_worker.c:121-134 | The first slot with the id, or none. |
| `WorkerState.WorkerObject.CloseSlot` | app/src/main/cpp/dawnshell_codec_worker.c:136-140 | The slot is free and a live handle is destroyed exactly once. |
| `WorkerState.WorkerObject.CreateSession` | app/src/main/cpp/dawnshell_codec_worker.c:142-202 | A slot is filled exactly if the length is right, a slot is free and the platform succeeds: with a fresh session of the asked kind under a new non-zero id, no other slot changed; otherwise nothing changes and the reply says why. |
| `WorkerState.WorkerObject.SessionRequest` | app/src/main/cpp/dawnshell_codec_worker.c:204-299 | No other session changes; an unknown session is refused without effect; a live one answers exactly what its history and the platform say; success means exactly one record, one end of stream or one reset in the codec, or exactly one destroyed handle; an output request replies with the dequeued output. |
| `WorkerState.WorkerObject.RouteRequest` | app/src/main/cpp/dawnshell_codec_worker.c:332-403 | By its kind a valid request creates a session (a transcoder or a timed encoder exactly as asked), touches one session only, or leaves the table alone, with the status and the payload it should have. |
| `WorkerState.WorkerObject.DispatchRequest` | app/src/main/cpp/dawnshell_codec_worker.c:301-406 | The table keeps its invariant (ids, handles live or destroyed once, sessions well fed); the request is counted, as an error exactly when the reply is negative; a malformed one changes nothing; a valid one does what its kind promises. |
| `WorkerState.WorkerObject.Shutdown` | app/src/main/cpp/dawnshell_codec_worker.c:514-516 | After the closing loop every handle ever created has been destroyed exactly once. |
| `CodecClient.CallsReturnTheirDispatch` | app/src/main/cpp/dawnshell_codec_client.c:447-479 | End to end without timeouts: the i-th call returns status, session and payload of the worker's dispatch of exactly that call after exactly the calls before it. |
| `CodecClient.InputRetries` | app/src/main/cpp/dawnshell_codec_client.c:823-857 | End to end over every transport run without timeouts: however often the worker answered AGAIN, the last answer tells what entered the codec over all the retries, on success the record exactly once; no other session changes. |
| `CodecClient.EosRetries` | app/src/main/cpp/dawnshell_codec_client.c:859-877 | The same for the end of stream. |
| `CodecClient.OneDispatch` | app/src/main/cpp/dawnshell_codec_client.c:447-479 | Each returned call of such a run was one dispatch, whose status it returned. |
| `CodecClient.InputRetriesAgain` | app/src/main/cpp/dawnshell_codec_client.c:823-857 | The retry loop after any timeouts, begun in a state without leftovers for its first request, over every continuation in which its calls return: the last answer tells what entered the codec over all the retries, on success the record exactly once; and the old request that may run before them is not that request. |
| `CodecClient.EosRetriesAgain` | app/src/main/cpp/dawnshell_codec_client.c:859-877 | The end-of-stream loop after any timeouts likewise. |
| `CodecClient.OneDispatchAgain` | app/src/main/cpp/dawnshell_codec_client.c:447-479 | Each returned call of such a continuation was one dispatch, whose status it returned. |
| `CodecClient.CallNumbersCollide` | app/src/main/cpp/dawnshell_codec_client.c:456-461 | A response can pass both the sequence and the id check of another call exactly when the two calls lie a multiple of 2^32 * (2^32 - 1) apart. |
| `CodecClient.TryUntilTaken` | app/src/main/cpp/dawnshell_codec_client.c:839-855 | The loop tries again exactly as long as the answer is AGAIN and then returns what the last attempt says. |
| `CodecClient.QueueInput` | app/src/main/cpp/dawnshell_codec_client.c:823-857 | The loop itself, over scripted call outcomes that may also be lost: when it tries again, what it returns, and what each result leaves in the codec. |
| `CodecClient.QueueEnd` | app/src/main/cpp/dawnshell_codec_client.c:859-877 | The same loop for the end of stream. |
| `CodecClient.LiveSessionsWellFed` | app/src/main/cpp/dawnshell_codec_worker.c:217-257 | Over any run of the worker every live session's codec is fed correctly; whether its frames must carry rising timestamps is decided by the mode word of the create request that made it. |
| `CodecClient.FrameVerdict` | app/src/main/cpp/dawnshell_codec_worker.c:217-229 | The status of a frame sent to a live session, from the create request that made it, its codec's history and the platform. |
| `CodecClient.InputDispatch` | app/src/main/cpp/dawnshell_codec_worker.c:217-229 | One delivered INPUT request, from the client's bytes to what the codec received. |
| `CodecClient.EosDispatch` | app/src/main/cpp/dawnshell_codec_worker.c:243-250 | One delivered EOS request likewise. |
| `CodecClient.ProcessRuns` | app/src/main/cpp/dawnshell_codec_worker.c:474-513 | The worker's main loop as a sequential server is the request-by-request run of the dispatcher. |
| `CodecClient.ProcessFitsSlot` | app/src/main/cpp/dawnshell_codec_worker.c:408-419 | Every reply of the worker fits the response slot. |
| `SeccompFilter.AssembledMeaning` | app/src/main/cpp/bfu_namespace_probe.c:2628-2658 | For every list of blocks, present or compiled out, the assembled relative-jump program gives the errno of the first matching block when the architecture matches, and ALLOW otherwise; it always returns. |
| `SeccompFilter.BodyEval` | app/src/main/cpp/bfu_namespace_probe.c:2633-2657 | The same for the part after the architecture test, from any accumulator. |
| `SeccompFilter.BlockEval` | app/src/main/cpp/bfu_namespace_probe.c:2636-2641 | One block either returns its errno or falls through to the next instruction. |
| `SeccompFilter.IpcIsAssembled` | app/src/main/cpp/bfu_namespace_probe.c:2628-2658 | The hand-written IPC filter is the assembled program for every subset of defined system calls. |
| `SeccompFilter.IpcFilterMeaning` | app/src/main/cpp/bfu_namespace_probe.c:2628-2658 | It denies exactly unshare and clone with CLONE_NEWIPC (EPERM) and clone3 (ENOSYS), for every subset of defined system calls. |
| `SeccompFilter.CloseRangeFilterMeaning` | app/src/main/cpp/dawnshell_close_range_guard.h:110-120 | Denies exactly close_range with ENOSYS on the native architecture. |
| `SeccompFilter.KeyctlFilterMeaning` | app/src/main/cpp/dawnshell_keyring_guard.h:126-139 | Denies exactly keyctl(KEYCTL_JOIN_SESSION_KEYRING) with ENOSYS on the native architecture. |
| `SeccompFilter.DenialIsAMatch` | app/src/main/cpp/bfu_namespace_probe.c:2628-2658 | A denial names a block that matched. |
| `SeccompFilter.StackDeniesUnion` | app/src/main/cpp/dawnshell_keyring_guard.h:126-150 | A stack of filters denies a call exactly when one of them does. |
| `Pixels.NormalizeImage` | app/src/main/cpp/dawnshell_codec_ndk.c:814-874 | Succeeds exactly on packable images, then writes exactly width*height*3/2 bytes, the cropped Y, U and V planes in row-major order, and nothing past them or past the capacity; which error each other image gives. |
| `Pixels.PackableIff` | app/src/main/cpp/dawnshell_codec_ndk.c:814-860 | An image can be packed exactly when it has three YUV planes, an even, non-empty crop within the capacity, and every luma sample of the crop and chroma sample of the halved crop mapped. |
| `Pixels.FrameAt` | app/src/main/cpp/dawnshell_codec_ndk.c:853-870 | The packed frame sample by sample, by plane, stride and crop. |
| `Pixels.PackRow` | app/src/main/cpp/dawnshell_codec_ndk.c:861-869 | The block copy and the per-pixel loop produce the same row. |
| `Pixels.PackPlane` | app/src/main/cpp/dawnshell_codec_ndk.c:853-870 | All rows of one plane, or an error at the first row that leaves the mapped data. |
| `Pixels.PackOne` | app/src/main/cpp/dawnshell_codec_ndk.c:836-870 | One plane with its subsampled crop. |
| `Pixels.PackPlanes` | app/src/main/cpp/dawnshell_codec_ndk.c:834-873 | Three planes one after the other. |
| `Pixels.ConvertForEncoder` | app/src/main/cpp/dawnshell_codec_client.c:1272-1294 | NV12 interleaving for the semi-planar format, the frame itself for the planar ones, failure otherwise. |
| `Pixels.Nv12RoundTrip` | app/src/main/cpp/dawnshell_codec_client.c:1278-1286 | Packing the NV12 view of an interleaved I420 frame gives the frame back, for every even width and height. |
| `Pixels.RowsAt` | app/src/main/cpp/dawnshell_codec_ndk.c:853-870 | Where pixel (row, column) ends up. |
| `Pixels.FrameLength` | app/src/main/cpp/dawnshell_codec_ndk.c:826-833 | The three planes fill exactly width*height*3/2 bytes. |
| `Pixels.PlaneIsSlice` | app/src/main/cpp/dawnshell_codec_ndk.c:853-870 | A plane whose rows are adjacent is one slice of the frame. |
| `ExclusiveUsb.TakenInterfacesAreRecorded` | app/src/main/cpp/bfu_namespace_probe.c:2169-2254 | Over any run of scans, with hotplug and foreign binds between any two reads and writes, failed unbinds and a full table: at most 64 uniquely named records, and every taken and still driverless interface has a record marked detached with the driver it came from. |
| `ExclusiveUsb.VisitTakesIff` | app/src/main/cpp/bfu_namespace_probe.c:2169-2254 | Over every run, an undisturbed visit takes a bound interface exactly when its name is safe, the filter names its device, its driver has a safe name, there is room, no retry delay runs and the kernel goes along; it is then recorded as detached from that driver. |
| `ExclusiveUsb.TakenIff` | app/src/main/cpp/bfu_namespace_probe.c:2205-2250 | Over every run, a write takes the interface exactly when it gets that far and the kernel does it, whether or not the filter names the device that is there by then; a 30000 ms delay is set exactly when the write failed. |
| `ExclusiveUsb.TakesOutsideIff` | app/src/main/cpp/bfu_namespace_probe.c:2205-2236 | A write takes an interface outside the filter if and only if it goes through to a device that was plugged in after the vendor was read and is not in the filter. |
| `ExclusiveUsb.OnlyFilteredTaken` | app/src/main/cpp/bfu_namespace_probe.c:2169-2254 | In every run without such a replug no interface outside the filter is taken. |
| `ExclusiveUsb.ReplugCanBeTaken` | app/src/main/cpp/bfu_namespace_probe.c:2205-2236 | The race is real: for every filter, a device outside it that replaces a filtered one at the same port with the same driver just before the write is taken. |
| `ExclusiveUsb.OrdinaryDeviceIsTaken` | app/src/main/cpp/bfu_namespace_probe.c:2169-2236 | For every filter, an ordinary device it names is taken and recorded. |
| `ExclusiveUsb.RestoreGivesEverythingBack` | app/src/main/cpp/bfu_namespace_probe.c:2256-2303 | After any run a taken interface is back on the driver it was taken from exactly if its own bind write succeeds, whatever the others do. |
| `ExclusiveUsb.RestoreTouchesOnlyRecorded` | app/src/main/cpp/bfu_namespace_probe.c:2256-2303 | Restore leaves every interface without a detached record alone, whatever the writes answer. |
| `ExclusiveUsb.PrunedKeeps` | app/src/main/cpp/bfu_namespace_probe.c:2132-2167 | Pruning keeps exactly the records of interfaces still present, names unique. |
| `ExclusiveUsb.UsbTable.FindRecord` | app/src/main/cpp/bfu_namespace_probe.c:2110-2119 | The first record with the name, or none. |
| `ExclusiveUsb.UsbTable.RemoveRecord` | app/src/main/cpp/bfu_namespace_probe.c:2121-2130 | Removes one record and keeps the order of the others. |
| `ExclusiveUsb.UsbTable.Prune` | app/src/main/cpp/bfu_namespace_probe.c:2132-2167 | The pruning loop. |
| `ExclusiveUsb.UsbTable.VisitEntry` | app/src/main/cpp/bfu_namespace_probe.c:2205-2250 | The end of a visit on the bus of that moment, given earlier readings: exactly when it writes, what a successful and a failed write leave in table and bus, and that nothing else changes. |
| `ExclusiveUsb.UsbTable.Restore` | app/src/main/cpp/bfu_namespace_probe.c:2256-2303 | The restore loop, last record first; the table is empty afterwards. |
| `SupervisorLock.AtMostOneLineage` | app/src/main/cpp/bfu_namespace_probe.c:4552-4622 | However many start, stop, status and force-stop commands interleave, at most one supervisor lineage runs, and the lock is its own. |
| `SupervisorLock.StartForksOnlyWhenAlone` | app/src/main/cpp/bfu_namespace_probe.c:4552-4580 | A start forks only while it holds the lock itself, no lineage runs and no live process matches the recorded init. |
| `SupervisorStart.StartGoesOnIff` | app/src/main/cpp/bfu_namespace_probe.c:4574-4587 | Over every run a start that holds the lock goes on exactly when no live process has the recorded pid, start ticks, executable and, outside compatibility mode, namespaces; otherwise it gives the lock back. Such a process is the very incarnation that was recorded. |
| `SupervisorStart.StartCanFork` | app/src/main/cpp/bfu_namespace_probe.c:4552-4622 | From every reachable state with a free lock and no such process, a newly opened start gets to fork its supervisor as any process the kernel can start, and then supervises. |
| `SupervisorStart.StartLocks` | app/src/main/cpp/bfu_namespace_probe.c:4552-4557 | A newly opened start takes the lock exactly when it is free. |
| `SupervisorStart.OrphanHoldsStartsBack` | app/src/main/cpp/bfu_namespace_probe.c:4574-4587 | Once a supervisor has recorded its init completely, and until the record is replaced or cleared, starts are held back exactly as long as that init lives, whoever else has died. |
| `SupervisorStart.StopCanSignal` | app/src/main/cpp/bfu_namespace_probe.c:4692-4704 | From every reachable state whose record identifies a live supervisor, a newly opened stop can signal exactly that process. |
| `SupervisorStart.StopCanSignalInit` | app/src/main/cpp/bfu_namespace_probe.c:4648-4661 | The same for a live init, supervised or orphaned. |
| `SupervisorStart.LockFreesUp` | app/src/main/cpp/bfu_namespace_probe.c:4612-4625 | A held lock is free once its holders have closed it one after the other, with no process or record changed. |
| `SupervisorLock.SignalsReachOnlyTheRecorded` | app/src/main/cpp/bfu_namespace_probe.c:4648-4718 | Every identity-checked signal of a stop or force-stop reaches the very process incarnation that was recorded, however often pids are reused. |
| `SupervisorLock.LockHeldMeansSomebodyHasIt` | app/src/main/cpp/bfu_namespace_probe.c:4648-4718 | A held lock has a holder: a running lineage or a command between locking and releasing. |
| `SupervisorLock.ForceStopCanHideARunningSupervisor` | app/src/main/cpp/bfu_namespace_probe.c:4740-4767 | Force-stop writes its cleared record after unlocking: there is a run in which a supervisor runs and holds the lock while the record identifies nobody. |
| `SupervisorRecord.CanBeHiddenIff` | app/src/main/cpp/bfu_namespace_probe.c:4740-4818 | A running supervisor that the record identifies can drop out of it, whatever commands follow, if and only if some force-stop has given the lock back and has neither written its cleared record nor given up. |
| `SupervisorRecord.DebtsAreOld` | app/src/main/cpp/bfu_namespace_probe.c:4740-4818 | Such a force-stop gave the lock back before this start took it: while a lineage supervises, no new one arises. |
| `SupervisorRecord.RecordNamesLastWriter` | app/src/main/cpp/bfu_namespace_probe.c:863-929 | The record names the supervisor that wrote it last, and nobody after a clearing. |
| `SupervisorLock.ReachableInv` | app/src/main/cpp/bfu_namespace_probe.c:4530-4833 | Every step of every command, supervisor and child keeps the lock, process, record and start-check invariants. |
| `SupervisorLock.MatchIsTheRecordedOne` | app/src/main/cpp/bfu_namespace_probe.c:1011-1082 | pid and start ticks determine the incarnation. |
| `SuperviseLoop.Supervise` | app/src/main/cpp/bfu_namespace_probe.c:3742-3803 | Every trace: at most one graceful stop and one kill, the kill at least 20000 ms (10000 ms in compat mode) later; no scan after the stop flag was seen, scans 2000 ms apart, and in exclusive mode no due scan left out; "stopping" written right after the graceful stop; USB restored exactly once, in exclusive mode only, after the service is gone and before "stopped" is written with the wait status; a stop request is always acted on and a service that outlives the grace period is killed. |
| `SuperviseLoop.ScanPart` | app/src/main/cpp/bfu_namespace_probe.c:3753-3757 | The scan part of one turn keeps that promise, and scans exactly when a scan is due and the flag was not seen. |
| `SuperviseLoop.GracefulPart` | app/src/main/cpp/bfu_namespace_probe.c:3758-3778 | The graceful-stop part of one turn keeps it. |
| `SuperviseLoop.KillPart` | app/src/main/cpp/bfu_namespace_probe.c:3779-3784 | The kill part of one turn keeps it. |
| `StateFile.LauncherRecordRoundTrip` | app/src/main/cpp/bfu_namespace_probe.c:878-915 | For every launcher state with non-negative pids and newline-free strings that fit, the printed record is shorter than 1024 bytes and read_state recovers every field. |
| `StateFile.ReadAfterWrite` | app/src/main/cpp/bfu_namespace_probe.c:947-1009 | The same recovery for any list of fields with distinct keys and any initial record. |
| `StateFile.NegativePidIsLost` | app/src/main/cpp/bfu_namespace_probe.c:940-945 | The condition on pids is needed: a negative one is printed but never read back. |
| `StateFile.PartialRecord` | app/src/main/cpp/bfu_namespace_probe.c:959-1008 | A record that holds some fields in any order: those are read as written, all others keep their initial values. |
| `StateFile.OldRecordDefaults` | app/src/main/cpp/bfu_namespace_probe.c:836-844 | So a record without a launch mode is one of systemd, and one without pids has none. |
| `StateFile.JunkIsIgnored` | app/src/main/cpp/bfu_namespace_probe.c:959-1008 | A line that is no field changes nothing, wherever it stands. |
| `StateFile.ParsedFits` | app/src/main/cpp/bfu_namespace_probe.c:931-945 | Whatever a line holds, texts are cut to the longest beginning that fits their buffer, and pids and counters stay within their types. |
| `StateFile.ReadStateIff` | app/src/main/cpp/bfu_namespace_probe.c:947-958 | read_state fails exactly on a missing or empty file, and reads every record of up to 4095 bytes to its end. |
| `StateFile.ReadLines` | app/src/main/cpp/bfu_namespace_probe.c:959-1008 | The strtok loop absorbs the lines one after the other. |
| `StateFile.Directory.WriteState` | app/src/main/cpp/bfu_namespace_probe.c:863-929 | At every moment of the call, failures of any system call included, the state path holds the whole old record or the whole new one; exactly when the call succeeds; what is left on failure. |
| `StateFile.Directory.WriteAll` | app/src/main/cpp/bfu_namespace_probe.c:850-861 | Writes everything or fails, through short writes and EINTR, touching only its own file. |
| `StateFile.ReaderSeesOldOrNew` | app/src/main/cpp/bfu_namespace_probe.c:947-1009 | A concurrent read_state therefore returns the old answer or exactly the state being written. |
| `StateFile.FieldRoundTrip` | app/src/main/cpp/bfu_namespace_probe.c:931-945 | One field printed and parsed is itself, whatever was there before. |
| `LifecycleScheduler.SchedulerIsSafe` | app/src/main/java/me/aroxu/dawnshell/BfuBootService.java:461-537 | For every sequence of requests, mode changes and destructions of the service, and every executor schedule, in every instance: an accepted STOP or FORCE_STOP is cancelled, dropped or interrupted before the end of its body exactly when its instance was destroyed before that end; at most three tasks are unfinished, at most one runs, and lifecycleOperationStarted and the active operation describe exactly the newest task while it is unfinished. |
| `LifecycleScheduler.StopCanBeLostIff` | app/src/main/java/me/aroxu/dawnshell/BfuBootService.java:200-210 | An accepted, unfinished stop can still be lost without anyone touching the mode if and only if the mode is off or somebody has already asked to stop the service. |
| `LifecycleScheduler.ModeOnKeepsInstance` | app/src/main/java/me/aroxu/dawnshell/BfuBootService.java:533-533 | With the mode on and no stop of the service asked for, nothing but a mode change can get the instance destroyed. |
| `LifecycleScheduler.StatusCanLoseAStop` | app/src/main/java/me/aroxu/dawnshell/BfuBootService.java:97-112 | It happens with allowed requests only: with the mode off, a stop preempts a running status request, whose end destroys the service before the stop began. |
| `LifecycleScheduler.PreemptedTaskClearsNothing` | app/src/main/java/me/aroxu/dawnshell/BfuBootService.java:526-535 | A preempted task that ends leaves the newer request's state alone; all it can do is ask for the service to be stopped, exactly when the mode is off. |
| `LifecycleScheduler.DockerFlagMeaning` | app/src/main/java/me/aroxu/dawnshell/BfuBootService.java:543-612 | In every instance dockerPolicyStarted is set if and only if a docker settings task has not got past the clearing at line 601 or was cancelled before it started; there is at most one such task. |
| `LifecycleScheduler.DroppedDockerTaskSticks` | app/src/main/java/me/aroxu/dawnshell/BfuBootService.java:543-550 | Once such a task was dropped the flag stays set, and settings and restart requests are refused, for as long as the instance lives; a new instance starts clean. |
| `LifecycleScheduler.StopCanStrandTheDockerFlag` | app/src/main/java/me/aroxu/dawnshell/BfuBootService.java:496-499 | It happens: a stop that arrives before the docker task starts leaves an idle service with the flag set. |
| `LifecycleScheduler.ReachableInv` | app/src/main/java/me/aroxu/dawnshell/BfuBootService.java:461-612 | Every request, executor step, mode change and destruction keeps the queue, preemption, flag, docker and loss invariants of every instance. |
| `LifecycleScheduler.RequestsAreAdmitted` | app/src/main/java/me/aroxu/dawnshell/BfuBootService.java:461-500 | Over every run and for every operation, exactly when a request is accepted: a restart not during management work; anything when no task is pending; otherwise a stop, force-stop or restart, unless the pending task is an unfinished stop or force-stop or the same operation. What an accepted request does to the pending task. |
| `LifecycleScheduler.ExecutorMovesOn` | app/src/main/java/me/aroxu/dawnshell/BfuBootService.java:500-537 | Over every run the executor of the living instance never gets stuck: while a task is not done the first such one can move, and every move leaves less to do. |
| `LifecycleScheduler.LifecycleService.RequestLifecycle` | app/src/main/java/me/aroxu/dawnshell/BfuBootService.java:461-537 | Keeps the instance's invariants; accepts exactly the requests above; a refused request changes nothing; an accepted one preempts what is pending and is the newest task and the active operation; no unfinished stop is touched. |
| `LifecycleScheduler.LifecycleService.RequestSettings` | app/src/main/java/me/aroxu/dawnshell/BfuBootService.java:539-556 | Keeps the invariants; accepted exactly when something is to be applied, no management work runs and no task is pending; docker is marked as asked. |
| `LifecycleScheduler.LifecycleService.FinishTask` | app/src/main/java/me/aroxu/dawnshell/BfuBootService.java:602-607 | Keeps the invariants; only the newest task clears the flags, an older one leaves them set for the newer request. |
| `LifecycleScheduler.LifecycleService.ClearDocker` | app/src/main/java/me/aroxu/dawnshell/BfuBootService.java:601-601 | Keeps the invariants; a docker task leaves the flag clear. |
| `LifecycleScheduler.LifecycleService.Destroyed` | app/src/main/java/me/aroxu/dawnshell/BfuBootService.java:200-210 | Keeps the invariants; from then on exactly the stops that were unfinished are lost. |
| `UsbIds.TypedListReachesLauncher` | app/src/main/java/me/aroxu/dawnshell/BfuPreferences.java:179-201 | The settings accept a list exactly when it is short enough, each field is a VID:PID and at most 32 devices are named; the launcher then reads exactly the devices typed, each once, in first-occurrence order. |
| `UsbIds.NormalizeIdempotent` | app/src/main/java/me/aroxu/dawnshell/BfuPreferences.java:179-201 | Normalising twice is normalising once. |
| `UsbIds.LauncherReadsStored` | app/src/main/cpp/bfu_namespace_probe.c:209-245 | Every normalised list is accepted by the launcher, which reads it entry by entry. |
| `UsbIds.CollectMeaning` | app/src/main/java/me/aroxu/dawnshell/BfuPreferences.java:185-194 | The ordered set of the normalisation names the devices in first-occurrence order, and exactly when it succeeds. |
| `UsbIds.FilterMeaning` | app/src/main/cpp/bfu_namespace_probe.c:209-245 | Exactly which texts the launcher takes, whoever wrote them: nothing or a dash for no device, otherwise at most 512 characters of entries with single commas, its limit of 32 looked at before each entry; it keeps the first of each device. |
| `UsbIds.TypedAsMeant` | app/src/main/java/me/aroxu/dawnshell/BfuPreferences.java:179-194 | However the user separates entries, with commas and white space of any kind and number, the settings see exactly those entries. |
| `UsbIds.EntryIff` | app/src/main/cpp/bfu_namespace_probe.c:191-207 | An entry is four hexadecimal digits of either case, a colon and four more. |
| `UsbIds.ScanFilter` | app/src/main/cpp/bfu_namespace_probe.c:209-245 | The launcher's offset loop against its specification; its result has no duplicates and at most 32 devices. |
| `UsbIds.NormalizeText` | app/src/main/java/me/aroxu/dawnshell/BfuPreferences.java:179-201 | The normalisation loop against its specification. |
| `UsbIds.BuildText` | app/src/main/java/me/aroxu/dawnshell/BfuPreferences.java:195-200 | The growing text is the comma-joined list. |
| `UsbIds.StoredInjective` | app/src/main/cpp/bfu_namespace_probe.c:190-207 | Two normalised entries denote the same device only if they are the same text. |
| `CommandLine.QuotedIsLiteral` | app/src/main/java/me/aroxu/dawnshell/BfuSu.java:191-196 | For every text and every context, a POSIX shell adds exactly the text to the word being built. |
| `CommandLine.QuoteRoundTrip` | app/src/main/java/me/aroxu/dawnshell/BfuSu.java:191-196 | A quoted text alone is one command with that one word. |
| `CommandLine.ShellRuns` | app/src/main/java/me/aroxu/dawnshell/DebianLauncher.java:127-150 | The shell runs the launcher with exactly the words given, after writing the welcome text for a start or restart. |
| `CommandLine.ArgumentsArrive` | app/src/main/cpp/bfu_namespace_probe.c:4874-4913 | main decides from those words exactly what the settings mean: cgroup policy, fallback flag, USB mode, device list. |
| `CommandLine.LaunchDecision` | app/src/main/cpp/bfu_namespace_probe.c:4874-4913 | Every written-out launch, from the app or not: refused for the first of cgroup policy, USB policy and filter that is not understood or for exclusive USB without a device, and otherwise run with exactly the words given. |
| `CommandLine.ShortFormsAreWrittenOut` | app/src/main/cpp/bfu_namespace_probe.c:4874-4891 | Every shorter argument list, also one without the launch policy, means what its written-out form means. |
| `CommandLine.CommandArrives` | app/src/main/java/me/aroxu/dawnshell/DebianLauncher.java:127-150 | The two together: for every settings value the launcher decides exactly what the settings mean, the rejection of an empty exclusive list included. |
| `CommandLine.CommandHasNoNul` | app/src/main/java/me/aroxu/dawnshell/BfuSu.java:191-195 | There is a command exactly when no path in it holds a NUL, and then the whole command, settings texts included, holds none. |
| `Base64.RoundTrip` | app/src/main/java/me/aroxu/dawnshell/OpenSshEd25519Key.java:102-130 | For every byte sequence and every line length, skipping line breaks and standard decoding (section 4 of RFC 4648) gives the bytes back. |
| `Base64.EncodeText` | app/src/main/java/me/aroxu/dawnshell/OpenSshEd25519Key.java:102-130 | The block loop with its column counter yields lines of exactly the given length. |
| `Base64.AppendBlock` | app/src/main/java/me/aroxu/dawnshell/OpenSshEd25519Key.java:119-126 | The inner loop: four characters and the line breaks between them. |
| `Base64.WrappedSnoc` | app/src/main/java/me/aroxu/dawnshell/OpenSshEd25519Key.java:119-126 | One more character goes on the last line, or starts a new one when that is full. |
| `SshKey.KeyFileRoundTrip` | app/src/main/java/me/aroxu/dawnshell/OpenSshEd25519Key.java:59-88 | For every check word, seed, public key and comment, the key file reads back as the same identity. |
| `SshKey.EnvelopeRoundTrip` | app/src/main/java/me/aroxu/dawnshell/OpenSshEd25519Key.java:78-84 | The same for the binary envelope. |
| `SshKey.SectionRoundTrip` | app/src/main/java/me/aroxu/dawnshell/OpenSshEd25519Key.java:62-76 | The same for the private section with its padding. |
| `SshKey.PublicBlobRoundTrip` | app/src/main/java/me/aroxu/dawnshell/OpenSshEd25519Key.java:52-57 | The public blob holds exactly the type and the key. |
| `SshKey.ReadWritten` | app/src/main/java/me/aroxu/dawnshell/OpenSshEd25519Key.java:90-100 | A length-prefixed string is read back and the rest follows. |
| `SshKey.EncodePrivateKey` | app/src/main/java/me/aroxu/dawnshell/OpenSshEd25519Key.java:59-88 | The streams, the padding loop and the base64 lines against the specification of the file. |
| `AuthorizedKeys.GeneratedKeyAccepted` | app/src/main/java/me/aroxu/dawnshell/OpenSshEd25519Key.java:39-50 | For every public key the generated line (section 4 of RFC 8709) is accepted as exactly one key and saved as it is. |
| `AuthorizedKeys.ValidateMeaning` | app/src/main/java/me/aroxu/dawnshell/BfuAuthorizedKeys.java:33-69 | A text is accepted exactly when it has no NUL, between one and 32 lines besides blanks and comments, each a bare supported key, and at most 32 KiB; what is saved is those lines, trimmed, in order. |
| `AuthorizedKeys.KeyLineIff` | app/src/main/java/me/aroxu/dawnshell/BfuAuthorizedKeys.java:43-58 | A line is a key exactly when it is at most 16384 units long and is one of the seven types, blanks, and base64 text of a blob that names that very type, with at most a comment after it. |
| `AuthorizedKeys.AcceptedIff` | app/src/main/java/me/aroxu/dawnshell/BfuAuthorizedKeys.java:33-69 | Exactly which texts are accepted, line by line. |
| `AuthorizedKeys.OtherTypeRefused` | app/src/main/java/me/aroxu/dawnshell/BfuAuthorizedKeys.java:106-119 | A line around a blob of another type is refused, whatever the two types are. |
| `AuthorizedKeys.NewlinesIsBoth` | app/src/main/java/me/aroxu/dawnshell/BfuAuthorizedKeys.java:36-36 | The two newline replacements of the source, one after the other, are the one pass of the model. |
| `AuthorizedKeys.SavedIsStable` | app/src/main/java/me/aroxu/dawnshell/BfuAuthorizedKeys.java:33-69 | Validating what was saved saves the same again. |
| `AuthorizedKeys.ValidateText` | app/src/main/java/me/aroxu/dawnshell/BfuAuthorizedKeys.java:33-69 | The validator against its specification. |
| `AuthorizedKeys.ProcessLines` | app/src/main/java/me/aroxu/dawnshell/BfuAuthorizedKeys.java:39-65 | Its line loop. |
| `AuthorizedKeys.EncodedLineIsKey` | app/src/main/java/me/aroxu/dawnshell/BfuAuthorizedKeys.java:43-60 | A line of any supported type around any blob of that type is one key line. |
| `AuthorizedKeys.BlobIsEd25519` | app/src/main/java/me/aroxu/dawnshell/BfuAuthorizedKeys.java:106-119 | The generated blob passes the embedded-type check. |
| `TailBuffer.Collect` | app/src/main/java/me/aroxu/dawnshell/BfuSu.java:334-384 | For every stream and every way of cutting it into chunks, the report is that of the whole stream: the last bytes from the first line beginning among them, marked as cut exactly when the stream exceeds the capacity; without tail mode, the first bytes. |
| `TailBuffer.ReadTail` | app/src/main/java/me/aroxu/dawnshell/BfuOperationLog.java:46-65 | Reading the end of a file gives the same report. |
| `TailBuffer.TailReportIsWholeLines` | app/src/main/java/me/aroxu/dawnshell/BfuSu.java:371-378 | A cut report is the longest end of the stream that begins a line within the window. |
| `TailBuffer.OutputCollector.Append` | app/src/main/java/me/aroxu/dawnshell/BfuSu.java:347-367 | The collector sees only the concatenation of the chunks and holds its last bytes. |
| `TailBuffer.OutputCollector.Push` | app/src/main/java/me/aroxu/dawnshell/BfuSu.java:358-366 | One byte of the ring. |
| `TailBuffer.OutputCollector.Output` | app/src/main/java/me/aroxu/dawnshell/BfuSu.java:369-384 | The two copies unroll the ring, and the cut line is dropped. |
| `TailBuffer.SkipLine` | app/src/main/java/me/aroxu/dawnshell/BfuOperationLog.java:56-59 | The loop that drops the cut line. |
| `AnnexB.CountUnits` | app/src/main/cpp/dawnshell_codec_client.c:1159-1173 | Every delimiter followed by at least one byte is counted exactly once, after 3- and 4-byte start codes. |
| `AnnexB.LoadAccessUnits` | app/src/main/cpp/dawnshell_codec_client.c:1057-1084 | At most 1024 units; success exactly on a non-zero expected count; then the boundaries form a split of the file. |
| `AnnexB.FillBoundaries` | app/src/main/cpp/dawnshell_codec_client.c:1065-1073 | The scan stores the starts of the first delimiters, in order. |
| `AnnexB.FindAud` | app/src/main/cpp/dawnshell_codec_client.c:1012-1029 | The first hit from a position on, or none; never out of bounds. |
| `AnnexB.FoundIsNext` | app/src/main/cpp/dawnshell_codec_client.c:1012-1029 | A hit is the start code of the next delimiter, and resuming 4 bytes later neither skips a delimiter nor finds one again. |
| `AnnexB.SplitConcatenates` | app/src/main/cpp/dawnshell_codec_client.c:1081-1083 | The access units of a split concatenate to the whole file, boundaries strictly rising. |
| `AnnexB.DelimiterInItsUnit` | app/src/main/cpp/dawnshell_codec_client.c:1065-1083 | Delimiter i lies in unit i and in no other. |
| `AnnexB.DelimitersComplete` | app/src/main/cpp/dawnshell_codec_client.c:1012-1029 | The reference list of delimiters misses none. |

## Left out

- Mounts, namespaces, cgroup writes, chroot and exec: kernel calls whose meaning is not in the files; where a property needs one, its outcome is a parameter.
- MediaCodec and ImageReader: the codec is an arbitrary answer to each request; codec selection, `valid_parameters`, output-side statistics and latency counters would only add easy members.
- Transport memory order: acquire/release accesses are sequentially consistent steps. The worker fetches each request byte once, where the code reads some header bytes twice; this differs only for a request overwritten after a timeout. Startup and shutdown handshakes are not modelled.
- CodecClient.QueueInput: takes each delivered call as one dispatch, which InputRetries proves for runs without timeouts and InputRetriesAgain for a loop begun after timeouts in a state without leftovers; for a loop begun with leftovers the request can run twice (TransportRepeats.RequestRunsTwiceIff).
- CodecSession.CodecObject.Enqueue: counters are unbounded numbers, not 64-bit ones, and latencies are left out.
- CodecClient.QueueEnd: takes each delivered call as one dispatch likewise, as EosRetries and EosRetriesAgain prove.
- Pixels.NormalizeImage: crop differences are unbounded numbers, so int32 overflow of a crop rectangle is not modelled.
- WorkerState.WorkerObject.SessionRequest: message texts are arbitrary, and output records are not followed.
- LifecycleScheduler.SchedulerIsSafe: what an interrupt does inside a body, a kill of the whole process and START_STICKY restarts are left out; `isEnabled` and the `stopSelf` after it are one step.
- SupervisorLock.SignalsReachOnlyTheRecorded: an identity check and the signal after it are one step, and signals to process groups or to a delegated cgroup are not modelled.
- SupervisorLock.ReachableInv: a recorded process keeps its executable and namespaces, and a reused pid has later start ticks.
- SuperviseLoop.Supervise: the clock stays below the 64-bit sentinel, and the network helper and cgroup clean-up between restore and the last write are not modelled.
- ExclusiveUsb.TakenInterfacesAreRecorded: a failed unbind write leaves the bus as it was, and the record update and its write are one step.
- ExclusiveUsb.RestoreGivesEverythingBack: nothing is plugged or bound while restore runs, and a failed bind write leaves the bus as it was.
- StateFile.ReadLines: the leading blanks and signs that strtoull would accept, and saturation of out-of-range signed numbers, are not modelled; write_state prints neither.
- StateFile.Directory.WriteState: kernel answers to write are a finite list followed by a whole write, so an endless series of interrupted writes is not modelled; path length errors are left out.
- CommandLine.QuotedIsLiteral: the shell is a fragment with quoting, words, one redirection and `&&`; any other construct makes it give up, and the generated commands use none.
- TailBuffer.Collect: reports are bytes; decoding them as UTF-8 and the wording of the cut marker are left out.
- AuthorizedKeys.ValidateText: writing the accepted text to its file is left out; strings are sequences of code points whose UTF-16 and UTF-8 lengths are computed.
- SshKey.EncodePrivateKey: seed and public key are arbitrary 32-byte sequences; Ed25519 arithmetic is left out.
- AnnexB.LoadAccessUnits: reading the file and its size limit are left out.
- User interface, boot probes, rootfs installer, provisioners, Tailscale routes and health scripts: text and process launching without a hard invariant.
