# Verified model of the Hasfy relay and agent

The relay accepts one websocket per managed device, keeps a registry of the
live agents, and carries execs and interactive shells between operators (or the
application's own service calls) and those agents. The agent enrols its device,
keeps a relay token, runs up to eight commands and eight shells at a time over
one connection, and ships metrics. This project models that logic in Dafny and
proves what it promises.

Check it with `dafny verify dfyconfig.toml`.

## How it is laid out

- **Exec and session protocol.** `Exec.dfy` has the frames of one exec as the agent
  sends them and the result the relay collects. `AgentLoop.dfy` is the agent's connection
  loop as a transition system: reader, semaphore, cancel map, one goroutine per exec,
  one FIFO `out` channel that the reader closes when it returns. `AgentRuns.dfy` and
  `AgentStops.dfy` prove its invariants, `AgentTraces.dfy` most of the results about it,
  `AgentSteps.dfy` what it does with each thing that comes, and `AgentPanics.dfy` when that
  close ends the agent. `Link.dfy` joins one agent with the relay's
  bounded outbound channel and the two wires. `System.dfy` is the whole: any number of
  connections, operator sessions and service calls, registry and router. `SystemShape`,
  `SystemInv`, `Isolation` and `Service` prove its invariants step by step,
  `EndToEnd.dfy` states the results, `Sessions.dfy` those about what one session hears and
  in which order, and `RelaySteps.dfy` what happens at each turn of a session's life. `Witness.dfy` gives concrete runs: one in which a service call completes, so
  the hypotheses can be met, those that depart from a comment, and one in which a dropped
  connection ends the agent. `Runs.dfy` is what all runs have in common.
- **Objects updated in place.** `CapBuffer.dfy`, `Registry.dfy`, `Router.dfy`, `Pty.dfy`,
  `Token.dfy`, `Audit.dfy` and `Metrics.dfy` are classes whose methods are proved against
  functions on values; what the source promises is then proved about those functions,
  over every run.
- **Redaction.** `Utf8.dfy` is how Go reads octets as text, valid or not, and writes them
  back. `Patterns.dfy` models the leftmost-match engine for the patterns in use (sound
  and complete against the language of each pattern), `Preference.dfy` which match it takes,
  `Redact.dfy` replacing matches, `RedactChain.dfy` the nine patterns, `Extent.dfy` how much of a
  secret goes, `Secrets.dfy` the secrets spelled out, `RedactLoose.dfy` what a second redaction does,
  `RedactIdem.dfy` when it changes nothing, `RedactTwice.dfy` an input that it changes.
- **agent.env.** `Text.dfy`, `EnvFile.dfy`, `EnvLine.dfy` (what a line means), `EnvRoundTrip.dfy`,
  `EnvReadBack.dfy` (any values, well formed or not), `EnvRemove.dfy` and, for the relay's own loader, `RelayEnv.dfy`.
- **Boot and enrolment.** `DeviceKey.dfy` (the key-file race), `KeyFate.dfy` (which identity is
  the one on disk), `Boots.dfy` (who registers the key) and `Enroll.dfy`.

A goroutine is a program counter, a channel a bounded sequence with an open or closed
flag, a timer a non-decreasing clock. A run is any sequence of states joined by enabled
steps, so each theorem about runs covers every interleaving. What the system calls, the
servers and the clock do is a parameter of each step.

## Where the code differs from its own words

Each point has an input at which the code departs from the comment, and a theorem over all
inputs that says when it can.

- `internal/audit/redact.go:23-24` calls `Redact` idempotent. `RedactTwice.NotIdempotent` is a
  text that a second run changes; `RedactIdem.IdempotentIff` says for all texts when it does.
- `cmd/agent/deviceid.go:88-90` says O_EXCL keeps racing daemons from disagreeing. A load that
  overlaps a creator which then fails to sync or close can return a seed that is not the
  one on disk (`DeviceKey.EarlyLoadCanDisagree`). `KeyFate.OnDiskIff` is the condition: with
  distinct seeds an identity returned is the one on disk exactly when the creator of the
  file it came from never removed it; and two identities disagree exactly when they came from
  different files (`KeyFate.DisagreeIff`).
- `cmd/agent/deviceid.go:140-145` wipes the enrolment secret by deleting lines that begin
  `KEY=`. A line written `export KEY=...` is loaded but not deleted
  (`EnvRemove.ExportedSurvives`); `EnvRemove.DeleteCommutesIff` is the condition.
- `internal/server/operator_ws.go:152` promises one `session.close` per `session.open`. The open
  event is emitted when an id is minted, so an id never attached has none
  (`Witness.OpenWithoutClose`); `EndToEnd.CloseMatchesOpenIff` is the condition, id by id.
- `internal/registry/registry.go:40-42` says `Send` returns false when the agent is gone. On a
  closed channel a Go send panics even with a `default` arm. A plain disconnect is enough
  (`Witness.ADisconnectCanCrash`); `EndToEnd.SendPanicsIff` says exactly when: the
  connection is no longer current, replaced or disconnected.
- `cmd/agent/pty.go:176-178` means to remove the reader's own session but deletes by id, so a
  reader can close the shell that took over its id (`Pty.ReaderMayCloseSuccessor`);
  `Pty.ReaderExitSparesOthersIff` is the condition.
- `internal/audit/forward.go:80-81` promises to flush what remains on shutdown. The final flush
  posts the current batch and leaves the queue (`Audit.ShutdownLosesQueue`);
  `Audit.FlushesAllIff` is the condition.
- `cmd/agent/token.go:227-228` says a failed key registration is attempted again on the next
  start. It is asked for only by the boot that created the key
  (`Boots.FailedRegistrationIsNotRetried`); `Boots.RegisteredIff` is the condition.

## Model

The results about whole runs come first in each group; then the operations they rest on.

| member | source | states |
|---|---|---|
| EndToEnd.SessionIsolation | internal/server/operator_ws.go:88-102 | Over all runs of any number of operators, service calls and agents: a frame put in a session's channel has that session's id and was caused by an exec of the same exec id, or a pty.start, accepted under that id on a connection of the device the id was issued for |
| Sessions.SessionInOrder | internal/server/operator_ws.go:88-102 | While a session is attached and has not overflowed, what was put in its channel is exactly the routable frames of its id that any pump has read since it was attached, in the order read |
| Sessions.SessionNeverReorders | internal/server/operator_ws.go:88-102 | In every run, also after an overflow or a detach, what was put in a session's channel is some of those frames in the order read: nothing reordered, repeated or foreign |
| Sessions.ExecInOrder | internal/server/operator_ws.go:88-102 | Exec by exec, when no other exec has its ids: the frames read before the session was attached, then those in its channel, are all the relay has read of that exec, and begin what the exec sent, one trace |
| EndToEnd.ServiceSeesOnlyItsExec | internal/server/exec_api.go:127-169 | A service session receives only a prefix of one ack/stdout/stderr/exit trace of its own exec; backpressure never closes it |
| EndToEnd.ResultRefinesProcess | internal/server/exec_api.go:117-200 | A service call that returned with an exit ran as exactly one exec, that of the argv or script it asked for, with the timeout and output limit it asked for if within 600000 ms and 8 MiB and otherwise 600000 ms and 1 MiB; its stdout and stderr are the redaction of the first bytes written, up to that limit, its code the process's, its truncation mark set exactly when a write went past the limit; refused or failed starts give -1 and nothing |
| EndToEnd.AnswerIsResult | cmd/agent/exec.go:211-331 | Collecting the complete trace of an exec yields that result, for the limit its frame names, or 1 MiB if it names none |
| EndToEnd.NoSecretsInResult | internal/server/exec_api.go:67-74 | No secret of the eight kinds spelled out in Secrets is left in the result, whatever the process wrote |
| EndToEnd.NothingLost | internal/server/exec_api.go:216-253 | Once the agent is done with the exec and its connection has drained, a call still waiting has its exit in the channel |
| EndToEnd.RouterOwnership | internal/server/operator_ws.go:41-76 | One attached session per id, the one the router holds; detach by id removes and closes only its own handler's session; `closed` is closed at most once; session.close events plus open operator sessions equal operator attaches, in all and id by id |
| EndToEnd.ChannelsCloseOnce | internal/registry/registry.go:68-95 | In every run a connection's channel is open exactly while it is current and is closed exactly once when it stops being, by replacement or disconnect; no double close ever happens, so only an operator's send can take the relay down |
| EndToEnd.SendPanicsIff | internal/registry/registry.go:40-50 | A frame of an operator whose pump is reading panics exactly when it is one the relay passes on and the connection is no longer current |
| Witness.ADisconnectCanCrash | internal/server/operator_ws.go:237-242 | A run in which one connection, never replaced, disconnects and the operator's next frame panics |
| EndToEnd.CloseMatchesOpenIff | internal/server/operator_ws.go:145-164 | One session.open per minted id; its session.close events match exactly when the id was attached once and that session has ended, or twice and the second is still open |
| Witness.OpenWithoutClose | internal/server/api.go:107-116 | A run with a session.open and no attach, so no session.close |
| EndToEnd.EndTellsAgent | internal/server/operator_ws.go:166-171 | When an operator session ends or a call times out it is over in any case, and the cancel for its shell (no exec id) or its exec is accepted exactly when its connection is current and has room; nothing else changes on any connection |
| EndToEnd.TimeoutStopsExec | internal/server/exec_api.go:182-186 | Once a call's cancel was accepted and the connection has drained towards the agent, its exec (with exec ids distinct) has been cancelled |
| EndToEnd.LinksAreFifo | internal/server/agent_ws.go:102-146 | In support of the two above: on every connection and in both directions, what was accepted is what was received, then what is under way, in order |
| EndToEnd.MemoryBound | internal/server/operator_ws.go:212-222 | Every frame accepted for an agent is within the limits, so running execs of one connection hold at most 128 MiB of output |
| EndToEnd.StampLaws | internal/server/operator_ws.go:198-228 | In support of that bound: which operator frames are dropped; all others leave with the session's id and unchanged, but for a timeout outside 1..600000 ms, which becomes 60000, and a limit outside 1..8 MiB, which becomes 1 MiB; a second pass changes nothing |
| RelaySteps.RequestGoesOutIff | internal/server/exec_api.go:157-161 | A call's request is accepted, and the call waits, exactly when its connection is current and has room; on a full channel the call ends unanswered, on a connection no longer current its send panics, and nothing is sent |
| RelaySteps.TimeoutReturnsPartial | internal/server/exec_api.go:219-224 | A call whose deadline passes returns the output collected so far, stream by stream, with code -1 |
| RelaySteps.OperatorFrameGoesOutIff | internal/server/operator_ws.go:237-242 | An operator's frame is accepted exactly when there is room; a full channel ends the operator's pump |
| RelaySteps.AttachIff | internal/server/operator_ws.go:53-61 | An operator is taken up, with a fresh session, exactly under an id minted for operators and this device under which nobody is attached |
| Witness.ACallCompletes | internal/server/exec_api.go:82-201 | Some run connects a device, sends it an exec and returns the call's exit |
| Service.RunCalls | internal/server/exec_api.go:82-253 | In every run, of every service call: its request was accepted at most once, its cancels only after it, what it has received is what the relay has read of its frames, and its record is consistent with how it ended |
| Isolation.RunInv | internal/server/operator_ws.go:106-290 | Registry, router, id, accounting, sending and isolation invariants hold in every run |
| Routing.ActiveSession.constructor | internal/server/operator_ws.go:140-144 | A new session's channels are empty and open |
| Routing.ActiveSession.Close | internal/server/operator_ws.go:41-43 | Closes `closed` unless it is closed |
| Routing.ActiveSession.Put | internal/server/operator_ws.go:96-101 | Queues a frame, or closes the session when 64 wait |
| Routing.Router.Attach | internal/server/operator_ws.go:53-61 | Refuses an id already attached, changes nothing then |
| Routing.Router.Detach | internal/server/operator_ws.go:63-70 | Removes the id, closes its session and touches no other |
| Routing.Router.Route | internal/server/operator_ws.go:88-102 | Offers the frame to the session of its id, if any, and touches no other |
| Link.EveryFrameCaused | cmd/agent/exec.go:104-201 | A session's frame on the way back answers a request Send accepted on that connection |
| AgentTraces.TraceGrammar | cmd/agent/exec.go:109-145 | In every interleaving a dispatched exec's frames are a prefix of `exit` or `ack stdout? stderr? exit`, with exactly one exit once it is over, on refusal, failure and normal paths |
| AgentTraces.ProjectionIsOwnTrace | cmd/agent/exec.go:211-331 | With distinct exec ids the frames carrying an id are those its own exec sent |
| AgentTraces.Multiplexer | cmd/agent/exec.go:85-145 | Semaphore equals the execs holding a slot, at most eight; with distinct ids the cancel map's keys are the ids not yet removed, refused ones included, each with its own function |
| AgentTraces.CancelHitsItsOwn | cmd/agent/exec.go:147-161 | A cancel for an id cancels that exec, unless already removed, and no other |
| AgentTraces.MemoryBound | cmd/agent/exec.go:216-277 | With every cap at most c, running execs hold at most 8 * 2 * c bytes |
| AgentTraces.SlotCanAlwaysBeReturned | cmd/agent/exec.go:136-143 | An exec about to give its slot back never waits for the semaphore |
| AgentSteps.DispatchedIff | cmd/agent/exec.go:104-117 | An exec starts exactly for a frame with a session id, an exec id and an argv or a script; it is registered under its id |
| AgentSteps.RefusedIffFull | cmd/agent/exec.go:119-132 | It is refused exactly when eight execs hold a slot |
| AgentSteps.RefusedIsToldBusy | cmd/agent/exec.go:123-131 | A refused exec is answered by one exit, code -1, error busy |
| AgentSteps.DoneHasReported | cmd/agent/exec.go:211-322 | In every run an exec that is done has reported what its process wrote, up to the limit, and how it ended |
| AgentSteps.AnsweredAtOnce | cmd/agent/exec.go:104-181 | A ping is answered by one pong, a shell that could not start by one pty_start_failed error |
| AgentPanics.PanicsIff | cmd/agent/exec.go:51-52 | Once the reader has returned and `out` is closed, an exec's goroutine can end the agent by a panic exactly when it still had a frame to send then (not started, running, or output unsent), and in that case it never returns otherwise |
| AgentPanics.Settled | cmd/agent/exec.go:136-143 | After the close no step ends or begins a goroutine's need to send, and only one in need panics |
| Witness.ADropCanEndTheAgent | cmd/agent/exec.go:30-52 | A run in which the connection drops just after an exec was dispatched and the agent ends by a panic |
| AgentStops.NoContextLeak | cmd/agent/exec.go:118-145 | In every run an exec's context is cancelled before its slot is given back, a refused one's before the reader goes on |
| AgentStops.CancelledAfterCancel | cmd/agent/exec.go:147-161 | With distinct ids, an exec is cancelled once a cancel for its id was received after it, whatever its goroutine was doing |
| AgentRuns.RunInv | cmd/agent/exec.go:94-207 | In every run each exec has sent what its phase says, every frame on `out` names its sender, the reader, semaphore and cancel map agree with the execs, and `out` holds at most 32 frames |
| Exec.RunExec | cmd/agent/exec.go:211-322 | Tells the relay what became of the exec: one exit with code -1 and the reason if it did not start; otherwise an ack, the redaction of the first bytes of each stream that has any, up to the limit the frame names (1 MiB if none), and an exit with the process's code and the truncation mark |
| Exec.CollectExecResult | internal/server/exec_api.go:216-253 | Returns at the first exit, timeout or close: the output of each stream before it, in order, with the exit's code and mark, or with -1 |
| Exec.CollectsStreams | internal/server/exec_api.go:232-249 | Until an exit arrives each stream is collected in order and by itself |
| Exec.EndsOnce | internal/server/exec_api.go:216-253 | Which arrival ends the wait is settled by the arrivals alone |
| Exec.CollectsExec | internal/server/exec_api.go:216-264 | Collecting what an exec sends gives the redaction of the first bytes of each stream, up to the limit it asked for (1 MiB if none), exit code and truncation mark |
| Exec.ExecFramesGrammar | cmd/agent/exec.go:211-322 | What one exec sends is a trace of the grammar with its own ids |
| Exec.BrowserSeesRedacted | internal/server/operator_ws.go:269-277 | What reaches the browser decodes to the redaction of what came, without any secret, and nothing but the output changes |
| CapBuffers.HoldsFirstBytes | cmd/agent/buffer.go:15-29 | The buffer holds the first max bytes written; truncated exactly when some write met or passed the limit |
| CapBuffers.TruncatedExactly | cmd/agent/buffer.go:15-32 | Without empty writes, truncated exactly when more than max bytes were written |
| CapBuffers.EmptyWriteAtLimitTruncates | cmd/agent/buffer.go:19-23 | An empty write into an exactly full buffer marks it truncated |
| CapBuffers.CapBuffer.constructor | cmd/agent/buffer.go:13 | A new buffer is empty |
| CapBuffers.CapBuffer.Write | cmd/agent/buffer.go:15-29 | One more write of the run, with the short count on the truncating one |
| Base64.RoundTrip | internal/server/exec_api.go:255-264 | Decoding an encoding gives the bytes back (section 4 of RFC 4648) |
| Base64.EncodesGroup | internal/server/operator_ws.go:269-277 | Three octets are written as the four digits of a 24-bit number (section 4 of RFC 4648) |
| Patterns.MatchAtComplete | internal/audit/redact.go:11-21 | The engine finds a match wherever some prefix is in the pattern's language |
| Patterns.MatchAtSound | internal/audit/redact.go:11-21 | What it matches is in the language |
| Preference.MatchIsFirst | internal/audit/redact.go:11-21 | A match of a given length is reported exactly when that is how much is taken by the way of matching a leftmost-first search meets first: item by item, more characters first, or fewer for a lazy item |
| Preference.FirstMatchIs | internal/audit/redact.go:11-21 | Among alternatives the first that matches decides |
| Extent.ReplaceIs | internal/audit/redact.go:25-30 | A pass puts one marker for each match found from the left, none overlapping, and changes nothing else |
| Extent.WholeSecretTaken | internal/audit/redact.go:11-27 | Every pattern but the PEM block's takes the longest word it can wherever it matches |
| Extent.NothingTrails | internal/audit/redact.go:11-27 | What follows a marker of an open-ended pattern is never a character the secret could have gone on with |
| Extent.PemTakesFirstEnd | internal/audit/redact.go:19 | A PEM block runs from its BEGIN line to the first END line after it |
| Secrets.RedactedHasNoSecret | internal/audit/redact.go:11-30 | Nowhere in a redacted string stands an AWS key or secret assignment, an OpenAI key, a Vault, GitHub or Slack token, a JWT or a PEM private key, each spelled out character by character |
| Secrets.AssignmentMatches | internal/audit/redact.go:20 | Every assignment of six or more characters to password, passwd, secret, token or api key, spelled out, is a match of the last pattern |
| Redaction.PassKeepsClean | internal/audit/redact.go:25-30 | No pass can create a match of a prefixed pattern |
| Redaction.OwnPassCleans | internal/audit/redact.go:27 | A prefixed pattern's own pass leaves no match of it |
| Redaction.ChainCleans | internal/audit/redact.go:25-30 | So the chain leaves none, whatever passes follow |
| Redaction.CleanIsFixed | internal/audit/redact.go:27 | A pass over text without a match changes nothing |
| Redaction.PassIsCanonical | internal/audit/redact.go:25-30 | No pass brings invalid octets together that would then be read as a character |
| RedactChain.RedactDecodes | internal/audit/redact.go:25-30 | So each pass reads exactly the text the last one wrote, and the output reads as the nine passes over the input's text |
| RedactChain.RedactText | internal/audit/redact.go:25-30 | The loop, each pass reading and writing octets, computes the chain of the nine patterns on the decoded text |
| RedactChain.NothingPrefixedIsLeft | internal/audit/redact.go:11-30 | The output, read as text, has no substring matching any of the six prefix-anchored patterns |
| RedactChain.UnchangedIffClean | internal/audit/redact.go:25-30 | A string is unchanged exactly when none of the nine patterns occurs in its text |
| RedactLoose.AwsGone | internal/audit/redact.go:13 | The output has no AWS secret assignment either, whatever passes followed |
| RedactLoose.PemGone | internal/audit/redact.go:19 | Nor a PEM private key block |
| RedactLoose.SecondRun | internal/audit/redact.go:23-30 | A second run is a run of the last pass alone |
| RedactIdem.IdempotentIff | internal/audit/redact.go:23-30 | Redacting twice is redacting once exactly when, in the text the first eight passes leave, no assignment's value is cut short by the start of a match of the last pattern |
| RedactTwice.NotIdempotent | internal/audit/redact.go:20-24 | A text that a second run changes |
| EnvFile.LoadEnvFile | cmd/agent/enroll.go:135-166 | The loop computes Load; a missing file is empty, a line too long an error |
| EnvFile.AssignLine | cmd/agent/enroll.go:148-163 | One line makes at most one binding |
| EnvFile.WriteEnvFile | cmd/agent/enroll.go:173-196 | The loops compute Print, for any map iteration order |
| EnvFile.PrintedKeysFacts | cmd/agent/enroll.go:186-196 | Each key with a non-empty value is printed exactly once, no other is |
| EnvLine.PrintedInOrder | cmd/agent/enroll.go:177-196 | The five enrolment keys are printed first, in their fixed order |
| EnvLine.QuotedValue | cmd/agent/enroll.go:148-163 | A line, with blanks around its parts and `export ` before it or not, binds its key to what stands between two quotes of either kind |
| EnvLine.PlainValue | cmd/agent/enroll.go:148-163 | Any other value is taken as it stands |
| EnvLine.BindsNothing | cmd/agent/enroll.go:148-158 | A blank line, a comment and a line without `=` bind nothing |
| EnvLine.LastWins | cmd/agent/enroll.go:162 | The last line that binds a key gives it its value |
| EnvLine.TooLongIff | cmd/agent/enroll.go:146-165 | A file cannot be read to its end exactly when one of its lines takes 64 KiB or more |
| EnvRoundTrip.ParsesBackIff | cmd/agent/enroll.go:148-163 | A printed line parses to its own binding exactly when key and value have the well-formed shape |
| EnvRoundTrip.ParseShrinks | cmd/agent/enroll.go:152-162 | The parsed key lies before the first `=`, the value after it; parsing never lengthens either |
| EnvRoundTrip.RoundTripIff | cmd/agent/enroll.go:135-196 | For every map and iteration order, loading what was written gives exactly the non-empty bindings if and only if each is well formed |
| EnvRoundTrip.ReadBackIsOneLine | cmd/agent/enroll.go:146-165 | Nothing loaded holds a newline |
| EnvReadBack.LoadOfPrinted | cmd/agent/enroll.go:135-196 | What any values under sound keys, also values that hold newlines, are read back as, key by key; reading fails exactly when some line does not fit the scanner |
| EnvRemove.RemoveEnvKey | cmd/agent/deviceid.go:161-189 | The loop computes Remove; the file is rewritten only when a line was dropped |
| EnvRemove.SurvivingLines | cmd/agent/deviceid.go:161-171 | On any content, surviving lines are the original ones in order, none begins `key=` |
| EnvRemove.RemoveIdempotent | cmd/agent/deviceid.go:161-174 | A second removal changes nothing |
| EnvRemove.KeptAssigns | cmd/agent/deviceid.go:161-171 | Removal leaves every other key's binding as it was |
| EnvRemove.DeleteCommutesIff | cmd/agent/deviceid.go:161-189 | Loading after removal gives the map without the key exactly when every line that bound it began literally `key=` |
| EnvRemove.DeleteFromPrinted | cmd/agent/deviceid.go:146-204 | On a file the agent wrote it always does |
| EnvRemove.ExportedSurvives | cmd/agent/deviceid.go:161-171 | An `export KEY=` line is loaded but survives removal |
| RelayEnv.LoadRelayEnv | cmd/relay/envfile.go:15-44 | The loop computes LoadInto; missing files and lines after a too long one are skipped |
| RelayEnv.ExportLine | cmd/relay/envfile.go:24-42 | One line sets at most one variable, if unset |
| RelayEnv.EnvironThenFirst | cmd/relay/envfile.go:40-42 | Key by key: the process environment wins, then the first acceptable assignment |
| RelayEnv.SetByFirst | cmd/relay/envfile.go:40-42 | A variable is what the environment has for it, or else what the first line binds it to that names it without a NUL |
| RelayEnv.LoadersAgreeIff | cmd/relay/envfile.go:23-43 | The two loaders agree on a file exactly when first acceptable and last assignments do |
| RelayEnv.PrintedReadsAlike | cmd/relay/envfile.go:23-43 | They agree on every file printed from well-formed bindings, up to variables already set |
| Enroll.PollForInstallToken | cmd/agent/enroll.go:334-391 | The loop terminates whatever the answers; it ends as the answers and the clock say: after waiting on network failures, authorization_pending and slow_down, with the token of a 200 that carries one, refused past the deadline or on access_denied or expired_token, cancelled, or failed with any other code |
| Enroll.PollOutcome | cmd/agent/enroll.go:334-391 | Polling ends in exactly one of these ways, and with a result exactly when there is such a deciding turn |
| Enroll.RunIsPaced | cmd/agent/enroll.go:344-390 | Interval is the start plus 5 s per slow_down so far; each poll waits at least that after the previous answer, which came before the deadline |
| Enroll.PacedIsBounded | cmd/agent/enroll.go:276-288 | Paced polls satisfy the quadratic bound |
| Enroll.PollBound | cmd/agent/enroll.go:334-391 | So does every run (section 3.5 of RFC 8628): (n-1) I + 5 (k-1)(k-2)/2 at most L |
| Enroll.RunSelfEnrollment | cmd/agent/enroll.go:426-491 | The first turn whose code is neither refused nor lapsed settles the outcome; success takes a polled token, a complete reply and a written file, and leaves the server's five values, its API base or else the configured one, printed |
| Enroll.EnrolledReadsBackIff | cmd/agent/enroll.go:229-234 | For all server values the file re-reads as enrolled exactly when every line fits the scanner and device id, org id and relay URL are each left bound to something not blank; without newlines that is a matter of those three values alone |
| Enroll.ReadsBackWhatWasSent | cmd/agent/enroll.go:468-484 | Read back, each of the five keys has what the server sent for it, trimmed and unquoted, the API base the configured one when the server sent none |
| DeviceKey.AtMostOneCreated | cmd/agent/deviceid.go:91-134 | In every interleaving at most one call returns created, and the file holds its seed |
| DeviceKey.SettledForever | cmd/agent/deviceid.go:114-131 | From then on path and file never change |
| DeviceKey.EveryLaterLoadAgrees | cmd/agent/deviceid.go:91-103 | Every call that looks afterwards returns that seed or fails |
| DeviceKey.AllAgreeUnlessDiscarded | cmd/agent/deviceid.go:91-134 | In every run in which no complete key file is removed, all identities returned, loaded or created, carry the seed on disk |
| DeviceKey.DisagreementNeedsLateFailure | cmd/agent/deviceid.go:123-131 | Two identities that differ need a sync or close that failed after the whole seed was written |
| DeviceKey.EarlyLoadCanDisagree | cmd/agent/deviceid.go:114-131 | A load overlapping a failing creator can return a seed not on disk |
| KeyFate.OnDiskIff | cmd/agent/deviceid.go:91-134 | In every run an identity, loaded or created, still has its file unchanged at the path exactly when that file was never removed; with distinct seeds that is exactly when the seed on disk is its own; a created one's never was |
| KeyFate.DisagreeIff | cmd/agent/deviceid.go:91-134 | With distinct seeds two identities disagree exactly when they came from different files, and then the older file was removed |
| KeyFate.AtPathIff | cmd/agent/deviceid.go:114-131 | In every run a file that was ever created is at the path exactly if its creator has not removed it |
| KeyFate.CompleteFileFixed | cmd/agent/deviceid.go:118-122 | A file that holds a whole seed never changes again, removed or not |
| KeyFate.LoadedIffWhole | cmd/agent/deviceid.go:91-99 | In every run a call that opened a key file loads it exactly if it holds 32 bytes, and otherwise refuses it |
| Boots.RegisteredIff | cmd/agent/main.go:182-187 | Over any overlapping boots the key is registered exactly when the boot that created it had the secret and was answered 200; no other boot asks |
| Boots.FailedRegistrationIsNotRetried | cmd/agent/token.go:222-228 | Two boots, a failed registration, and no second attempt |
| Boots.NoCreatorNoRegistration | cmd/agent/main.go:162-187 | In support of both: without a boot that created the key nobody registers it |
| Token.TokenStore.constructor | cmd/agent/token.go:65-67 | A new store is empty and not ready |
| Token.TokenStore.Get | cmd/agent/token.go:69-73 | Returns the latest stored token, non-empty once there is one |
| Token.TokenStore.Set | cmd/agent/token.go:75-80 | Stores a non-empty token, then releases waiters |
| Token.TokenStore.Wait | cmd/agent/token.go:87-94 | Released only once a non-empty token is stored; with both arms ready either may be taken |
| Token.Acquire | cmd/agent/token.go:153-187 | A token is granted exactly by a successful reply that carries one, with the lifetime it names in seconds; refusal is exactly 401 |
| Token.RenewDelay | cmd/agent/token.go:190-199 | Half the lifetime, kept between 5 and 180 minutes |
| Token.RenewedInTimeIff | cmd/agent/token.go:190-199 | Renewal is due by expiry exactly for lifetimes of five minutes or more |
| Token.RunTokenManager | cmd/agent/token.go:208-269 | Stops at once without a secret to register with or on a 401; otherwise the store receives the tokens of the successful replies of the turns reached, in order, each request made when due; the spent secret is removed exactly after a registration answered 200, if the file can be written |
| Token.SpendSecret | cmd/agent/token.go:222-235 | The secret's lines are removed exactly after a registration answered 200, if the file can be written |
| Token.KeepToken | cmd/agent/token.go:238-268 | The store receives exactly the non-empty tokens of the successful replies of the turns reached, in order; a request is due half the lifetime (5 to 180 minutes) after a token, two minutes after a failure |
| Token.NothingAfterRefusal | cmd/agent/token.go:250-254 | Nothing is requested after a refusal; no empty token is stored |
| Token.Spacing | cmd/agent/token.go:255-267 | Each request starts the chosen delay after the previous one finished |
| Token.AttemptsBeforeExpiry | cmd/agent/token.go:190-268 | 1 + (ttl - renewDelay) / 150 s attempts start by expiry when each fails within 30 s |
| Audit.Forwarder.Enqueue | internal/audit/forward.go:70-78 | Never blocks; drops only on a full queue |
| Audit.Forwarder.Post | internal/audit/forward.go:91-97 | A non-empty batch is posted and reset |
| Audit.Forwarder.ReceiveOne | internal/audit/forward.go:106-110 | Oldest event joins the batch, which is posted at 50 |
| Audit.Forwarder.Run | internal/audit/forward.go:82-115 | The loop computes AfterAll over any interleaving with goroutines that emit through the logger |
| Audit.TickPosts | internal/audit/forward.go:111-112 | After a tick, in every run, the batch is empty and all that was taken off the queue has been posted, in order |
| Audit.TakesOrPosts | internal/audit/forward.go:106-112 | A receive takes the oldest event in hand and posts exactly when that makes fifty; a tick posts what is in hand |
| Audit.DrainsAll | internal/audit/forward.go:104-112 | Left alone, the loop posts everything accepted: one receive for each queued event and a tick |
| Audit.RunConserves | internal/audit/forward.go:70-126 | In every run each org-scoped event emitted is accepted or dropped, in order, and accepted ones are posted once, in order, in batches of 1 to 50, or still waiting |
| Audit.OnlyOrgScopedEnter | internal/audit/audit.go:75-91 | Over every run only org-scoped events enter; those emitted are the accepted and the dropped merged in order |
| Audit.DropsOnlyWhenFull | internal/audit/forward.go:70-78 | A run drops an event exactly when at some emission the queue is full |
| Audit.FlushesAllIff | internal/audit/forward.go:99-105 | On shutdown everything accepted has been posted exactly when the queue is empty just before |
| Audit.ShutdownLosesQueue | internal/audit/forward.go:99-105 | An event still queued at shutdown is not posted |
| Audit.Logger.Emit | internal/audit/audit.go:62-92 | Writes every event, forwards exactly the org-scoped ones |
| Metrics.BoundedIsNewest | cmd/agent/metrics_ship.go:231-237 | Appending step by step keeps the newest of the whole history |
| Metrics.Reporter.OnTick | cmd/agent/metrics_ship.go:167-225 | One turn computes Ticked: credentials, sampling, shipping, next delay |
| Metrics.Reporter.Run | cmd/agent/metrics_ship.go:160-226 | The loop computes TickedAll |
| Metrics.NewestUnsent | cmd/agent/metrics_ship.go:147-237 | After any history the buffer is the newest 60 documents collected since the last successful ship; each ship is the run of the collection at its recorded position, and they do not overlap |
| Metrics.RejectedKeyIsReplaced | cmd/agent/metrics_ship.go:199-205 | The tick after a rejected key, whenever it comes, asks for new credentials before it samples or ships; the documents are kept |
| Metrics.CredentialsFollow | cmd/agent/metrics_ship.go:167-186 | Over every history: dropped by a rejected key, else those just fetched, else those there were |
| Metrics.NextTickComes | cmd/agent/metrics_ship.go:164-226 | Over every history: in five minutes after a failure or a rejected key, in a minute otherwise, never once refused or when a failure finds the context done |
| Metrics.CollectsEachSample | cmd/agent/metrics_ship.go:188-200 | Every tick that samples adds its documents, system, file systems, networks, and no other adds any |
| Metrics.ShipTakesAll | cmd/agent/metrics_ship.go:206-224 | A successful ship takes the whole buffer |
| Registry.Agent.constructor | internal/registry/registry.go:69-72 | A fresh record is open, empty and not cancelled |
| Registry.Agent.Send | internal/registry/registry.go:43-50 | Queued, full or (closed channel) panics |
| Registry.Agent.PumpOne | internal/server/agent_ws.go:130-139 | Frames leave in the order accepted |
| Registry.Agent.Retire | internal/registry/registry.go:91-94 | Cancels and closes once |
| Registry.Registry.Register | internal/registry/registry.go:68-82 | Installs a record, retires the device's previous one and no other |
| Registry.Registry.Unregister | internal/registry/registry.go:86-95 | Removes only a current record; late or second calls change nothing |
| Registry.Registry.Get | internal/registry/registry.go:98-106 | Finds exactly the current, open record |
| Registry.Registry.SendTo | internal/registry/registry.go:43-50 | A send panics exactly on a record no longer current |
| Registry.RunCalls | internal/registry/registry.go:43-106 | After any run of connects, disconnects, sends and pumps: one current record per device, all others closed and cancelled exactly once, written a prefix of accepted |
| Pty.PtyRegistry.Get | cmd/agent/pty.go:81-85 | Looks up by id |
| Pty.PtyRegistry.Put | cmd/agent/pty.go:87-98 | Refuses exactly a taken id or a ninth shell, and changes nothing then |
| Pty.PtyRegistry.Delete | cmd/agent/pty.go:100-106 | Removes and returns the shell of an id |
| Pty.PtyRegistry.TakeAll | cmd/agent/pty.go:108-112 | Empties the registry, returning all shells |
| Pty.NoLeakedShell | cmd/agent/pty.go:153-215 | In every interleaving a spawned shell is registered, held by exactly one goroutine about to close it, or closed; closed at most once; at most eight registered |
| Pty.AllClosedAtTheEnd | cmd/agent/pty.go:108-116 | After teardown every shell has been closed exactly once |
| Pty.ReaderExitSparesOthersIff | cmd/agent/pty.go:174-180 | In every run a reader's exit leaves every other shell alone exactly when its own is still registered or its id is free |
| Pty.ReaderMayCloseSuccessor | cmd/agent/pty.go:174-180 | A reader's exit can close a newer shell under its id |

## Left out

- Cryptography, token verification, HTTP, TLS, websocket transport and JSON: links are lossless FIFOs, ids are opaque strings, outcomes are parameters. Frames are taken to fit the 1 MiB read limit.
- Organisation checks, client IP and user agent: a session or call is bound to a device, and any connection that device ever had may be the one it holds.
- Agents that do not follow the connection loop: isolation and refinement are about agents that do. The browser-side redaction lemma holds for any frame.
- Processes, PTYs and their bytes: what a process writes, when it ends and with which code is a parameter; the short count of a truncating write (which can turn into exit code -1) is part of that choice. Timeouts and cancellation act only through it.
- PTY input, resizing and output contents: in the connection model a started session may emit data and exit frames at any time; who closes shells is the separate model in Pty.dfy.
- One agent process serves one connection after another: a panic is shown to end the agent on its own connection; that the next connection ends with it is not modelled. Cancelling the execs' contexts at teardown is part of what the environment may do to a process.
- Idle and maximum-duration timers of operator sessions: any live session may end at any time.
- A send that panics inside an HTTP handler is recovered by net/http and is modelled as that call ending without an answer; one in the operator's pump ends the run.
- Windows service code, osquery, inventory, gopsutil collectors, packaging, the ticket command and constant tables: foreign calls or single-branch logic.
- Script files (materialising and cleaning up): one outcome of the environment.
- Failures while writing agent.env or removing a key from it (temp file, chmod, sync, rename) and file modes: content only.
- Invalid UTF-8 in agent.env: there a text is a sequence of code points.
- 64-bit overflow of durations and of int counters.
- The forwarder's failures inside `post` and its signature; an event that fails to marshal.
- ListByOrg, Count and /metrics: snapshots and counters of the registry. Minting a session is modelled as its two effects, the issued id and the session.open event; whether the device is online at that moment is not checked, since it may go offline before the operator attaches anyway.
