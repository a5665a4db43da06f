# Verified model of the NanoKVM client

A Dafny model of the protocol core of the `nanokvm` client library: the session shared by all coroutines of a
client, Pro WebRTC signaling, the SSH client, image uploads, mouse reports and version ordering. The main results
are statements about every input, every run or every interleaving. `SessionScenarios` and
`Signaling.OneKindConversation` follow single conversations instead, as worked examples. `dafny verify dfyconfig.toml`
checks the whole project.

## What is modelled

**The session** (`SessionState`, `SessionTasks`, `SessionInvariant`, `SessionOutcomes`, `SessionProperties`,
`SessionRequests`, `SessionLogins`, `SessionSockets`, `SessionRun`, `SessionScenarios`, `SessionSchedules`). Logins,
logouts, requests, 401 cleanups, password changes and WebSocket opens, sends and invalidations run as concurrent
coroutines over `_token`, `_session_generation`, `_credentials`, `_ws`, `_ws_heartbeat` and `_ws_lock`. Each is suspended at an await, and the code between two awaits is one step. A schedule
is any list of calls and resumptions with any outcomes (response, status, transport error, cancellation), and
`Reached` is the state after it. `SessionController` is a class whose methods update the fields in place; `SessionRun`
drives it through a schedule, segment by segment, and proves that it is always in the state `Reached` describes.

The invariant (`SessionInvariant`) is proved in rely/guarantee style: each segment keeps the shared part and its own
part, and does only what `Guarantee` allows, which is harmless to every other coroutine. An observer, which no segment
reads, logs for each coroutine what it sent, what was refused and accepted, which password modes it tried, what it
wrote and cleared, and what a password change saw when it decided; `SessionOutcomes` proves what these logs mean.

**Pro WebRTC signaling** (`Text`, `Sdp`, `MediaLines`, `ProOffer`, `Candidates`, `Signaling`). The SDP parser and
printer at character level, splitting one offer into single-section offers, merging answers back, candidate mapping
both ways, and the event loop that holds early candidates. The source's loops are methods, each proved against a
specification function; the event loop is proved equal to a function of the whole message list. The lines are those
of SDP (section 5.14 of RFC 8866 for `m=`, section 4 of RFC 5888 for `a=mid`).

**The SSH client** (`SshExecution`, `SshClient`). The two-thread handshake between cancelling a command and its
worker, one shared access a step; and authenticate, disconnect and failing commands over connection generations.

**Uploads** (`ImageRemote`, `ImageUpload`). Methods with the source's loops over a file whose reads may be short. At
every await an exception may be raised, and the client's session may end (a 401, another call), which forgets the
device's version, be renewed, or learn the version; a request is sent, and logged, only while the session is live. The
version requirements are checked as the source does, with a version request when the version is unknown.

**Mouse** (`Mouse`). The report bytes and the button mask with its rollback, over sends that may wait, fail before or
during the write, and be overtaken by any number of session resets before and after it.

**Versions** (`Version`). The two version comparisons.

## Where the code and its promises differ

- `docs/connecting.md` (line 69) says a successful password change clears the local session. The code does so only
  for firmware with the current-password contract. `SessionProperties.SuccessfulChange` gives the exact condition for
  every interleaving, by what the change saw of hardware and version: with the contract the generation of the call is
  over; without it the change ended no generation, and that of the call is over exactly when another operation ended
  it. `SessionScenarios.ChangeClearsExactlyWhenChecked` is the undisturbed case, from the device's replies.
- `forget_versions` drops the cached versions with the session, but a version reply that passed its exit check before
  a reset and is stored after it stays cached. `SessionProperties.CachedVersionIsCurrentIff` says exactly when the
  cached version is of the current generation, `SessionSchedules.VersionOutlivesItsSession` is a run where it is not. A
  password change is unaffected: it acts in its own generation or not at all (`SessionProperties.PasswordPostIsChecked`).
- The upload's documentation (`nanokvm/components/storage.py`, lines 221-223) says a failed overwrite leaves neither
  copy. Once a chunk was posted, the run finishes the file or its cleanup calls `delete_image` one turn of the event
  loop after the failure, and the DELETE goes out exactly when that call's version check passes and the session is live
  after it (`ImageUpload.UploadToPro`, `ImageUpload.StartedUploadEnds`). An unknown version is first asked for, by a
  request that may raise or lose the session. If the session is never lost and version requests do not raise, the
  DELETE goes out exactly when the device's application version is at least 1.1.6 or unparseable
  (`ImageUpload.DeleteDueByDevice`). On an older Pro, and after a lone 401 to a chunk
  (`ImageUpload.StoppedUploadEnds`), the partial file stays; `ImageUpload.OldProRun` is such a run, on version 1.1.5.
  Overwriting on an older Pro raises before the device is changed (`ImageUpload.Prepare`).
- A mouse report is built before its send may wait for the WebSocket lock. A press that waits through a session reset
  and is then sent is not in the client's mask (`Mouse.StalePressIsMissing`; `Mouse.MouseController.MouseDown` says
  exactly when one call keeps mask and presses together, `Mouse.UnionUnlessStale` exactly when a run of calls does).
  `SessionSchedules.InputOutlivesItsSession` is a family of runs of the session in which an input called in one
  generation goes out on the WebSocket of the next, although each waiter gets the lock in the order of its coming
  (`SessionSchedules.InOrder`): any number of calls that fail at once wait between a login and the input.
- A section without a MID takes its index as MID, which may equal another section's own MID. A Pro candidate then
  routes back to the wrong peer. `Candidates.RoutesBack` states exactly when it routes back, and `CollidingMids` with
  `ClashingTextExists` gives an offer for which it does not.
- An exception that `NanoKVMSSH.authenticate` does not list leaves its client open; `SshClient.ClientsAreConserved`
  shows that these clients, and no others, escape, and `SshClient.UnlistedFailureLeaks` is such a run.
- An unknown version counts as new enough, so `_version_at_least` is an order only on parseable versions
  (`Version.UnknownIsNotTransitive`). The unpadded comparison agrees with it exactly for the minima that
  `Version.TupleAgreement` describes, 2.5.1 among them.

## Model

| member | source | states |
|---|---|---|
| SessionInvariant.ReachedInv | nanokvm/components/session.py:149-852 | the invariant over generations, token writes, lock, socket and heartbeats holds after every schedule of any number of coroutines |
| SessionInvariant.StepResume | nanokvm/components/session.py:163-852 | every segment keeps the shared invariant and its own part and stays within what other coroutines rely on, whatever its await delivers |
| SessionInvariant.StepKeepsInv | nanokvm/components/session.py:149-852 | one event, a new call or a resumption, keeps the parts of all coroutines at once |
| SessionInvariant.ClearKeeps | nanokvm/components/session.py:482-503 | clearing in one locked step gives the next generation to its caller and leaves no socket, heartbeat or token of the old one |
| SessionInvariant.WriteKeeps | nanokvm/components/session.py:375-394 | writing a token keeps the invariant only for the login that owns the current, still tokenless generation |
| SessionOutcomes.ReachedTraced | nanokvm/components/session.py:149-852 | in every reachable state each coroutine's log explains its requests, clears, writes and end |
| SessionOutcomes.ResumeFacts | nanokvm/components/session.py:149-852 | every segment keeps its own log true and adds to the records only what is its own |
| SessionOutcomes.ClearsRun | nanokvm/components/session.py:482-503 | a clear is recorded with a cause that its coroutine's log bears out |
| SessionOutcomes.ReachedCredentials | nanokvm/components/session.py:401-458 | kept credentials are new objects, rejected ones stay dropped, and the mode is the latest accepted login's, after every schedule |
| SessionRun.Run | nanokvm/components/session.py:149-852 | the class, updated in place segment by segment, is after every schedule in the state the machine describes, cancelled heartbeats included |
| SessionRun.Segment | nanokvm/components/session.py:149-852 | each segment on the class's fields is the machine's step |
| SessionProperties.TokenBelongsToItsLogin | nanokvm/components/session.py:349-458 | a token in use is the constructor's in generation 0 or the one write of the login that began this generation; no generation has two writes |
| SessionProperties.SupersededLoginWritesNothing | nanokvm/components/session.py:375-458 | once its generation has passed, a login writes neither token nor credentials nor mode in any continuation of the run |
| SessionProperties.OnlyTheOwnerWrites | nanokvm/components/session.py:349-458 | in any reachable state only the login owning the current generation can set a token, keep credentials or learn the mode |
| SessionProperties.KeptCredentialsWereAccepted | nanokvm/components/session.py:388-411 | kept credentials exist only when asked for, and are those of a login the device accepted |
| SessionProperties.TokenStaysInItsGeneration | nanokvm/components/session.py:375-394 | along every run a token does not change until the generation does |
| SessionProperties.StaleClearIsIsolated | nanokvm/components/session.py:482-503 | a clear for generation g changes nothing in a later one, ends g otherwise, and leaves the generation past g either way |
| SessionProperties.GenerationsEndForCause | nanokvm/components/session.py:163-222 | each generation was ended by a login, by a 401 to a request or handshake sent in it with its own token, or by a logout or an accepted password change called in it |
| SessionProperties.AcceptedInItsGeneration | nanokvm/components/session.py:175-222 | over every run a response is accepted only in the generation it was sent in, and it was sent with that generation's token |
| SessionProperties.SentWithItsToken | nanokvm/components/session.py:175-182 | every request and handshake carried the token of the generation it was sent in |
| SessionProperties.LoginSucceedsIffItWrote | nanokvm/components/session.py:429-458 | in every interleaving an ended login succeeded exactly when it wrote a token; it tried at most two modes, plain only after obfuscated, and kept the last |
| SessionProperties.OnlyLoginsWrite | nanokvm/components/session.py:349-399 | every token ever written was written by a login |
| SessionProperties.ModeOfLatestLogin | nanokvm/components/session.py:429-455 | in every interleaving the password mode is the constructor's until a login is accepted, then the last accepted login's |
| SessionProperties.RejectedStayDropped | nanokvm/components/session.py:413-427 | credentials the device rejected are never kept again, whatever other logins do meanwhile |
| SessionProperties.LogoutEndsItsGeneration | nanokvm/components/session.py:468-480 | in every interleaving an ended logout has ended its generation, unless its own wait for the lock was given up and it failed |
| SessionScenarios.LogoutEndsSession | nanokvm/components/session.py:468-480 | undisturbed, a logout posts exactly with a real token and ends the session whatever the device answers; it succeeds unless the POST fails with a status other than 404 |
| SessionProperties.OvertakenRequestFails | nanokvm/components/session.py:175-222 | a request whose generation passed before it was accepted, a logout's POST included, is accepted in no continuation of the run, and the operation that made it never succeeds |
| SessionProperties.SuccessWasAccepted | nanokvm/components/session.py:205-222 | in every interleaving a request or detection that succeeded had its own response accepted, in the generation, the one it expects if it names one, and with the token it was sent with |
| SessionRequests.RefusalEndsSession | nanokvm/components/session.py:202-211 | after every schedule each request, logout POST or handshake answered 401 has ended its generation, or its operation still waits to clear it, or failed after giving up that wait |
| SessionRequests.RefusedTokenIsGone | nanokvm/components/session.py:202-211 | once such an operation has ended, the token and WebSocket in use are of a later generation |
| SessionRequests.SuccessWasAnswered | nanokvm/components/session.py:202-222 | a successful request or detection had, in this order, a status below 400 and a body in its own generation, and left the response with no API error; a detection keeps what the device said |
| SessionProperties.CachedVersionIsCurrentIff | nanokvm/components/session.py:664-679 | in every reachable state with a cached version it is the reply of a request sent and checked in one generation, which is the current one if and only if no event between that check and the store ended a session; none has since |
| SessionProperties.CredentialsGoForCause | nanokvm/components/session.py:401-480 | in every reachable state kept credentials go only by a call that drops them, by the rejection of a login that used them, or by a fresh login that keeps its own; a call drops them exactly if it is a fresh login, a logout, a password change or the exit |
| SessionLogins.LoginSendsItsCredentials | nanokvm/components/session.py:401-458 | in every continuation an authenticate sends the username and password it was called with, a reauthenticate those kept when it was called; only an authenticate keeps credentials, its own |
| SessionScenarios.LoginAnswered | nanokvm/components/session.py:349-458 | undisturbed, a login keeps the token of the reply, the mode that worked and its credentials when asked to, and a reply without a token fails and keeps nothing |
| SessionScenarios.GrantedTokenExact | nanokvm/components/session.py:375-386 | the token is what stands between the spaces of the cookie, else of the payload; with both blank or missing there is none |
| SessionSchedules.InputOutlivesItsSession | nanokvm/components/session.py:731-765 | for any number of waiters between a login and an input there is a run, with the lock given in order of arrival, in which the input called in generation 0 is sent on a WebSocket of generation 1 |
| SessionSchedules.VersionOutlivesItsSession | nanokvm/components/session.py:659-679 | a run in which a version asked for in generation 0 is cached in generation 1 |
| SessionProperties.PasswordPostIsChecked | nanokvm/components/session.py:562-588 | every current-password POST carries the token whose account name was found equal to the caller's, in the generation the call began in |
| SessionProperties.NoPostAfterChange | nanokvm/components/session.py:562-588 | once the generation has changed since a password change began, no continuation of the run sends its POST |
| SessionProperties.NoLegacyPostAfterChange | nanokvm/components/session.py:591-611 | nor does any continuation send the POST without the current password |
| SessionProperties.SuccessfulChange | nanokvm/components/session.py:527-611 | in every interleaving a successful change had its own contract's POST accepted; its generation is over if and only if it had the current-password contract or another operation ended it |
| SessionProperties.PostFollowsDecision | nanokvm/components/session.py:527-611 | which POST is under way follows from the hardware and version seen when the change decided; it carries the account and password of the call, and the current-password contract is used only with a current password that is not blank |
| SessionProperties.PasswordRequestInItsGeneration | nanokvm/components/session.py:562-611 | a password request of either kind is in flight only for the generation of its call and with that generation's token |
| SessionProperties.SocketCarriesCurrentIdentity | nanokvm/components/session.py:731-751 | whenever there is a shared WebSocket its handshake carried the current token in the current generation |
| SessionProperties.HandshakeCarriesCurrentIdentity | nanokvm/components/session.py:789-835 | the same of a handshake in flight, which holds the lock and finds no shared WebSocket |
| SessionProperties.OneHeartbeat | nanokvm/components/session.py:712-751 | a heartbeat is stored exactly when a WebSocket is, and every other heartbeat ever started has been cancelled |
| SessionProperties.SharedSocketIsNeverClosed | nanokvm/components/session.py:697-751 | the WebSocket shared now was never closed by any coroutine |
| SessionSockets.SocketGoesForCause | nanokvm/components/session.py:697-751 | in every reachable state the shared WebSocket is given up only by a clear of its session, when found closed, after a failed send on it, or to close it; it is then closed or was found closed, and its heartbeat is cancelled |
| SessionSockets.SocketIsClosedInTheEnd | nanokvm/components/session.py:482-751 | over every run a WebSocket that was shared still is, or is closed, or was found closed while shared |
| SessionScenarios.FailedSendInvalidates | nanokvm/components/session.py:704-765 | undisturbed, a failed send closes its WebSocket and forgets it with its heartbeat while it is shared; a replacement stays |
| SessionScenarios.CloseEndsSocket | nanokvm/components/session.py:697-702 | undisturbed, close_ws closes and forgets the shared WebSocket and its heartbeat and leaves the session |
| SessionScenarios.OpenedSocketEnds | nanokvm/components/session.py:776-852 | undisturbed, a handshake carries the current token, leaves the session alone, and ends it when answered 401 |
| SessionProperties.InvalidateSparesReplacement | nanokvm/components/session.py:704-710 | invalidating a failed WebSocket neither detaches nor closes its replacement |
| SessionProperties.LockHasOneWorkingHolder | nanokvm/components/session.py:482-503 | exactly the lock's holder is at a point inside the locked region, and it never waits for the lock |
| SessionProperties.StepLowersRank | nanokvm/components/session.py:149-852 | every step brings its coroutine nearer its end unless it waits for a held lock; every operation is finite |
| SessionProperties.SomeTaskCanMove | nanokvm/components/session.py:482-503 | while any coroutine is unfinished some coroutine can advance, so the lock never deadlocks |
| SessionScenarios.ChangeClearsExactlyWhenChecked | nanokvm/components/session.py:527-611 | undisturbed, on any device and from its own replies, a change ends the session if and only if it is no Pro and has the current-password contract |
| SessionState.SessionController.DetachWs | nanokvm/components/session.py:712-719 | returns the old WebSocket and forgets it with its heartbeat, which it cancels |
| SessionState.SessionController.ClearLocalSession | nanokvm/components/session.py:482-498 | generation, token, version, WebSocket and heartbeat change together, or nothing does when stale |
| SessionState.SessionController.FinishLogin | nanokvm/components/session.py:375-394 | all of a login's writes happen, or none when it was superseded |
| SessionState.SessionController.RejectLogin | nanokvm/components/session.py:423-427 | the credentials a rejected login used are dropped unless they were replaced meanwhile |
| SessionState.SessionController.InstallWs | nanokvm/components/session.py:745-746 | the connected WebSocket and its heartbeat are stored together |
| SessionState.SessionController.ForgetFailedWs | nanokvm/components/session.py:704-708 | a failed WebSocket is forgotten only while it is the shared one |
| Sdp.LinesAreRuns | nanokvm/webrtc.py:444-446 | CRLF, CR and LF are all normalised: the lines are the maximal newline-free runs of the text |
| Sdp.SplitIsWellFormed | nanokvm/webrtc.py:437-454 | every parse gives non-empty newline-free lines and sections opened by, and only by, an `m=` line |
| Sdp.SectionsOfFlatten | nanokvm/webrtc.py:444-454 | grouping a well-shaped description's lines gives that description back |
| Sdp.SplitPrint | nanokvm/webrtc.py:437-464 | parsing a printed description restores it if and only if it is well-formed |
| Sdp.SplitPrintSplit | nanokvm/webrtc.py:437-464 | for every text, parse, print and parse again equals the first parse |
| Sdp.SplitSdpSections | nanokvm/webrtc.py:437-454 | the parsing loop computes the specified parse |
| Sdp.JoinSdpSections | nanokvm/webrtc.py:457-464 | the printing loop computes the specified print |
| Text.FirstTokenExact | nanokvm/webrtc.py:471 | the first token is the first run of non-spaces after leading spaces |
| Text.FirstTokenBlank | nanokvm/webrtc.py:471 | there is no first token exactly in a blank text, which is when the source raises |
| Text.StripExact | nanokvm/compatibility.py:24 | stripping removes spaces, only spaces, and all of them at both ends |
| Text.ParsePrintedNat | nanokvm/compatibility.py:27 | a number printed in decimal reads back as itself |
| MediaLines.ReplaceMidExact | nanokvm/webrtc.py:503-509 | afterwards there is a MID, every MID is the new one, and all other lines are unchanged in order |
| MediaLines.ReplaceMidTwice | nanokvm/webrtc.py:503-509 | a second replacement undoes the first |
| MediaLines.SingleMediaSessionBundled | nanokvm/webrtc.py:483-491 | the first BUNDLE line becomes `a=group:BUNDLE 0` in place and the others go |
| MediaLines.SingleMediaSessionUnbundled | nanokvm/webrtc.py:483-491 | without a BUNDLE line the session part is unchanged |
| MediaLines.SingleMediaSessionKeeps | nanokvm/webrtc.py:483-491 | one BUNDLE line exactly when there was one, and all other lines kept in order |
| MediaLines.TransportPrefixUnique | nanokvm/webrtc.py:523-525 | a line carries at most one transport prefix, so the order of the prefixes does not matter |
| MediaLines.WithTransportExact | nanokvm/webrtc.py:512-529 | per prefix a section keeps its own lines, else gets the first session-level one; other lines stay |
| MediaLines.SingleMediaSessionLines | nanokvm/webrtc.py:483-491 | the loop computes the specified session part |
| MediaLines.WithMediaTransportLines | nanokvm/webrtc.py:512-529 | the loop computes the specified section |
| ProOffer.SplitKeepsFirstOfEachKind | nanokvm/webrtc.py:373-396 | splitting raises exactly on an `m=` line without a token; else it keeps exactly the first audio and first video, by increasing index, one offer each |
| ProOffer.EmittedOfferReparses | nanokvm/webrtc.py:391-394 | each emitted offer parses to one section of its kind with every MID 0, other lines in order, and one `BUNDLE 0` line exactly when there was a BUNDLE |
| ProOffer.SplitMidsNewlineFree | nanokvm/webrtc.py:384-389 | kept MIDs contain no newline, so they can be printed back |
| ProOffer.MergeSucceeds | nanokvm/webrtc.py:403-424 | merging succeeds if and only if every kept kind has an answer holding a section of that kind |
| ProOffer.FindMediaSound | nanokvm/webrtc.py:415-422 | the section found is the first of its kind, after readable `m=` lines only |
| ProOffer.FindMediaComplete | nanokvm/webrtc.py:415-422 | such a section is always found |
| ProOffer.MergePreservesOffer | nanokvm/webrtc.py:399-434 | the merged text parses to one section per kept section, in order, with its kind and MID and its own answer's transport; the session part has no BUNDLE or transport line |
| ProOffer.SplitThenMerge | nanokvm/webrtc.py:373-434 | splitting and merging the untouched offers gives back every kept section under its own MID |
| ProOffer.SplitThenMergeRestores | nanokvm/webrtc.py:373-434 | such a section is the original one, line for line, if and only if it names itself by one MID and has its own line for every session-level transport prefix |
| ProOffer.SplitProWebRtcOffer | nanokvm/webrtc.py:373-396 | the loop computes the specified split or the error of the first blank `m=` line |
| ProOffer.MergeProWebRtcAnswers | nanokvm/webrtc.py:399-434 | the loop computes the specified merge or the error of the first section that fails |
| Candidates.RoutesBack | nanokvm/webrtc.py:339-370 | a Pro candidate mapped to its section routes back to its own peer if and only if no earlier section has that MID |
| Candidates.CollidingMids | nanokvm/webrtc.py:384-389 | an offer whose fallback MID equals an explicit one sends a video candidate to the audio peer |
| Candidates.ClashingTextExists | nanokvm/webrtc.py:437-464 | such an offer exists as a text |
| Candidates.RoutesByIndexThenAll | nanokvm/webrtc.py:346-351 | an unknown MID falls back to the index, and an unknown index to every peer in section order |
| Candidates.UpstreamThenClient | nanokvm/webrtc.py:353-370 | mapping upstream and back restores section MID and index and keeps text and username fragment |
| Candidates.EveryCandidateIsDelivered | nanokvm/webrtc.py:339-359 | every browser candidate has at least one peer and no mapping drops it |
| Signaling.ProConversation | nanokvm/webrtc.py:151-224 | nothing until every kind has answered, then one merge of the latest answers with the session part of the kind that answered first, then every owed candidate in order; a failing merge yields nothing |
| Signaling.NonProConversation | nanokvm/webrtc.py:151-199 | a non-Pro yields, until the socket ends, every non-empty video answer and every video candidate, unchanged, in order and once, and nothing else |
| Signaling.WrongModeEndsIt | nanokvm/webrtc.py:171-199 | a conversation no merge cuts short ends in a video-mode error exactly if a Pro sends a video status of -4 before the socket ends |
| Signaling.AnswerInExact | nanokvm/webrtc.py:185-224 | a message answers exactly when it is the answer event of an offered kind with a non-empty text |
| Signaling.OwedCandidateExact | nanokvm/webrtc.py:185-224 | a message is owed a candidate event exactly when it is the candidate event of a kind that has a section |
| Signaling.AnswerMatchesOffer | nanokvm/webrtc.py:204-207 | for a split offer the answer yielded parses to exactly the offer's kept sections, each from its kind's latest answer |
| Signaling.OutputIsOnline | nanokvm/webrtc.py:158-224 | what was yielded is never taken back: a prefix of the messages yields a prefix of the output |
| Signaling.OwedInPlace | nanokvm/webrtc.py:207-222 | each message's candidate stands right after those of all earlier messages: none lost, none twice |
| Signaling.AnswersAreLatest | nanokvm/webrtc.py:200-204 | the dictionary holds exactly the latest non-empty answer of each offered kind |
| Signaling.FirstAnswerFirst | nanokvm/webrtc.py:204 | its first entry, whose session part the merge uses, is the kind that answered first |
| Signaling.FirstKindFirst | nanokvm/webrtc.py:204 | whatever follows, the first entry stays that of the kind that answered first |
| Signaling.AnsweredAtIsLeast | nanokvm/webrtc.py:205-206 | the merge happens at the first message after which no kind is missing |
| Signaling.CandidateReachesItsPeers | nanokvm/webrtc.py:135-146 | a browser candidate is sent once to each of its peers, at least one, as a candidate of section 0 |
| Signaling.AnswerThenHeld | nanokvm/webrtc.py:205-213 | the merged answer comes first and the held candidates after it, in order |
| Signaling.StoreAnswer | nanokvm/webrtc.py:204-213 | an answer is stored, and the last missing one releases the merge and the held candidates |
| Signaling.TakeCandidate | nanokvm/webrtc.py:216-222 | a candidate is held before the answer and yielded after it |
| Signaling.ProMessage | nanokvm/webrtc.py:182-224 | one message keeps the loop's variables equal to their specification over all messages seen |
| Signaling.WebRtcSignaling.SendOffer | nanokvm/webrtc.py:118-133 | a Pro offer is stored; when the call succeeds exactly one offer per kept section went out, video first, each of its section's kind and parsing to that section alone; a send that raises leaves those before it; nothing changes when it has no media |
| Signaling.OfferMessagesExact | nanokvm/webrtc.py:131-133 | the messages of a Pro offer are one for each kept section and no other, video first |
| Signaling.WebRtcSignaling.SendCandidate | nanokvm/webrtc.py:135-146 | a candidate before the offer is refused; after it one message goes to each peer, up to a send that raises |
| Signaling.WebRtcSignaling.Events | nanokvm/webrtc.py:151-224 | the event loop computes the specified output and end of the whole conversation |
| SshExecution.CancelClosesPassedChannel | nanokvm/ssh_client.py:112-118 | once cancel has returned, a worker past its second check has its channel closed |
| SshExecution.EndedChannelIsClosed | nanokvm/ssh_client.py:341-364 | in every final state an opened channel is closed |
| SshExecution.CancelBeforeStartOpensNothing | nanokvm/ssh_client.py:341-364 | a command cancelled before its worker starts never opens a channel |
| SshExecution.WorkerStopsForCause | nanokvm/ssh_client.py:341-364 | in every interleaving a worker ends without a channel only after a cancellation or a failed opening, and closes one unread only after a cancellation |
| SshExecution.CommandExecution.AdvanceCanceller | nanokvm/ssh_client.py:112-118 | each access of the canceller is the specified step and keeps the invariant |
| SshExecution.CommandExecution.AdvanceWorker | nanokvm/ssh_client.py:341-364 | each access of the worker is the specified step and keeps the invariant |
| SshExecution.CommandExecution.Cancel | nanokvm/ssh_client.py:112-118 | an uninterrupted cancel closes the channel exactly when one was published |
| SshExecution.RunThreads | nanokvm/ssh_client.py:112-118 | the two threads on one execution object are the specified machine in any interleaving |
| SshClient.ClientsAreConserved | nanokvm/ssh_client.py:168-254 | every created client is installed, held by its pending authenticate, or closed, if and only if its connect raised no unlisted exception |
| SshClient.UnlistedFailureLeaks | nanokvm/ssh_client.py:203-245 | one connect that raises an unlisted exception leaves its client open and held by nobody |
| SshClient.InstalledIsLive | nanokvm/ssh_client.py:223-237 | the installed client is open and no connect still owns it |
| SshClient.OvertakenNeverInstalls | nanokvm/ssh_client.py:223-235 | over every continuation an overtaken authenticate never installs its client |
| SshClient.LaterCallOvertakes | nanokvm/ssh_client.py:168-254 | any later authenticate or disconnect overtakes a connect in flight |
| SshClient.ConnectInstallsUnlessOvertaken | nanokvm/ssh_client.py:223-237 | a connect installs its client exactly when nothing overtook it, closing the client it replaces |
| SshClient.FailedConnectInstallsNothing | nanokvm/ssh_client.py:203-245 | a connect that does not succeed installs nothing, and its client is closed at once unless the exception is unlisted |
| SshClient.AbandonedIsClosed | nanokvm/ssh_client.py:203-245 | after a cancelled authenticate its client is closed, and closed again when its connect has ended |
| SshClient.DisconnectRetires | nanokvm/ssh_client.py:247-254 | after a disconnect nothing is installed, and the client that was is neither open nor installed in any continuation |
| SshClient.NoCommandWithoutClient | nanokvm/ssh_client.py:247-339 | without a client, and until an authenticate completes, every command fails at once |
| SshClient.CommandUsesInstalled | nanokvm/ssh_client.py:256-339 | a command runs on the client installed when it is called, and fails at once exactly when there is none |
| SshClient.FailedCommandRetires | nanokvm/ssh_client.py:335-339 | a listed failure closes the command's client for good and leaves none installed if it was that one; no other end changes anything |
| SshClient.FailedCommandSparesReplacement | nanokvm/ssh_client.py:335-339 | a command failing on an old client leaves the installed one alone |
| SshClient.NanoKvmSsh.BeginAuthenticate | nanokvm/ssh_client.py:168-174 | a new client and a new generation, nothing else |
| SshClient.NanoKvmSsh.FinishAuthenticate | nanokvm/ssh_client.py:223-237 | installs the client and closes the previous one, or closes the client when superseded |
| SshClient.NanoKvmSsh.Disconnect | nanokvm/ssh_client.py:247-254 | a new generation with no client, the old one closed |
| SshClient.NanoKvmSsh.InvalidateClient | nanokvm/ssh_client.py:335-339 | the failed client is closed, and forgotten only while installed |
| SshClient.RunSchedule | nanokvm/ssh_client.py:168-339 | one client object through any schedule of calls and outcomes is in the specified state |
| ImageUpload.WholeUploadIsExact | nanokvm/components/storage.py:295-345 | a whole upload posts ceil(total/size) chunks, all full but the last, that concatenate to the file |
| ImageUpload.WholeUploadProgress | nanokvm/components/storage.py:342-345 | progress rises strictly and reaches the total with its last report only |
| ImageUpload.WholeUploadIsHonest | nanokvm/components/storage.py:341-345 | every report counts exactly the bytes of the chunks posted before it |
| ImageUpload.CeilingChunks | nanokvm/components/storage.py:296 | the chunk count is the least whose full chunks cover the file |
| ImageUpload.StartedUploadEnds | nanokvm/components/storage.py:346-350 | an upload that sent a chunk finishes the whole file, or its last action is the DELETE exactly when, one turn after the failure, its version check passes and the session is live after it |
| ImageUpload.OverwriteDeletesFirst | nanokvm/components/storage.py:290-350 | a Pro upload that does anything deletes a listed image first; any other DELETE is the cleanup's last action; 0 is reported before the first chunk exactly with a callback |
| ImageUpload.StreamDeletesNothing | nanokvm/components/storage.py:293-380 | a non-Pro upload deletes nothing and posts once, after reporting 0 exactly with a callback |
| ImageUpload.StoppedUploadEnds | nanokvm/components/storage.py:335-350 | when only the POST of one chunk raises, everything up to it was sent; without the DELETE, after a 401 or on an older Pro, that POST is the last action |
| ImageUpload.FailureIsUnique | nanokvm/components/storage.py:346-350 | session and await at which a transfer failed are fixed by the cleanup's awaits |
| ImageUpload.DeleteDueByDevice | nanokvm/components/storage.py:346-350 | with a kept session and a version request that does not raise, the DELETE is due exactly when the device's version is at least 1.1.6 |
| ImageUpload.OldPro | nanokvm/components/storage.py:422 | version 1.1.5 does not meet the requirement and 1.1.6 does |
| ImageUpload.OldProRun | nanokvm/components/storage.py:346-350 | on a Pro of version 1.1.5 a run whose one POST raises, with the session kept, consists of that POST alone |
| ImageRemote.Remote.Cleanup | nanokvm/components/storage.py:346-350 | one turn later the delete is tried: its awaits are the turn, the version request if the version is unknown, and the DELETE if its check passes and the session is live |
| ImageRemote.Remote.DeleteImage | nanokvm/components/storage.py:422-429 | the request goes out exactly when the version check does not raise, passes, and leaves a live session; with nothing else going wrong it succeeds exactly on devices that support it |
| ImageRemote.Remote.AtLeast | nanokvm/components/session.py:633-657 | a known version is compared, an unknown one asked for with a token and supported without one; the answer is cached |
| ImageUpload.StreamedUploadIsExact | nanokvm/components/storage.py:353-380 | a successful streamed upload wrote exactly the file in bounded parts, and reported the total once, after all of it |
| ImageUpload.ReadChunk | nanokvm/components/storage.py:302-315 | short reads are joined until the chunk is full or the file ends; the loop ends |
| ImageUpload.NextChunk | nanokvm/components/storage.py:301-323 | the chunk is the file's next one, and the last is accepted only for a file of the listed size |
| ImageUpload.TransferChunk | nanokvm/components/storage.py:300-345 | a chunk is posted, then reported, in this order, or the round fails where it stopped |
| ImageUpload.TransferChunks | nanokvm/components/storage.py:295-345 | success is a whole upload; any failure leaves the start of one with only full chunks; a lone raising POST is the last action |
| ImageUpload.StreamedMeans | nanokvm/components/storage.py:98-109 | a stream's log at any point wrote exactly the file's first bytes, and its reports rise, tell the truth and stay below the total |
| ImageUpload.HonestStreamMeans | nanokvm/components/storage.py:106-109 | every report of a stream counts exactly the bytes written before it |
| ImageUpload.StreamBody | nanokvm/components/storage.py:93-112 | the file is written in order in bounded parts, reported truthfully and never at the total |
| ImageUpload.UploadImage | nanokvm/components/storage.py:210-380 | errors say what is wrong, and nothing is done or succeeds unless the request is in order, an existing name may be overwritten, and, with a session never lost, the device's version suffices; the log of every run with its cleanup; a DELETE after a failed transfer of a session never lost exactly on devices that support it |
| ImageUpload.Prepare | nanokvm/components/storage.py:290-293 | on a Pro an existing image is deleted before progress 0 is reported, which needs a device of at least 1.1.6; on an older one nothing is done and the version error is raised |
| ImageUpload.CheckVersions | nanokvm/components/storage.py:268-271 | a non-Pro needs 2.3.1, and 2.5.0 for a digest; a Pro is not checked |
| ImageUpload.UploadToPro | nanokvm/components/storage.py:295-351 | a failure after the first POST takes the cleanup's turn, and the DELETE follows exactly when the version check passes and the session is live after it |
| ImageUpload.UploadToNonPro | nanokvm/components/storage.py:353-380 | the total is reported only after the accepted POST |
| Mouse.MaskBits | nanokvm/components/mouse.py:147 | the mask has a bit exactly for each held button, and or-ing adds one |
| Mouse.ReportsReadBack | nanokvm/components/mouse.py:36-59 | position, clamped motion and wheel are read back from the report's bytes, and the mask from its first |
| Mouse.ModeIsRead | nanokvm/components/mouse.py:36-65 | the device reads a button or wheel report as the current position in absolute mode and no motion in relative mode, with mask and clamped wheel |
| Mouse.Clamp | nanokvm/components/mouse.py:24-26 | the nearest value within the bounds |
| Mouse.HeldMeans | nanokvm/components/mouse.py:127-174 | held is: a press was sent in its own session and no release or reset came after it |
| Mouse.DownMeans | nanokvm/components/mouse.py:127-174 | down is: a press was sent, in whatever session, and no release or reset came after it |
| Mouse.UnionUnlessStale | nanokvm/components/mouse.py:145-160 | after any run of calls the mask is the union of the presses sent since the last release or reset, unless the last call to clear was a press sent after a reset it waited through and its button was not pressed again |
| Mouse.RunIsApart | nanokvm/components/mouse.py:92-174 | after any run of calls at most one button is down that the mask lacks, and which one follows from the calls |
| Mouse.MissingMeans | nanokvm/components/mouse.py:145-160 | that button is one whose stale press cleared last and which was not pressed again |
| Mouse.StalePressIsMissing | nanokvm/components/mouse.py:145-160 | a single press that waits through a reset and is sent is down and not in the mask |
| Mouse.Run | nanokvm/components/mouse.py:92-174 | one client object through any run of calls has exactly the held buttons in its mask, and those down exactly when none is missing |
| Mouse.ReportAgrees | nanokvm/components/mouse.py:36-69 | a report's mask is that of its write if and only if no reset lies between building and writing it, or nothing else was held |
| Mouse.MaskInjective | nanokvm/components/mouse.py:147 | two masks are equal exactly when the same buttons are held |
| Mouse.MouseController.MouseDown | nanokvm/components/mouse.py:127-160 | tells the device the buttons held at the call and the new one, at the current position or with no motion; an unsent press is taken back unless the session was reset; mask and presses sent stay together if and only if the press is not stale |
| Mouse.MouseController.MouseUp | nanokvm/components/mouse.py:162-174 | releases every button, sent or not, unless the protocol cannot be detected; the device is told so at the current position or with no motion |
| Mouse.MouseController.MouseMoveAbs | nanokvm/components/mouse.py:92-107 | tells the device the clamped position with the buttons held at the call, and keeps the mask true through resets before and after the write |
| Mouse.MouseController.MouseMoveRel | nanokvm/components/mouse.py:109-125 | tells the device the clamped motion with the buttons held at the call, keeps the position, and keeps the mask true through resets |
| Mouse.MouseController.MouseScroll | nanokvm/components/mouse.py:205-222 | tells the device the clamped wheel in the current mode, at the current position or with no motion, with the buttons held at the call, and keeps the mask true through resets |
| Mouse.MouseController.MouseClick | nanokvm/components/mouse.py:176-203 | moves first if asked; a press that was sent is always followed by a release, which fails to let go only when it cannot detect the protocol; the device is told the position, the press there and the release there, in this order |
| Mouse.MouseController.SendMouseReport | nanokvm/components/mouse.py:67-69 | the report is written behind the byte 2 between the resets before and after the write, which clear the mask, or not written at all |
| Version.ParseFormat | nanokvm/compatibility.py:22-27 | a printed version parses back, with or without `v` and surrounding spaces |
| Version.PaddedMeans | nanokvm/compatibility.py:37-40 | the comparison is decided by the first differing component, missing ones being zero |
| Version.AtLeastTotal | nanokvm/compatibility.py:37-40 | of two component lists one is at least the other |
| Version.AtLeastTransitive | nanokvm/compatibility.py:37-40 | the padded comparison is transitive |
| Version.EqualUpToZeros | nanokvm/compatibility.py:37-40 | two versions are each at least the other exactly when they agree up to trailing zeros |
| Version.BlindToTrailingZeros | nanokvm/compatibility.py:37-39 | trailing zero components on either side change nothing |
| Version.VersionOrder | nanokvm/compatibility.py:30-40 | `_version_at_least` is a total preorder on parseable versions |
| Version.UnknownIsNotTransitive | nanokvm/compatibility.py:34-35 | with an unknown version between them transitivity fails |
| Version.TupleAgreement | nanokvm/components/session.py:543-549 | the unpadded comparison agrees for every version if and only if the minimum does not end in zero or has one component |
| Version.PasswordContractIsAtLeast | nanokvm/components/session.py:543-549 | the password contract's test is exactly `at least 2.5.1` on identified versions |

## Left out

- aiohttp, paramiko, TLS, cookies, JSON decoding and validation: their results are inputs (outcomes, decoded fields, closed flags).
- Password encryption and obfuscation, MD5, base64, logging, the synchronous client and MJPEG decoding: foreign calls or plumbing.
- Endpoint wrappers (system, video, network, users, services, most of HID) and response models: one call each.
- The SSH output parsers, shell commands and watchdog control: text scraping with floats.
- Agreement of kept credentials with the token's user across overlapping reauthenticate and authenticate calls: the code does not promise it.
- Lock fairness: any waiting coroutine may take a free lock, which only adds interleavings.
- Closing a socket opened by `open_ws`, and the WebSocket and WebRTC heartbeat loops: only their start and cancellation matter here.
- SessionState.SessionController.ClearLocalSession: the reset of the mouse fields is modelled in the Mouse module instead.
- A second `send_offer` on one signaling session, and an offer set while events are being iterated.
- Version.ParseFormat: only ASCII digits are digits, and there is no limit on their number.
- SshExecution.CancelClosesPassedChannel: a worker that raises at its second check is covered by EndedChannelIsClosed, since it closes the channel as it ends.
- SshExecution.CommandExecution.AdvanceWorker: an exception after the channel is created and before it is returned is not modelled.
- ImageUpload.UploadImage: the file-name rules and the SHA-256 format test are flags, real timeouts are failures, and a file changed in place without changing its length is not modelled.
- ImageUpload.UploadToPro: whether the device carries out a DELETE that was sent is not modelled.
- ImageRemote.Remote.AtLeast: the device's application version does not change during an upload, and its hardware family is known.
- The exit of a response context after an error: it changes no field, and what follows it waits for the lock anyway.
- Mouse.MouseController.MouseDown: overlapping mouse calls and the JSON mouse format of older firmware are not modelled; detecting the protocol is an await that may raise.
- Mouse.Clamp: coordinates are integers; rounding of float coordinates happens before the model.
