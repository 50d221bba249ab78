# Verified model of the lobby runtime

A lobby of this SFU is a set of goroutines over shared maps: the hub that fans tracks out to the sessions, the
sequencer that admits and removes sessions, the manager that deletes empty lobbies, and the signalling of every
session. This project models that runtime in Dafny together with the two data components it leans on, the track
metadata carried in SDP titles and the in-memory store with expiry, and proves what holds of them over all runs.

`dafny verify dfyconfig.toml` checks everything.

## How it is organised

Two forms sit side by side.

*Classes* follow the source method by method, branch by branch: `Memory`, `TrackInfo`, `InfoRepository`, `Munging`,
`Endpoint`, `Signal`, `Sessions`, `Hub`, `Commands`, `Lobbies`, `LobbyRegistry`. Each method is proved against a
function on values (`Hub.Entered`, `Endpoint.RemovedFrom`, `LobbyRegistry.Dropped`, `Commands.Failed`, ...), and lemmas
about those functions carry the properties. Go's map iteration is a loop that picks any remaining key.

*Step machines* add concurrency: a state, the actions of all goroutines, and a run as any sequence of enabled
actions (`Runs`). They use the same functions as the classes, so a step means what the method does.

| machine | who moves | what is split into steps |
|---|---|---|
| `FanOut`, `FanOutRuns` | hub, creations of egress endpoints, catch-up goroutines | a hub event into one visit per session; snapshot and its application track by track; an endpoint becoming ready, being held by the session, the lock being released |
| `EndpointRuns` | hub and catch-up on one egress endpoint | AddTrack into check, placement and record; RemoveTrack into lookup, deletion of the record and drop of the sender |
| `Lifecycle`, `LifecycleInv`, `LifecycleRuns` | lookups, all sequencers, the manager | `delete` into check, save, remove and stop; the answer and the sequencer's own stop; a session request into check and insertion |
| `SessionRuns` | endpoint creations, data-channel callbacks, the stop | every assignment and wait of a creation; a callback's check and close |
| `SignalRuns` | offers, `setOfferer`, answers | storing the offerer and resetting the counter; comparing an answer's number and applying it |
| `MemoryRuns` | store calls, the clock, the sweep | loading the clock and storing; reading and looking at the clock; load, scan and sweep |

## What the proofs found

Properties that hold unconditionally, or exactly under a condition, are in the table below. These are the places
where the code does less than one would expect, each with a concrete run or input and with the exact condition:

- A session can keep sending a track that has left the hub, with every lock free at every hub step that matters and
  every peer-connection call agreed to (`FanOutRuns.StaleTrackHappens`): exactly when the removal is handed over
  between the snapshot and its application (`FanOutRuns.StaleIffRemovedWhilePending`). With refusals the exact
  difference is `FanOutRuns.DifferenceIff`.
- A track added between the snapshot and the moment `CreateEgressEndpoint` releases the session lock never reaches
  the session, whatever happens later (`FanOutRuns.MissedTrackHappens`): the endpoint is ready, the catch-up has
  started, but the hub finds the lock taken.
- Hub and catch-up on one endpoint can leave a record without a sender (`EndpointRuns.StrayRecordHappens`). Records and
  senders stay in step exactly when no call places a track that is being sent by now, no removal deletes a record
  whose addition has still to store it, and no drop is refused (`EndpointRuns.TidyIffNoClash`).
- A lobby whose delete request is refused is stopped by its sequencer all the same and stays registered for good, so
  its id is served by a stopped lobby from then on (`LifecycleRuns.StoppedButRegisteredIff`,
  `LifecycleRuns.StoppedStaysStopped`). The comment at internal/lobby/lobby.go:97-98 expects the lobby to have been
  cleaned up at that point.
- An offer that overtakes `setOfferer` lets a stale answer be applied (`SignalRuns.StaleAnswerApplied`); renegotiation
  waits for the initialisation to complete, which happens before the session calls `setOfferer`.
- A creation that passed its checks can still assign an endpoint after the session is done; `SessionRuns.FrozenIff`
  says exactly which states allow it, `SessionRuns.CreatedAfterDoneHappens` is such a run.
- A removal that the receiver dispatches before its addition leaves the track in the hub for good, and the hub counts
  one track less than it holds from then on (`Conservation.RemovalBeforeAddition`).
- A record text with a space does not survive a title (`TitleCodec.RoundTripIffClean`), and a 32-bit expiry that wraps
  is wrong unless it wraps to exactly zero (`MemoryRuns.ExpiryIsRightIff`).
- A failed save in `delete` has already lowered the flag of the entity in memory (`LobbyRegistry.LobbyRepository.Delete`);
  the row and the registry still agree.

## Assumptions

- Fresh UUIDs are fresh: session ids, track ids and record ids are never used twice where the code draws new ones.
- In the fan-out machine a track id is added at most once and removed at most once, in either order and by the same
  source session; sessions join and leave between hub events, because the iteration holds the repository lock.
- A lobby's row exists, so the lobby's id is the registry key, and no row is marked running at the start. The store
  library returns an empty record for a missing row; that path is not modelled.
- An endpoint is used by the hub, which makes one call after the other, and by its one catch-up goroutine.
- After a lobby is stopped its sequencer takes the context branch only: every sender selects on the same context, so
  neither side of an unbuffered channel is ever parked again.
- A hub event that finds the session's lock taken skips it (`TryRLock`). After a session is stopped, Go's select may
  report its endpoint complete or not; the model allows both.
- Dispatch timeouts of hub events are events that never happen; a timed-out snapshot request is a step of its own.
- The live-stream sender the hub feeds is given at construction; the lobby passes none.
- A peer connection may refuse any call and may place a track on any idle sender or a new one; its answers are inputs,
  and results that need it to agree say so. The data channels of one peer connection are handed over one at a time where
  that is stated as a hypothesis.
- Database calls succeed or fail as a parameter says; a failed save leaves the row as it was.

## Model

| member | source | states |
|---|---|---|
| FanOut.StepKeepsInv | internal/lobby/sessions/hub.go:167-235 | every step of hub, creation or catch-up, refused calls included, keeps the agreement between hub map, egress, pending snapshot and undelivered events |
| FanOutRuns.NoEcho | internal/lobby/sessions/hub.go:277-281 | in every interleaving, neither the egress nor the pending snapshot of a session names a track whose source is that session |
| FanOutRuns.NothingForgotten | internal/rtp/establish_endpoint.go:96-113 | after its snapshot, every hub track of another session is sent, pending, still to be delivered, was skipped because of the lock, or was refused by the peer connection |
| FanOutRuns.CatchUpExact | internal/rtp/establish_endpoint.go:96-113 | between two hub events, egress plus pending is exactly the others' hub tracks less the skipped and refused additions plus the stale tracks not refused, with no hypothesis on locks or refusals |
| FanOutRuns.CompleteIffNothingLost | internal/rtp/endpoint.go:165-213 | catch-up is complete if and only if no addition of a track still in the hub skipped the session or was refused |
| FanOutRuns.UndisturbedIsComplete | internal/lobby/sessions/hub.go:178-190 | with the lock free at every event that meets the session after its snapshot or while it sends anything, every hub track of the others is in egress or pending, its event is still on the way, or a step of the run refused it |
| FanOutRuns.HistoryIff | internal/lobby/sessions/hub.go:207-219 | a session is marked with a track if and only if a step of the run skipped its addition, refused it, removed it while pending, skipped its removal, or refused its removal |
| FanOutRuns.SkippedOnlyByLock | internal/lobby/sessions/session.go:395-405 | once it has its snapshot or sends anything, only a taken lock or a stopped session lets an event skip a session |
| FanOutRuns.UndisturbedSkipsNothing | internal/lobby/sessions/session.go:395-405 | with the lock free at every event that meets the session after its snapshot or while it sends anything, no addition after the snapshot and no removal of a held track is skipped, events during the construction of the endpoint allowed |
| FanOutRuns.DifferenceIff | internal/rtp/establish_endpoint.go:102-109 | with the lock free at every event that meets the session after its snapshot or while it sends anything, and nothing pending, the others' hub tracks not sent are exactly those refused, and the tracks sent beyond them exactly those removed while pending or whose removal was refused, and not refused themselves |
| FanOutRuns.StaleIffRemovedWhilePending | internal/rtp/establish_endpoint.go:102-109 | with such free locks, every call agreed to and nothing pending, egress contains the others' hub tracks, a surplus track is exactly one removed between snapshot and application, and without such a removal the two are equal |
| FanOutRuns.StaleTrackHappens | internal/rtp/establish_endpoint.go:90-95 | the race named in the source occurs: a run with free locks at every event that matters and every call agreed to ends with a sent track the hub does not have |
| FanOutRuns.LostForGood | internal/rtp/establish_endpoint.go:96-113 | a track that skipped a session after its snapshot, or was refused, is not sent in any state of any continuation |
| FanOutRuns.MissedTrackHappens | internal/lobby/sessions/session.go:163-207 | a run with every call agreed to after which a hub track, added after the snapshot while the creation held the lock, is not sent in any continuation |
| Hub.Hub.OnAddTrack | internal/lobby/sessions/hub.go:167-191 | the track enters the hub's table, metrics on or off; every ready, unlocked, running session other than the source whose peer connection agrees sends it afterwards and, if it did not before, holds its record with its metadata; sessions that are not ready and the source keep senders and records, in any map order |
| Hub.Hub.OnRemoveTrack | internal/lobby/sessions/hub.go:193-220 | the track leaves the hub's table, metrics on or off; in every ready, unlocked, running session other than the source a track that was sent loses its record and, if the peer connection agrees, its sender; sessions that are not ready and the source keep senders and records, in any map order |
| Hub.Hub.FanOut | internal/lobby/sessions/hub.go:178-190 | the iteration over the repository reaches every session once; given the answer of each peer connection, senders and records afterwards are determined for those that hear the event and unchanged for all others |
| Hub.Hub.Visit | internal/lobby/sessions/hub.go:207-219 | one session hears an event only if unlocked and complete, and always then unless stopped; no other session changes |
| Hub.FollowedIsHeard | internal/lobby/sessions/hub.go:186-189 | a session that hears an event sends its track, or no longer does, exactly if its peer connection agrees and the track is not its own; it never sends a track twice |
| Hub.Hub.Deliver | internal/lobby/sessions/hub.go:186-189 | senders and records follow the event and the given answer unless the track is the session's own, then neither changes |
| Hub.Hub.Enter | internal/lobby/sessions/hub.go:170-177 | the track map, the sender of main tracks and the hub counter after an addition, metrics on or off |
| Hub.Hub.Withdraw | internal/lobby/sessions/hub.go:196-205 | the track map, the sender of main tracks and the hub counter after a removal, metrics on or off |
| Hub.Hub.IncreaseNodeGraphStats | internal/lobby/sessions/hub.go:251-260 | the session's node counts one more track, created at zero if absent |
| Hub.Hub.DecreaseNodeGraphStats | internal/lobby/sessions/hub.go:262-273 | the session's node counts one less and disappears at zero, an unknown one is ignored |
| Hub.Hub.OnGetTrackList | internal/lobby/sessions/hub.go:222-235 | the list holds every hub track and holds it once, in any order |
| Hub.Hub.GetTrackList | internal/lobby/sessions/hub.go:120-165 | a session's snapshot holds exactly the hub's own entries of the other sessions, record and all, each once |
| Hub.CatchUp | internal/rtp/establish_endpoint.go:102-109 | given the answers of the peer connection, exactly the placed tracks join those sent, all of them without a refusal; a placed track not sent before has its record with its own metadata, and records of other ids stay |
| Conservation.EnteredIsExactIff | internal/lobby/sessions/hub.go:170-177 | adding a track keeps every counter exact if and only if its id is new |
| Conservation.WithdrawnIsExactIff | internal/lobby/sessions/hub.go:196-205 | removing a track keeps every counter exact if and only if the hub holds it with the event's session and purpose |
| Conservation.CountersAreConserved | internal/lobby/sessions/hub.go:251-273 | the counts of all ingress nodes add up to the hub node's count and to the size of the track map; none is negative and no node is empty |
| Conservation.CountersStayExactIff | internal/metric/node_graph.go:62-88 | over every run each session's pair of counts equals its live guest and main tracks, and its node exists exactly when they are not both zero, at every point if and only if each event adds a new track or removes a held one with its session and purpose |
| Conservation.RemovalBeforeAddition | internal/lobby/sessions/hub.go:193-205 | a removal dispatched before its addition leaves the track in the hub over every run that adds and removes other tracks, and the hub counts one track less than it holds throughout |
| LifecycleInv.StepKeepsInv | internal/lobby/lobby.go:76-114 | every step of a lookup, a sequencer or the manager keeps the lifecycle invariant |
| LifecycleRuns.AtMostOneRunning | internal/lobby/lobby_repository.go:41-62 | at any time at most one lobby object per id is running |
| LifecycleRuns.RequestMeetsItsLobby | internal/lobby/lobby_repository.go:82-103 | a delete request only meets the lobby object that sent it, registered and running, and past the check it is empty |
| LifecycleRuns.WaitingIsServed | internal/lobby/lobby_manager.go:26-35 | while a sequencer waits for the manager, the manager has a step to take: no deadlock |
| LifecycleRuns.AnsweredInTime | internal/lobby/lobby_manager.go:26-35 | every request is answered: once the manager has made the steps it needs for the requests at hand and those sent since, at most six each, no sequencer waits |
| LifecycleRuns.UnregisteredStaysDead | internal/lobby/lobby_repository.go:96-97 | a lobby out of the registry holds no session and never returns, and is stopped for good once the registry lock is free |
| LifecycleRuns.StoppedStaysStopped | internal/lobby/lobby.go:91-99 | a stopped lobby never holds a user session again; one that is also registered stays both for ever |
| LifecycleRuns.ToldNoIff | internal/lobby/lobby_repository.go:88-95 | a lobby is refused if and only if its check found a session or its save failed |
| LifecycleRuns.StoppedButRegisteredIff | internal/lobby/lobby.go:91-99 | a stopped lobby is still registered if and only if its own delete request was refused |
| LifecycleRuns.RefusedForOthersSake | internal/lobby/lobby_repository.go:86-90 | a check that refuses found only sessions that are not a user's |
| LifecycleRuns.RegisteredIsRunning | internal/lobby/lobby_repository.go:85-100 | with user sessions only and successful saves, every registered lobby is running |
| LifecycleRuns.RowsAgreeWhenUnlocked | internal/lobby/lobby_repository.go:41-62 | with the registry lock free, a row is marked running exactly when its lobby is registered, failed saves included |
| LifecycleRuns.DeleteStepsCompose | internal/lobby/lobby_repository.go:82-103 | the manager's steps, left alone, amount to one delete that takes effect exactly when the lobby is empty and the save succeeds |
| LifecycleRuns.StoppedButRegisteredHappens | internal/lobby/lobby.go:91-99 | a lobby with an instance session ends stopped, registered and marked running when its last user leaves |
| LobbyRegistry.LobbyRepository.GetOrCreateLobby | internal/lobby/lobby_repository.go:41-62 | a registered lobby is returned unchanged; otherwise a fresh running one is registered and its row marked, or nothing changes and the error says which database call failed |
| LobbyRegistry.LobbyRepository.Delete | internal/lobby/lobby_repository.go:82-103 | succeeds exactly on a registered, empty lobby whose save succeeds, and then unregisters, unmarks and stops that lobby and no other; otherwise registry and rows stay as they are |
| Lobbies.Lobby.OnCreate | internal/lobby/lobby.go:78-87 | a session is admitted exactly when the lobby runs and its user has none |
| Lobbies.Lobby.OnGarbage | internal/lobby/lobby.go:88-100 | the user's session is removed and deletion is asked for exactly when no user session is left |
| Lobbies.Lobby.OnCommand | internal/lobby/lobby.go:101-108 | a new command ends done with the lobby-closed error in a stopped lobby, the no-session error for a user without a session, and otherwise with the response or the error of the one session of its user, never both |
| Lobbies.Lobby.RunCommand | internal/lobby/lobby.go:155-161 | submitted to the sequencer or refused by a stopped lobby, a new command ends complete either way |
| Lobbies.Lobby.Handle | internal/lobby/lobby.go:164-169 | a command ends with what the one session of its user answers in its present state, a response naming that session and its description and leaving it the endpoint, or without a session if there is none; the no-session error follows unconditionally |
| Commands.CompletesOnce | internal/lobby/commands/command.go:30-48 | submitted once, a command closes done once, holds exactly one of response and error, and no later error or completion changes it; the trailing no-session error has no effect |
| Commands.ResubmittedIff | internal/lobby/commands/create_ingress.go:33-45 | a command object submitted twice keeps its one-of-two shape if and only if the first run succeeded or the second does not |
| Commands.DoneIsFinal | internal/lobby/commands/command.go:30-48 | a done command is changed by nothing but a successful execution |
| Commands.CreateCommand.SetError | internal/lobby/commands/command.go:30-40 | the first error is kept and closes done, later ones are dropped |
| Commands.CreateCommand.SetDone | internal/lobby/commands/command.go:42-48 | done is closed if it was open, and only then |
| Commands.CreateCommand.ExecuteOn | internal/lobby/commands/create_egress.go:28-40 | a success becomes the response, with the session's id and the local description; a failure becomes the error the session gave; only the endpoint asked for is touched |
| SessionRuns.StepKeepsInv | internal/lobby/sessions/session.go:86-207 | every step of a creation, a callback or the stop keeps the wiring invariant |
| SessionRuns.WriteOnce | internal/lobby/sessions/session.go:86-207 | ingress, egress and offerer never change once set |
| SessionRuns.EgressIsWired | internal/lobby/sessions/session.go:163-207 | whenever the lock is free, egress implies ingress, messenger, closed ready channel and offerer equal to egress, after failed description waits too |
| SessionRuns.EgressNeedsLoudIngress | internal/lobby/sessions/signal_builder.go:68-73 | an egress endpoint exists only if an ingress creation asked for a channel that is not silent, so none is reachable through the manager, which asks for the silent kind |
| SessionRuns.EgressStepsCompose | internal/lobby/sessions/session.go:163-207 | the steps of an egress creation, left alone, amount to one assignment of egress and offerer, or to none when the checks refuse |
| SessionRuns.FrozenIff | internal/lobby/sessions/session.go:91-97 | after the session is done no continuation assigns an endpoint if and only if no creation is in flight |
| SessionRuns.CreatedAfterDoneHappens | internal/lobby/sessions/session.go:91-108 | a run in which an ingress endpoint is assigned after the session is done |
| SessionRuns.ClosedOnceIff | internal/lobby/sessions/signal.go:44-63 | the messenger-ready channel is closed at most once, closes still to come included, if and only if at no time two callbacks are past their check, whatever the channel kinds |
| SessionRuns.ClosedAtMostOnce | internal/lobby/sessions/signal.go:44-63 | one ingress callback at a time is enough for that, however many egress callbacks overlap |
| SessionRuns.DoubleCloseHappens | internal/lobby/sessions/signal.go:56-63 | two overlapping ingress callbacks can close it twice |
| Sessions.Session.CreateIngressEndpoint | internal/lobby/sessions/session.go:86-120 | stopped, an ingress present, no endpoint and no description each give their own error; otherwise the local description is returned; the ingress is assigned exactly when the checks pass and the engine delivers, description or not |
| Sessions.Session.CreateEgressEndpoint | internal/lobby/sessions/session.go:163-207 | every failing check, wait, establishment or description gives its own error; otherwise the local description is returned; the endpoint the engine delivers after a wait that succeeded becomes egress and offerer with the counter at zero, and nothing changes before that |
| Sessions.Session.WaitForSignalChannel | internal/lobby/sessions/session.go:262-279 | the wait succeeds only with an ingress and a closed ready channel; every other end has its own error |
| Sessions.Session.AddTrack | internal/lobby/sessions/session.go:301-313 | with an egress endpoint the track is handed to it: senders and records are those of the given answer, and without a refusal the track is sent |
| Sessions.Session.RemoveTrack | internal/lobby/sessions/session.go:315-328 | with an egress endpoint the track is taken from it: senders and records are those of the given answer, and if the peer connection agrees the track is no longer sent |
| Sessions.Session.InitComplete | internal/lobby/sessions/session.go:395-405 | true only with a free lock and a complete egress endpoint, and exactly then while the session runs |
| Sessions.SessionRepository.New | internal/lobby/sessions/session_repository.go:22-32 | inserts under the session's own id exactly when no session of that user exists; at most one session per user is kept |
| Sessions.SessionRepository.FindByUserId | internal/lobby/sessions/session_repository.go:53-63 | equals lookup in the map from users to sessions, independent of map order |
| Sessions.SessionRepository.DeleteByUser | internal/lobby/sessions/session_repository.go:121-132 | removes exactly the user's session and says whether there was one |
| Sessions.SessionRepository.Len | internal/lobby/sessions/session_repository.go:94-98 | the number of members |
| Sessions.SessionRepository.LenUserSession | internal/lobby/sessions/session_repository.go:100-110 | the cardinality of the user-type subset |
| SessionMembers.AdmitRefinesInsertIff | internal/lobby/sessions/session_repository.go:22-32 | admission keeps users unique and is insertion into the user map if and only if the session id is fresh |
| SessionMembers.RemovalTakesOne | internal/lobby/sessions/session_repository.go:121-132 | removal keeps users unique and takes exactly one session if the user has one, none otherwise |
| SessionMembers.RemovalRefinesDelete | internal/lobby/sessions/session_repository.go:121-132 | removal is deletion from the user map |
| SignalRuns.StepKeepsInv | internal/lobby/sessions/signal.go:69-98 | every step keeps the numbering of offers and the order of applied answers |
| SignalRuns.AcceptedIff | internal/lobby/sessions/signal.go:85-91 | an answer passes if and only if its offer's number and the newest one agree modulo 2^32 |
| SignalRuns.OnlyNewestIff | internal/lobby/sessions/signal.go:85-91 | only the newest offer's answer passes if and only if at most 2^32 offers follow setOfferer and fewer came before it than after it |
| SignalRuns.NewestPasses | internal/lobby/sessions/signal.go:85-97 | the answer to the newest offer always passes |
| SignalRuns.AppliedAnswersNewest | internal/lobby/sessions/signal.go:80-98 | with no offer before setOfferer, applied answers belong to offers congruent to the newest one, and up to 2^32 offers to the newest itself, in an order that never goes back |
| SignalRuns.StaleAnswerApplied | internal/lobby/sessions/signal.go:69-72 | one offer before setOfferer lets the answer to it be applied in place of the newer offer's |
| SignalRuns.WrapAroundHappens | internal/lobby/sessions/signal.go:123-125 | with one offer more than 2^32 the answer to the first is applied for the newest |
| Signal.Signal.OnSenderChannel | internal/lobby/sessions/signal.go:44-50 | makes the messenger and ends with the ready channel closed |
| Signal.Signal.StopWaitingForMessenger | internal/lobby/sessions/signal.go:56-63 | ends with the ready channel closed, whether or not it was |
| Signal.Signal.SetOfferer | internal/lobby/sessions/signal.go:69-72 | stores the endpoint and starts counting at zero |
| Signal.Signal.OnNegotiationNeeded | internal/lobby/sessions/signal.go:74-78 | sends the next number and makes it the current one, wrapping at 2^32 |
| Signal.Signal.OnAnswer | internal/lobby/sessions/signal.go:80-98 | applies an answer exactly when an offerer exists and the number is the current one, and only then completes the offerer's initialisation |
| Endpoint.Endpoint.HasTrack | internal/rtp/endpoint.go:139-150 | true exactly when some sender carries the track |
| Endpoint.Endpoint.GetSender | internal/rtp/endpoint.go:152-163 | the first sender of the track, if any |
| Endpoint.Endpoint.AddTrack | internal/rtp/endpoint.go:165-213 | a track already sent or refused changes nothing; otherwise it is placed and its record stored under its info id with egress track id and mid |
| Endpoint.Endpoint.RemoveTrack | internal/rtp/endpoint.go:215-239 | a track not sent changes nothing; otherwise its record goes and, if the peer connection agrees, its sender is idle |
| Endpoint.Endpoint.SetInitComplete | internal/rtp/endpoint.go:118-126 | the channel stays closed once closed, and is closed unless the session is done |
| Endpoint.Endpoint.IsInitComplete | internal/rtp/endpoint.go:128-137 | never true before completion, and true after it while the session runs |
| Endpoint.AdditionSays | internal/rtp/endpoint.go:165-213 | a track sent already or refused changes nothing; else it takes the idle sender given or a new last one, and its record is the given one but for egress track id and mid |
| Endpoint.RemovalSays | internal/rtp/endpoint.go:215-239 | a track not sent changes nothing; else its record goes, and its first sender alone idles if the peer connection agrees |
| Endpoint.ActiveAfter | internal/rtp/endpoint.go:165-213 | an addition adds exactly its track to those sent unless it is refused, and none is ever sent twice |
| Endpoint.ActiveAfterRemoval | internal/rtp/endpoint.go:215-239 | a removal takes exactly its track away unless it is refused |
| Endpoint.AddKeepsBooksIff | internal/rtp/endpoint.go:165-213 | an addition keeps records and active senders in step if and only if the track is sent already, refused, or its record id is unused |
| Endpoint.RemoveKeepsBooksIff | internal/rtp/endpoint.go:215-239 | a removal keeps them in step if and only if the track is not sent, or the removed record is its own and the call succeeds, or neither happens |
| Endpoint.BooksKeptOverRuns | internal/rtp/endpoint.go:165-239 | with ids one-to-one and successful removals, after any run of whole calls the records name exactly the tracks of active senders, once each |
| EndpointRuns.StepKeepsTidyIff | internal/rtp/endpoint.go:165-239 | with two goroutines inside calls, a step keeps records and senders in step if and only if it neither places a track sent by now, nor deletes a record still to be stored, nor is a refused drop |
| EndpointRuns.TidyIffNoClash | internal/rtp/endpoint.go:165-239 | over every interleaving of hub and catch-up, records and senders are in step at every point if and only if no such step occurs |
| EndpointRuns.TidyIsKept | internal/rtp/endpoint.go:165-239 | between calls, in step means that the records name exactly the tracks of active senders, once each |
| EndpointRuns.StrayRecordHappens | internal/rtp/establish_endpoint.go:96-113 | a run in which every call succeeds and the catch-up stores a record after the hub has removed its track |
| EndpointRuns.AddStepsCompose | internal/rtp/endpoint.go:165-213 | the steps of AddTrack, left alone, amount to the one call |
| EndpointRuns.RemoveStepsCompose | internal/rtp/endpoint.go:215-239 | the steps of RemoveTrack, left alone, amount to the one call |
| InfoRepository.LookupIsFunctionIff | internal/rtp/track_sdp_info_repository.go:72-81 | lookup by egress track id has one result whatever the map order if and only if no two records share an id |
| InfoRepository.TrackSdpInfoRepository.GetSdpInfoByEgressTrackId | internal/rtp/track_sdp_info_repository.go:72-81 | returns some record with that id, and none only if there is none |
| InfoRepository.TrackSdpInfoRepository.GetSdpInfoByIngressTrackId | internal/rtp/track_sdp_info_repository.go:94-103 | returns some record with that id, and none only if there is none |
| InfoRepository.TrackSdpInfoRepository.Set | internal/rtp/track_sdp_info_repository.go:24-28 | stores the record itself under the id and leaves the rest |
| InfoRepository.TrackSdpInfoRepository.Get | internal/rtp/track_sdp_info_repository.go:30-35 | the shared record under the id, if any |
| InfoRepository.TrackSdpInfoRepository.Delete | internal/rtp/track_sdp_info_repository.go:37-46 | removes exactly the id and says whether it was there |
| TitleCodec.ParseSdpInformation | internal/rtp/sdp.go:103-124 | a title of three fields, separated by its only two spaces, sets main exactly for a trimmed first field "2", muted exactly for a trimmed second field "1", and the text to the third; any other title changes nothing, and no title changes another field |
| TitleCodec.ThreePiecesIff | internal/rtp/sdp.go:104-104 | a title has three pieces if and only if it has two spaces, and the pieces are its fields |
| TitleCodec.TrimSpaceTrims | internal/rtp/sdp.go:105-114 | trimming takes the blanks around a field and nothing else |
| TitleCodec.TitleOnTheWire | internal/rtp/sdp.go:126-132 | the title of every record: the purpose in decimal, 1 for muted or 2, and the text |
| TitleCodec.ParseOfBuild | internal/rtp/sdp.go:103-132 | parsing a built title, for every record and target: a text with a space leaves the target unchanged, otherwise purpose, mute and text are those of the sender, any other purpose becoming guest |
| TitleCodec.RoundTripIffClean | internal/rtp/sdp.go:103-132 | parse after build is the identity on purpose, mute and text if and only if the purpose is guest or main and the text has no space |
| TitleCodec.ParserClosure | internal/rtp/track_sdp_info.go:41-44 | every record the constructor or the parser makes, from any title, round-trips |
| TitleCodec.SplitJoins | internal/rtp/sdp.go:104-104 | the pieces of a title put together are the title |
| TitleCodec.SplitCutsAtSpaces | internal/rtp/sdp.go:104-104 | every piece but the last ends at its only space |
| TitleCodec.PiecesOfBuild | internal/rtp/sdp.go:126-132 | a built title splits into the two number fields and the pieces of the text |
| Munging.SetEgressTrackInfo | internal/rtp/sdp.go:68-101 | some choice of lookup results explains every rewritten title and every recorded mid |
| Munging.MungeSection | internal/rtp/sdp.go:74-91 | a section whose track no record names is left alone; otherwise its title becomes that of such a record and its mid, if any, is stored there, and nothing else changes |
| Munging.GetIngressTrackSdpInfo | internal/rtp/sdp.go:12-39 | with fresh ids, one new record per audio or video section that names a track, stored under its own id, with the given session and what its title says or the defaults of a guest; no other record is added or changed |
| Munging.OfferIsRead | internal/rtp/sdp.go:12-39 | the same of the value computed for an offer |
| TrackInfo.TrackSdpInfo.constructor | internal/rtp/track_sdp_info.go:41-44 | every field of a fresh record: the given id and session, guest, not muted, "Guest", nothing else |
| Munging.ParseSection | internal/rtp/sdp.go:17-36 | kept exactly for audio and video sections whose msid has two parts; the record has the given id and session, the track id, and purpose, mute and text of a three-field title, else guest, not muted and "Guest" |
| Munging.TrackIdIff | internal/rtp/sdp.go:17-32 | exactly the audio and video sections whose msid has a single space name a track, by what follows that space |
| Munging.MungingChangesOnlyMatchedTitles | internal/rtp/sdp.go:74-91 | nothing but titles changes, and only where the repository knows the track |
| Munging.MidIsRecorded | internal/rtp/sdp.go:85-87 | each matched section's mid is recorded, unless a later section with a mid names the same track |
| Munging.MungingIsIdempotent | internal/rtp/sdp.go:68-101 | munging a munged offer again changes neither the offer nor the records |
| Munging.IngressShape | internal/rtp/sdp.go:17-37 | reading an offer adds exactly one record per named section and leaves the old ones alone |
| Munging.MetadataSurvives | internal/rtp/sdp.go:12-132 | parsing the munged offer gives each known track the sender's purpose, mute and text if and only if the sender's record is clean |
| Munging.LookupCarriesMetadataIff | internal/rtp/track_sdp_info_repository.go:94-103 | for distinct track ids, every possible lookup of the track carries the sender's metadata if and only if no older record for it disagrees |
| Memory.Store.Get | internal/storage/memory.go:38-46 | answers the stored value exactly while it is not expired |
| Memory.Store.Set | internal/storage/memory.go:49-58 | stores the value with expiry zero for a ttl that is not positive, else with clock plus whole seconds modulo 2^32 |
| Memory.Store.Delete | internal/storage/memory.go:61-65 | removes exactly the key |
| Memory.Store.Reset | internal/storage/memory.go:68-73 | removes every key |
| Memory.Clock.Tick | internal/storage/memory.go:105-119 | the timestamp is the Unix time modulo 2^32 |
| Memory.Store.GcScan | internal/storage/memory.go:81-89 | collects exactly the keys expired at its timestamp, once each, in any order |
| Memory.Store.GcSweep | internal/storage/memory.go:90-99 | deletes exactly the collected keys that are expired now as well |
| MemoryRuns.SweepIsInvisible | internal/storage/memory.go:75-101 | with a clock that does not go back, every Get of every interleaving answers as if there were no sweep |
| MemoryRuns.LastTouchDecides | internal/storage/memory.go:49-73 | a completed set stores its value and expiry under its key alone, a delete removes its key alone, a reset all keys |
| MemoryRuns.ClockStepBackExposesSweep | internal/storage/memory.go:105-119 | a clock that steps back over an expiry makes the sweep visible |
| MemoryRuns.AnswersUntilExpiry | internal/storage/memory.go:38-46 | over any run that leaves its key alone, an item answers exactly until its expiry second, for ever at expiry zero |
| MemoryRuns.ExpiryIsRightIff | internal/storage/memory.go:49-54 | the computed expiry means what the caller asked for if and only if the ttl is not positive, the sum stays positive within 32 bits, or it wraps to exactly zero |
| MemoryRuns.ExactLifetime | internal/storage/memory.go:38-58 | with the sum within 32 bits, Get returns the value exactly while the clock is below set time plus whole seconds of ttl, and for ever for a ttl that is not positive |

## Left out

- Egress counts of the metric graph and the gauges themselves: egress counts go up on snapshots only and down on every removal, so nothing is conserved.
- Mute propagation: events pass through fresh goroutines twice and no order is promised.
- OfferIngress, OfferEgress and MarkStreamAsMain: the first two wait on channels nobody closes, the last writes a title the parser ignores.
- setLobbyLive, LeaveLobby, the live-stream commands and the deprecated endpoint calls: unused or stubs.
- The composite calls NewIngressResource and NewEgressResource: each lookup, admission and command they string together is modelled on its own.
- SDP text: an offer is a list of media sections; the error paths of reading and writing the text are not modelled.
- Answers that carry a number no offer had, and offers made by the other side.
- FanOut.StepKeepsInv: a visit and an application are one step each there; EndpointRuns splits them, for one endpoint.
- Endpoint.Endpoint.AddTrack: mid and statistics are read right after the placement; the mid is arbitrary and the statistics workers are not modelled.
- Memory.Store.Set: whole seconds of the ttl are exact here and taken modulo 2^32; `Seconds()` is a float, which for a ttl above 2^24 seconds may round a remainder just below a second up.
- TitleCodec.ParseSdpInformation: characters are Unicode scalars; titles that are not valid UTF-8 are not modelled.
- Data races on the metric table between the hub and callers of the track list.
- Session ids, users and lobbies are numbers; UUID text, HTTP, authentication, federation, storage libraries, tracing and the media engine are foreign or plumbing.
