# yt-seminar session core in Dafny

This project models the live-seminar backend and the pure parts of its web client.

The centre is the per-room session coordinator of `backend/src/sockets/meetingSocket.ts`. It is the in-memory `activeMeetings` table. Each room holds:
- a participant roster with roles, raised hands and the audio capability;
- at most one active poll with its one-second countdown;
- the broadcast log;
- the id-keyed registries of media transports, producers and consumers.

Each socket handler is one method of the class `Session.Coordinator`. Its `ensures` gives the new room table, the events it sends (as a list of `Emit` values) and the acknowledgement it returns (a `Result`). The roster transitions are functions in module `Roster`, and the poll countdown is a function in module `Polls`. Properties such as "toggle-hand flips only the sender", "kick removes exactly the target" and "poll-end fires on the tick after `timeLeft` reaches 0" are lemmas about these functions.

Poll objects are instances of the class `Polls.Poll`. The room refers to one through `activePoll`, so a poll replaced by `create-poll` still exists, and its interval (`Coordinator.PollInterval`) keeps ticking on it and emitting to the room.

The other parts are:
- **Router cache** (`backend/src/services/mediasoupService.ts`): the class `Media.MediaService`, with a get-or-create `GetRouter`, the codec list and the transport parameters.
- **Meeting REST controller** (`backend/src/controllers/meeting.ts`): module `Meetings`, over the class `MeetingDb`, a map from document id to document.
- **YouTube-id extraction**, shared by the admin dashboard and the video player: module `YoutubeUrl`. It models the regular expression `/^.*(youtu.be\/|v\/|u\/\w+\/|embed\/|watch\?v=|&v=)([^#&?]*).*/` exactly, including the rules below.
  - The greedy `.*` picks the right-most marker it can reach.
  - `.` does not cross a line terminator.
  - The lazy `src=["'](.*?)["']` iframe step is part of the model.
- **Client logic:**
  - `MeetingRoom`: participant groups, socket-event updaters, the poll-creation request and the moderation and microphone guards.
  - `AdminDashboard`: search filter and list updates.
  - `VideoPlayer`: error state.
  - `PollModal`: vote total and the one-vote guard.

Events (`Events.Payload`) are the socket.io messages; `Emit.to` says whether a message goes to a room, to one socket, or to a room except its sender.

## Model

| member | source | states |
|---|---|---|
| Session.FromStored | backend/src/sockets/meetingSocket.ts:59 | a stored broadcast becomes a live one with `senderName` as `name`, message and timestamp kept |
| Session.ToStored | backend/src/sockets/meetingSocket.ts:391-393 | the persisted entry maps back to exactly the live broadcast |
| Session.History | backend/src/sockets/meetingSocket.ts:59 | a new room's history is the stored broadcasts, element for element and in order, or empty without a stored meeting |
| Session.PersistedBroadcastReturns | backend/src/sockets/meetingSocket.ts:386-393 | a broadcast whose write succeeded comes back last, unchanged, in the history of a room created later |
| Session.CoHostsOf | backend/src/sockets/meetingSocket.ts:78 | the stored co-host list join consults, absent without a stored meeting |
| Session.NewRoom | backend/src/sockets/meetingSocket.ts:55-70 | a created room has an empty roster, no poll, empty registries, the stored history and the router id only when the router was obtained |
| Session.SenderRole | backend/src/sockets/meetingSocket.ts:333-334 | the sender's role is present exactly when the sender is in the roster, and is the role of its first entry |
| Session.CoHostUpdate | backend/src/sockets/meetingSocket.ts:276-305 | only promote and demote of a target with a truthy account id persist anything: `$addToSet` for promote, `$pull` for demote |
| Session.HostActionEmits | backend/src/sockets/meetingSocket.ts:267-326 | mute sends only `muted-by-host` to the target; lower-hand only the new roster; every other action the new roster to the room and then its one target event (`kicked`, the new role, or the audio permission) |
| Session.LeaveAll | backend/src/sockets/meetingSocket.ts:421-434 | disconnect visits every room and creates or deletes none |
| Session.LeaveAllValid | backend/src/sockets/meetingSocket.ts:429-432 | after a disconnect every room is still valid and holds no entry for the socket |
| Session.ConsumersLeft | backend/src/sockets/meetingSocket.ts:216-217 | part-way through the `producerclose` listeners the room's consumers are a sub-map of the original: entries are only dropped, never changed or added |
| Session.Coordinator.constructor | backend/src/sockets/meetingSocket.ts:37 | the room table starts empty |
| Session.Coordinator.Join | backend/src/sockets/meetingSocket.ts:43-111 | only `roomId` changes and rooms are never removed; the room is the live one, or a new one with the stored history; the socket joins with the effective role; a new room's router is added to the router cache by `RoutersAfter`; `update-users` and `chat-history` go to the room and, with an active poll, `poll-update` to the joiner |
| Session.Coordinator.RoomToJoin | backend/src/sockets/meetingSocket.ts:55-73 | an existing room is reused and the router cache is untouched; an absent one is built from the stored meeting and the router cache's answer, and the cache becomes `RoutersAfter` |
| Session.Coordinator.ToggleHand | backend/src/sockets/meetingSocket.ts:242-251 | the sender's hand flips and the roster is republished; an unknown room or sender changes nothing and sends nothing |
| Session.Coordinator.HostAction | backend/src/sockets/meetingSocket.ts:253-327 | an unauthorized action changes nothing and sends nothing; otherwise the roster becomes `HostActionRoster`, a promotion or demotion is persisted (only when the write succeeds) and the events are `HostActionEmits` |
| Session.Coordinator.CreatePoll | backend/src/sockets/meetingSocket.ts:329-351 | only a moderator creates a poll; it is fresh, with zero votes in option order and a started countdown; it replaces `activePoll`, and the old poll object is not modified |
| Session.Coordinator.PollInterval | backend/src/sockets/meetingSocket.ts:353-363 | one firing advances that poll's countdown by `Step` and emits `poll-timer`/`poll-end` to the room, whether or not the poll is still the active one |
| Session.Coordinator.Vote | backend/src/sockets/meetingSocket.ts:366-375 | a vote is counted exactly when the room has an active poll and the index is in range; it adds one to that option (`AddVote`); an uncounted vote leaves every count as it was; the countdown is untouched |
| Session.Coordinator.PostBroadcast | backend/src/sockets/meetingSocket.ts:377-400 | a moderator's message is appended to the room log even when persistence fails; the store changes only on success; `chat-broadcast` goes to the room |
| Session.Coordinator.UpdateVideoId | backend/src/sockets/meetingSocket.ts:402-418 | a moderator's video id is persisted when the write succeeds and always announced; the room table is unchanged |
| Session.Coordinator.GetRouterRtpCapabilities | backend/src/sockets/meetingSocket.ts:115-123 | the reply is the codecs of the cached or new router, or the router error; the router is cached (`RoutersAfter`) even for a room that does not exist; while every cached router has the configured codecs, the reply is exactly `MediaCodecs` |
| Session.Coordinator.CreateWebRtcTransport | backend/src/sockets/meetingSocket.ts:125-141 | unknown room: "Meeting not found" and no router request; otherwise the router cache becomes `RoutersAfter`, and the transport is registered under its engine id and its parameters are returned |
| Session.Coordinator.ConnectTransport | backend/src/sockets/meetingSocket.ts:143-153 | a registered transport becomes connected; an unknown room or transport changes nothing |
| Session.Coordinator.Produce | backend/src/sockets/meetingSocket.ts:155-186 | the checks in order: room, participant, the audio capability (only for audio), transport; on success the producer is registered under its id and announced to the room except the sender |
| Session.Coordinator.Consume | backend/src/sockets/meetingSocket.ts:196-231 | router error, then incompatible capabilities, then a missing transport (the thrown TypeError); otherwise a paused consumer is registered under its id; in every case the router cache becomes `RoutersAfter` |
| Session.Coordinator.ResumeConsumer | backend/src/sockets/meetingSocket.ts:233-238 | a registered consumer is unpaused; anything else changes nothing |
| Session.Coordinator.TransportClosed | backend/src/sockets/meetingSocket.ts:177-215 | closing a transport drops exactly the producers and consumers created on it; the transport entry stays |
| Session.Coordinator.ProducerClosed | backend/src/sockets/meetingSocket.ts:216-219 | exactly the consumers of the producer are dropped, and each consuming socket, and no other, gets `consumer-closed` |
| Session.Coordinator.Disconnect | backend/src/sockets/meetingSocket.ts:420-436 | the socket's entry leaves every room, and every room it was in, and no other, gets the new roster |
| Roster.IndexOf | backend/src/sockets/meetingSocket.ts:83 | the first entry with the socket id, or none when no entry has it |
| Roster.IndexOfUnique | backend/src/sockets/meetingSocket.ts:429 | with unique ids the entry found is the only one with that id |
| Roster.EffectiveRole | backend/src/sockets/meetingSocket.ts:76-80 | a stored co-host with a truthy account id joins as co-host unless asking for host; otherwise with the requested role |
| Roster.NewParticipant | backend/src/sockets/meetingSocket.ts:88-95 | a new entry has its hand down and can produce audio exactly when it is host or co-host |
| Roster.JoinAppendsNewSocket | backend/src/sockets/meetingSocket.ts:87-96 | a new socket is appended at the end with the initial flags, with the rest unchanged |
| Roster.RejoinUpdatesInPlace | backend/src/sockets/meetingSocket.ts:83-86 | re-joining updates only name and role of that entry; account id, hand, audio flag and all other entries stay |
| Roster.JoinKeepsIdsUnique | backend/src/sockets/meetingSocket.ts:82-96 | joining never duplicates a socket, and the socket is present afterwards |
| Roster.StoredCoHostJoinsAsCoHost | backend/src/sockets/meetingSocket.ts:76-95 | a stored co-host joining on a new socket becomes a co-host that can produce audio |
| Roster.ToggleHandFlipsOnlySender | backend/src/sockets/meetingSocket.ts:246-249 | toggle-hand flips the sender's flag and no other field or entry |
| Roster.ToggleHandTwice | backend/src/sockets/meetingSocket.ts:248 | toggling twice restores the roster |
| Roster.RemoveAtKeepsIdsUnique | backend/src/sockets/meetingSocket.ts:431 | `splice(i, 1)` keeps the others in order with unique ids |
| Roster.RemoveFirstIsFilter | backend/src/sockets/meetingSocket.ts:429-431 | with unique ids, removing the first entry of a socket is filtering the socket out |
| Roster.RemoveFirstRemovesSocket | backend/src/sockets/meetingSocket.ts:429-432 | after disconnect the socket has no entry, the roster is one shorter when it had one, and the rest keep their order |
| Roster.PermissionMatrix | backend/src/sockets/meetingSocket.ts:260-294 | a host may do everything, a user nothing; a co-host may act on non-hosts, kick only users, and never promote or demote |
| Roster.ApplyToTarget | backend/src/sockets/meetingSocket.ts:276-326 | promote sets co-host and audio, demote sets user and no audio, grant/revoke change only audio, lower-hand only the hand, mute nothing |
| Roster.HostActionRefusals | backend/src/sockets/meetingSocket.ts:257-294 | a missing actor or target, a user actor, a co-host acting on the host, a co-host kicking a co-host, a non-host promoting or demoting: nothing changes |
| Roster.KickRemovesOnlyTarget | backend/src/sockets/meetingSocket.ts:267-271 | an authorized kick removes exactly the target's entry and keeps the others in order |
| Roster.ActionTouchesOnlyTarget | backend/src/sockets/meetingSocket.ts:276-326 | every authorized action but kick rewrites only the target's entry |
| Roster.HostActionKeepsIdsUnique | backend/src/sockets/meetingSocket.ts:271 | no host action duplicates a socket id |
| Polls.Start | backend/src/sockets/meetingSocket.ts:339-346 | a new poll is active, ticking, with `timeLeft` equal to its duration |
| Polls.Countdowns | backend/src/sockets/meetingSocket.ts:354-356 | the `poll-timer` values of a countdown are one less each second |
| Polls.RunWhileTimeLeft | backend/src/sockets/meetingSocket.ts:354-356 | while time is left each tick lowers `timeLeft` by exactly one and announces it |
| Polls.NothingAfterEnd | backend/src/sockets/meetingSocket.ts:358 | after `clearInterval` ticks change nothing and emit nothing |
| Polls.EndsOnTickAfterDuration | backend/src/sockets/meetingSocket.ts:353-362 | a poll of duration d emits d timer ticks and `poll-end` on tick d+1, and is then inactive and stopped |
| Polls.RunAppend | backend/src/sockets/meetingSocket.ts:353-363 | running a+b ticks is running a ticks and then b more |
| Polls.TimeLeftNeverNegative | backend/src/sockets/meetingSocket.ts:354-355 | `timeLeft` never rises and never goes below zero unless it started below |
| Polls.AtMostOneEnd | backend/src/sockets/meetingSocket.ts:357-361 | no poll emits `poll-end` twice |
| Polls.ActiveWhileTicking | backend/src/sockets/meetingSocket.ts:358-359 | a poll is active exactly while its interval runs |
| Polls.ZeroVotes | backend/src/sockets/meetingSocket.ts:337 | the options keep their texts and order, each with zero votes |
| Polls.ZeroVotesSum | backend/src/sockets/meetingSocket.ts:337 | a new poll has no votes in total |
| Polls.AddVoteCounts | backend/src/sockets/meetingSocket.ts:370-371 | a counted vote raises exactly that option by one, keeps every text, and raises the total by one |
| Polls.Poll.constructor | backend/src/sockets/meetingSocket.ts:339-353 | the new poll has the given id, question and duration, zero-vote options and a started countdown |
| Polls.Poll.Tick | backend/src/sockets/meetingSocket.ts:353-363 | one firing moves the countdown by `Step` and leaves the votes alone |
| Polls.Poll.Vote | backend/src/sockets/meetingSocket.ts:368-371 | a vote counts exactly while active and for an index in range, and then adds one to that option only |
| Meetings.AsOption | backend/src/controllers/meeting.ts:88 | a missing or null field becomes an absent document field, a string is kept |
| Meetings.NewMeeting | backend/src/controllers/meeting.ts:17-24 | a created meeting is upcoming, scheduled now, with no co-hosts or broadcasts, and hosted by the user or by 24 zeros |
| Meetings.Merge | backend/src/controllers/meeting.ts:86-89 | title, description and time are replaced only by truthy values; the video id whenever present, even empty or null |
| Meetings.FalsyFieldsKeepStoredValues | backend/src/controllers/meeting.ts:86-89 | an update with only falsy fields and no video id changes nothing |
| Meetings.EmptyVideoIdOverwrites | backend/src/controllers/meeting.ts:88 | an empty video id overwrites the stored one |
| Meetings.MergeIdempotent | backend/src/controllers/meeting.ts:86-89 | sending the same update twice equals sending it once |
| Meetings.Apply | backend/src/sockets/meetingSocket.ts:284-301 | `$addToSet`/`$pull` change only the co-host set, `$push` only appends a broadcast, the video update only sets the id |
| Meetings.MeetingDb.FindById | backend/src/controllers/meeting.ts:75 | a document is found exactly when its id is stored |
| Meetings.MeetingDb.FindByIdAndUpdate | backend/src/sockets/meetingSocket.ts:283-287 | the document changes only when the id exists and the write succeeds |
| Meetings.CreateMeeting | backend/src/controllers/meeting.ts:7-31 | 400 and no write without a truthy title and video id; otherwise 201 and exactly the new meeting is stored |
| Meetings.GetMeeting | backend/src/controllers/meeting.ts:36-54 | 404 exactly for a malformed or unknown id, else 200 with the stored document |
| Meetings.UpdateMeeting | backend/src/controllers/meeting.ts:71-97 | 500 for a malformed id, 404 for an unknown one, 500 with nothing stored when a truthy `scheduledTime` does not cast to a date, else the stored document becomes `Merge` of it and is returned |
| Meetings.DeleteMeeting | backend/src/controllers/meeting.ts:102-117 | 500 for a malformed id, 404 for an unknown one, else exactly that document is removed |
| Media.MediaCodecsAudioOnly | backend/src/services/mediasoupService.ts:5-17 | the codec list is one stereo Opus codec at 48 kHz |
| Media.AnnouncedIp | backend/src/services/mediasoupService.ts:61 | the environment value when it is non-empty, else `127.0.0.1` |
| Media.CreateWebRtcTransport | backend/src/services/mediasoupService.ts:58-78 | the params id is the transport id; listen on 0.0.0.0 with the announced ip; UDP and TCP on, UDP preferred |
| Media.RouterFor | backend/src/services/mediasoupService.ts:46-56 | no worker: error; a cached router is returned as is; otherwise a new router with the audio codecs |
| Media.RoutersAfter | backend/src/services/mediasoupService.ts:46-56 | the cache after `getRouter`: unchanged without a worker; otherwise it gains exactly the room, keeps every cached router, and holds the router the call returned |
| Media.RouterCached | backend/src/services/mediasoupService.ts:46-56 | a second `getRouter` for the same room returns the first call's router and stores nothing new |
| Media.RoutersAfterKeepsCodecs | backend/src/services/mediasoupService.ts:46-56 | every router `getRouter` returns or caches carries the configured codec list, given that the cache already did |
| Media.MediaService.constructor | backend/src/services/mediasoupService.ts:19-25 | no worker and no routers at construction |
| Media.MediaService.StartWorker | backend/src/services/mediasoupService.ts:27-44 | the worker is set only when the engine created one |
| Media.MediaService.GetRouter | backend/src/services/mediasoupService.ts:46-56 | get-or-create: the returned router is `RouterFor` and the cache becomes `RoutersAfter`, so it holds the returned router under the room id; a cache whose routers all carry `MediaCodecs` keeps that property |
| Text.Lower | frontend/src/pages/AdminDashboard.tsx:180 | lower-casing keeps the length and maps every character |
| YoutubeUrl.FirstTerminator | frontend/src/pages/AdminDashboard.tsx:167 | how far the leading `.*` reaches: the first line terminator or the end |
| YoutubeUrl.CaptureEnd | frontend/src/pages/AdminDashboard.tsx:167 | `([^#&?]*)` stops at the first `#`, `&` or `?` |
| YoutubeUrl.MarkerEnd | frontend/src/pages/AdminDashboard.tsx:167 | a marker matches at a position exactly when one of the six alternatives does |
| YoutubeUrl.LastMarker | frontend/src/pages/AdminDashboard.tsx:167 | the right-most matching position, none to its right up to the bound |
| YoutubeUrl.Capture | frontend/src/pages/AdminDashboard.tsx:167-168 | the capture holds no `#`, `&` or `?` |
| YoutubeUrl.ExtractWith | frontend/src/pages/AdminDashboard.tsx:167-170 | the result is the input or an 11-character run with no `#`, `&` or `?` |
| YoutubeUrl.NoUsableMatchKeepsInput | frontend/src/pages/AdminDashboard.tsx:170 | no match, or a capture of another length, returns the input |
| YoutubeUrl.CaptureFollowsRightmostMarker | frontend/src/pages/AdminDashboard.tsx:167-168 | the capture follows the right-most marker reachable before any line terminator and runs to the first stop character |
| YoutubeUrl.NoMarkerInCapture | frontend/src/components/CustomVideoPlayer.tsx:26-28 | a capture contains no reachable marker |
| YoutubeUrl.ExtractIdempotent | frontend/src/components/CustomVideoPlayer.tsx:26-28 | extracting from an extracted id returns it unchanged |
| YoutubeUrl.EmptyOnlyFromEmpty | frontend/src/components/CustomVideoPlayer.tsx:28 | the result is empty exactly when the input is |
| YoutubeUrl.QuoteEnd | frontend/src/pages/AdminDashboard.tsx:160 | the lazy value ends at the first quote, before any line terminator; with no match there is no quote before the first terminator |
| YoutubeUrl.FirstSrc | frontend/src/pages/AdminDashboard.tsx:160 | the left-most position where `src=` and a quoted value match |
| YoutubeUrl.SrcValue | frontend/src/pages/AdminDashboard.tsx:160-161 | the value holds no quote and no line terminator |
| YoutubeUrl.IframeTakesFirstSrc | frontend/src/pages/AdminDashboard.tsx:159-164 | the input changes only inside an `<iframe` snippet, and then to the first, shortest, non-empty quoted `src` value |
| AdminDashboard.ExtractYoutubeId | frontend/src/pages/AdminDashboard.tsx:157-171 | the result is the substituted input or an 11-character id without stop characters |
| AdminDashboard.PlainInputSkipsIframeStep | frontend/src/pages/AdminDashboard.tsx:159 | without `<iframe` the extraction is the marker rule on the input |
| AdminDashboard.SearchKeepsExactlyMatches | frontend/src/pages/AdminDashboard.tsx:179-182 | a meeting is listed iff it is in the list and its lower-cased title or id contains the lower-cased term |
| AdminDashboard.EmptySearchKeepsAll | frontend/src/pages/AdminDashboard.tsx:179-182 | an empty term lists every meeting in order |
| AdminDashboard.AfterUpdate | frontend/src/pages/AdminDashboard.tsx:117 | each entry is replaced exactly when its id matches |
| AdminDashboard.UpdateKeepsIdsAndOthers | frontend/src/pages/AdminDashboard.tsx:117 | after an update the ids and their order are unchanged and other entries are untouched |
| AdminDashboard.DeleteRemovesOnlyThatId | frontend/src/pages/AdminDashboard.tsx:146 | after a delete exactly the entries with other ids remain, in order |
| VideoPlayer.GetYoutubeId | frontend/src/components/CustomVideoPlayer.tsx:25-29 | the result is the input or an 11-character id without stop characters |
| VideoPlayer.GetYoutubeIdIdempotent | frontend/src/components/CustomVideoPlayer.tsx:25-29 | applying `getYoutubeId` to its result changes nothing |
| VideoPlayer.ErrorStateExactlyForEmpty | frontend/src/components/CustomVideoPlayer.tsx:37-38 | the player is in its error state exactly for an empty video id |
| MeetingRoom.GroupsPartition | frontend/src/pages/MeetingRoom.tsx:297-299 | the three groups together hold every participant exactly as often as the roster does |
| MeetingRoom.GroupOrder | frontend/src/pages/MeetingRoom.tsx:297-299 | each of the three groups keeps the roster's order: grouping a concatenation concatenates the groups |
| MeetingRoom.GroupsCons | frontend/src/pages/MeetingRoom.tsx:297-299 | one more participant lands in exactly one group |
| MeetingRoom.ExactlyOneGroup | frontend/src/pages/MeetingRoom.tsx:297-299 | every participant satisfies exactly one group test |
| MeetingRoom.RaisedHandCountBound | frontend/src/pages/MeetingRoom.tsx:298-301 | the badge count is at least the raised-hand group, and equal when no moderator raises a hand |
| MeetingRoom.PollTimerOnlyTimeLeft | frontend/src/pages/MeetingRoom.tsx:102 | `poll-timer` changes only the shown poll's `timeLeft`; no poll stays no poll |
| MeetingRoom.PollEndClosesShownPoll | frontend/src/pages/MeetingRoom.tsx:103 | `poll-end` closes the shown poll with `timeLeft` 0, whichever poll ended |
| MeetingRoom.ChatUpdaters | frontend/src/pages/MeetingRoom.tsx:104-109 | a broadcast is appended at the end; a history replaces the list |
| MeetingRoom.BroadcastsAppendInOrder | frontend/src/pages/MeetingRoom.tsx:107-109 | broadcasts received in a row are appended in arrival order |
| MeetingRoom.CreatePollRequest | frontend/src/pages/MeetingRoom.tsx:237-244 | nothing for a blank question; otherwise the options sent are exactly the typed options that are not blank, untrimmed |
| MeetingRoom.CreatePollKeepsOrder | frontend/src/pages/MeetingRoom.tsx:242 | a non-blank option is sent once, at its typed position among the other sent options, so the order that vote indexes refer to is kept |
| MeetingRoom.CreatePollSkipsBlank | frontend/src/pages/MeetingRoom.tsx:242 | a blank option is dropped and the options around it keep their order |
| MeetingRoom.NoBlankOptionSendsAll | frontend/src/pages/MeetingRoom.tsx:242 | without blank options every option is sent in order |
| MeetingRoom.JoinRole | frontend/src/pages/MeetingRoom.tsx:91 | an admin account asks for host, anyone else for user, nobody for co-host |
| MeetingRoom.Own | frontend/src/pages/MeetingRoom.tsx:51-52 | the page's own entry is the first with its socket id |
| MeetingRoom.HostActionRequest | frontend/src/pages/MeetingRoom.tsx:231-235 | a host action is sent exactly by an admin account or a co-host |
| MeetingRoom.MicGuardMatchesServer | frontend/src/pages/MeetingRoom.tsx:258-266 | for a non-admin the mic check agrees with `transport-produce`'s participant and audio-capability checks on the same roster; the room and transport checks are not part of it |
| MeetingRoom.AdminJoinsWithAudio | frontend/src/pages/MeetingRoom.tsx:91-92 | an admin joining on a new socket becomes host with the audio capability |
| PollModal.FoldVotesIsSum | frontend/src/components/PollModal.tsx:18 | the left fold adds every option's votes to the accumulator |
| PollModal.TotalVotesCounts | frontend/src/components/PollModal.tsx:18 | `totalVotes` is the sum of the vote counts, and a counted vote raises it by one |
| PollModal.SelectedModalIgnoresClicks | frontend/src/components/PollModal.tsx:21-25 | once a choice is recorded, or for an admin, clicks call nothing and change nothing |
| PollModal.AtMostOneVote | frontend/src/components/PollModal.tsx:21-25 | a fresh modal calls `onVote` at most once, never for an admin, and records the index it passed |
| PollModal.PollModal.constructor | frontend/src/components/PollModal.tsx:19 | no choice is recorded at first |
| PollModal.PollModal.HandleVote | frontend/src/components/PollModal.tsx:21-25 | the first click of a non-admin is recorded and sent; every other click is ignored |

## Left out

- Socket.io delivery is not modelled: subscriptions (`socket.join`, `leave`), which sockets receive an emit, and the kicked socket leaving the room. Handlers return the emits they make.
- Timers are left out. `setInterval` becomes `Coordinator.PollInterval`, called once per firing. Nothing models wall-clock time or the order in which intervals of different polls fire.
- Interleavings at `await` points are not modelled: every handler runs as one atomic step. This covers join's database read and router request, and the engine calls of produce and consume.
- Media engine internals are left out.
  - ICE, DTLS and RTP parameters are dropped.
  - `router.canConsume` is the `compatible` parameter of `Consume`.
  - Engine-assigned ids are parameters.
  - Engine failures of `createRouter`, `createWebRtcTransport`, `produce` and `consume`, and worker death, are not modelled.
  - Media.RouterFor: with a worker, `getRouter` always succeeds in the model. A rejected `createRouter` (mediasoupService.ts:53) is left out. In the code it leaves a joined room without a `routerId`, and `getRouterRtpCapabilities`, `createWebRtcTransport` and `consume` then answer with an error.
- `mediasoupService.init()` is not part of this model; it is not defined in the service class.
- `getAllMeetings` and the `populate` of `getMeeting` are not part of this model; they involve sorting and joins in the database.
- Dates are left abstract. Timestamps are integers and scheduled times are strings. Which strings Mongoose can cast to a `Date` is not modelled: `Meetings.UpdateMeeting` takes the outcome of that cast as a parameter. The `Date` round trip of `chat-history` and `chat-broadcast` on the client is dropped.
- Strings are sequences of characters. `toLowerCase` is ASCII-only, and lengths count characters rather than UTF-16 code units.
- Request bodies are limited to strings, `null` or missing fields. Other JSON values are not modelled.
- Socket payloads are assumed to carry the declared values: `role` is one of host, co-host and user (`Roster.Role`), and a `host-action` is one of the seven actions (`Roster.HostAction`). The server does not check either. The model therefore loses these cases:
  - A participant that joined with any other role string passes `host-action`'s checks, which refuse only `user` and stop only a `co-host` from acting on the host. Such a participant can kick, mute, promote or demote anyone, the host included.
  - The same participant is refused by `create-poll`, `chat-message` and `update-video-id`, which require host or co-host.
  - An unknown action string passes the checks and then matches no branch, so it changes nothing and sends nothing.
- Poll indexes are integers and durations are integers. A fractional index or duration is not modelled.
- Session.Coordinator.Disconnect: the order of the `update-users` emits over rooms (the `for…in` order) is not stated; the contract gives the set of emits only.
- Session.Coordinator.ProducerClosed: the order of the `consumer-closed` emits is not stated; the contract gives the set of emits only.
- Behaviours of the code that the model keeps as they are:
  - Transports are never removed from a room's registry.
  - A replaced poll's interval is not cancelled.
  - `poll-end` fires on the tick after `timeLeft` reaches 0.
  - `consume` on a missing transport fails with a `TypeError`, not with a not-found error.
- PollModal.PollModal.HandleVote: React batches state updates, so two clicks within one render both see no selection. The model applies each click to the state the previous click left.
- The `Poll.votedUsers` field of the stored poll schema is not modelled; live voting never uses it.
- Browser media, rendering, toasts and the `socket.ts` client singleton are out of scope, as are the floating-point percentages of the poll views.
