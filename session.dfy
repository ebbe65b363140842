/**
 * The per-room session coordinator: the in-memory table of live rooms and one
 * method per socket handler. Each handler runs as one atomic step; what it sends
 * is returned as a list of emits, and what it answers through an acknowledgement
 * callback as a `Result`.
 */
module Session {
  import opened Wrappers
  import opened Text
  import opened Seqs
  import opened Meetings
  import opened Media
  import opened Roster
  import opened Polls
  import opened Events

  /** The live state of one room (`activeMeetings[roomId]`). */
  datatype Room = Room(
    participants: seq<Participant>,
    activePoll: Option<Poll>,
    broadcasts: seq<Broadcast>,
    routerId: Option<string>,
    producers: map<string, Producer>,
    consumers: map<string, Consumer>,
    transports: map<string, Transport>)

  /** `b => ({ name: b.senderName, message: b.message, timestamp: b.timestamp })`. */
  function FromStored(b: StoredBroadcast): (r: Broadcast)
    ensures r.name == b.senderName && r.message == b.message && r.timestamp == b.timestamp
  {
    Broadcast(b.senderName, b.message, b.timestamp)
  }

  /** The `$push` entry that `chat-message` persists for a broadcast. */
  function ToStored(b: Broadcast): (r: StoredBroadcast)
    ensures FromStored(r) == b
  {
    StoredBroadcast(b.message, b.name, b.timestamp)
  }

  /** The history a new room starts with: the stored broadcasts, or none without a stored meeting. */
  function History(stored: Option<MeetingDoc>): (h: seq<Broadcast>)
    ensures stored.None? ==> h == []
    ensures stored.Some? ==> |h| == |stored.value.broadcasts|
    ensures stored.Some? ==> forall i :: 0 <= i < |h| ==> h[i] == FromStored(stored.value.broadcasts[i])
  {
    if stored.None? then []
    else seq(|stored.value.broadcasts|, i requires 0 <= i < |stored.value.broadcasts| => FromStored(stored.value.broadcasts[i]))
  }

  /** A broadcast whose persistence succeeded reappears unchanged, last, in the history of a re-created room. */
  lemma PersistedBroadcastReturns(d: MeetingDoc, b: Broadcast)
    ensures History(Some(Apply(d, PushBroadcast(ToStored(b))))) == History(Some(d)) + [b]
  {
    var h := History(Some(Apply(d, PushBroadcast(ToStored(b)))));
    assert |h| == |History(Some(d))| + 1;
    assert h[|h| - 1] == b;
  }

  /** The stored co-host list join consults; `None` when there is no stored meeting. */
  function CoHostsOf(stored: Option<MeetingDoc>): (r: Option<set<string>>)
    ensures r.Some? <==> stored.Some?
    ensures stored.Some? ==> r.value == stored.value.coHosts
  {
    if stored.Some? then Some(stored.value.coHosts) else None
  }

  /** A freshly created room: empty roster and registries, no poll, the stored history. */
  function NewRoom(stored: Option<MeetingDoc>, router: Result<Router, string>): (r: Room)
    ensures r.participants == [] && r.activePoll.None?
    ensures r.broadcasts == History(stored)
    ensures r.routerId == if router.Ok? then Some(router.value.id) else None
    ensures r.producers == map[] && r.consumers == map[] && r.transports == map[]
  {
    Room([], None, History(stored), if router.Ok? then Some(router.value.id) else None, map[], map[], map[])
  }

  /** Every registry entry is stored under its own id. */
  predicate RegistriesKeyed(room: Room)
  {
    && (forall k :: k in room.producers ==> room.producers[k].id == k)
    && (forall k :: k in room.consumers ==> room.consumers[k].id == k)
    && (forall k :: k in room.transports ==> room.transports[k].id == k)
  }

  /** The invariant every handler keeps: unique sockets per roster, registries keyed by id. */
  predicate RoomValid(room: Room)
  {
    UniqueIds(room.participants) && RegistriesKeyed(room)
  }

  /** The role of the sender, if it is in the roster. */
  function SenderRole(room: Room, socketId: string): (r: Option<Role>)
    ensures r.Some? <==> IndexOf(room.participants, socketId).Some?
    ensures r.Some? ==> r.value == room.participants[IndexOf(room.participants, socketId).value].role
  {
    match IndexOf(room.participants, socketId)
    case Some(i) => Some(room.participants[i].role)
    case None => None
  }

  /** The handlers reserved to moderators act only when the sender is a host or co-host in the room. */
  predicate SenderIsModerator(room: Room, socketId: string)
  {
    SenderRole(room, socketId).Some? && IsModerator(SenderRole(room, socketId).value)
  }

  /** The co-host list change a permitted `host-action` persists, if any. */
  function CoHostUpdate(action: HostAction, target: Participant): (u: Option<Update>)
    ensures u.Some? <==> (action == PromoteToCoHost || action == DemoteToUser) && target.userId.Some? && Truthy(target.userId.value)
    ensures u.Some? && action == PromoteToCoHost ==> u.value == AddCoHost(target.userId.value)
    ensures u.Some? && action == DemoteToUser ==> u.value == PullCoHost(target.userId.value)
  {
    if !(target.userId.Some? && Truthy(target.userId.value)) then None
    else if action == PromoteToCoHost then Some(AddCoHost(target.userId.value))
    else if action == DemoteToUser then Some(PullCoHost(target.userId.value))
    else None
  }

  /** What a permitted `host-action` sends, given the roster after the action. */
  function HostActionEmits(roomId: string, targetId: string, action: HostAction, roster: seq<Participant>): (out: seq<Emit>)
    ensures action == Mute <==> (forall e :: e in out ==> e.to == ToSocket(targetId))
    ensures action != Mute ==> |out| >= 1 && out[0] == Emit(ToRoom(roomId), UpdateUsers(roster))
    ensures forall i :: 1 <= i < |out| ==> out[i].to == ToSocket(targetId)
    ensures |out| == if action == LowerHand || action == Mute then 1 else 2
    ensures action == Mute ==> out[0].payload == MutedByHost
    ensures action == Kick ==> out[1].payload == Kicked
    ensures action == PromoteToCoHost ==> out[1].payload == RoleUpdate(CoHost)
    ensures action == DemoteToUser ==> out[1].payload == RoleUpdate(User)
    ensures action == GrantAudio ==> out[1].payload == AudioPermission(true)
    ensures action == RevokeAudio ==> out[1].payload == AudioPermission(false)
  {
    var users := Emit(ToRoom(roomId), UpdateUsers(roster));
    var toTarget := (p: Payload) => Emit(ToSocket(targetId), p);
    match action
    case Kick => [users, toTarget(Kicked)]
    case PromoteToCoHost => [users, toTarget(RoleUpdate(CoHost))]
    case DemoteToUser => [users, toTarget(RoleUpdate(User))]
    case LowerHand => [users]
    case Mute => [toTarget(MutedByHost)]
    case GrantAudio => [users, toTarget(AudioPermission(true))]
    case RevokeAudio => [users, toTarget(AudioPermission(false))]
  }

  /** The consumer description `consume` acknowledges. */
  datatype ConsumeReply = ConsumeReply(id: string, producerId: string, kind: MediaKind)

  /** The error a `transport!.consume(...)` on a missing transport throws. */
  const MissingTransportError: string := "Cannot read properties of undefined (reading 'consume')"

  /** `consumer-closed` sent to the socket of a consumer of `producerId` in `room`. */
  predicate ClosedNotice(room: Room, producerId: string, e: Emit)
  {
    && e.payload.ConsumerClosed? && e.payload.consumerId in room.consumers
    && room.consumers[e.payload.consumerId].producerId == producerId
    && e.to == ToSocket(room.consumers[e.payload.consumerId].socketId)
  }

  /** `update-users` sent to a room that `socketId` was in, with the roster left after it disconnects. */
  predicate LeaveNotice(before: map<string, Room>, socketId: string, e: Emit)
  {
    && e.to.ToRoom? && e.to.roomId in before
    && IndexOf(before[e.to.roomId].participants, socketId).Some?
    && e.payload == UpdateUsers(RemoveFirst(before[e.to.roomId].participants, socketId))
  }

  /** A room after `socketId` disconnects. */
  function Leave(room: Room, socketId: string): (r: Room)
  {
    room.(participants := RemoveFirst(room.participants, socketId))
  }

  /** The socket has an entry in the room. */
  predicate Present(room: Room, socketId: string)
  {
    IndexOf(room.participants, socketId).Some?
  }

  /** Every room after `socketId` disconnects. */
  function LeaveAll(rooms: map<string, Room>, socketId: string): (r: map<string, Room>)
    ensures r.Keys == rooms.Keys
  {
    map k | k in rooms :: Leave(rooms[k], socketId)
  }

  /** The room table while `disconnect` is part-way through: the rooms in `todo` are not yet visited. */
  function PartlyLeft(rooms: map<string, Room>, socketId: string, todo: set<string>): (r: map<string, Room>)
    ensures r.Keys == rooms.Keys
  {
    map k | k in rooms :: if k in todo then rooms[k] else Leave(rooms[k], socketId)
  }

  /** Before the loop nothing is visited; after it, every room is. */
  lemma PartlyLeftBounds(rooms: map<string, Room>, socketId: string)
    ensures PartlyLeft(rooms, socketId, rooms.Keys) == rooms
    ensures PartlyLeft(rooms, socketId, {}) == LeaveAll(rooms, socketId)
  {
  }

  /** Visiting one more room updates just that room. */
  lemma PartlyLeftStep(rooms: map<string, Room>, socketId: string, todo: set<string>, r: string)
    requires r in todo && r in rooms
    ensures PartlyLeft(rooms, socketId, todo - {r}) == PartlyLeft(rooms, socketId, todo)[r := Leave(rooms[r], socketId)]
  {
  }

  /** After the disconnect, every room is still valid and holds no entry for the socket. */
  lemma LeaveAllValid(rooms: map<string, Room>, socketId: string)
    requires forall r :: r in rooms ==> RoomValid(rooms[r])
    ensures forall r :: r in rooms ==> RoomValid(LeaveAll(rooms, socketId)[r])
    ensures forall r :: r in rooms ==> !Present(LeaveAll(rooms, socketId)[r], socketId)
  {
    forall r | r in rooms
      ensures RoomValid(LeaveAll(rooms, socketId)[r]) && !Present(LeaveAll(rooms, socketId)[r], socketId)
    {
      RemoveFirstRemovesSocket(rooms[r].participants, socketId);
      WithRosterValid(rooms[r], RemoveFirst(rooms[r].participants, socketId));
    }
  }

  /** Replacing a valid room's roster by one with unique ids keeps the room valid. */
  lemma WithRosterValid(room: Room, ps: seq<Participant>)
    requires RoomValid(room) && UniqueIds(ps)
    ensures RoomValid(room.(participants := ps))
  {
  }

  /** A room's consumers while `producerclose` is part-way through: those of the producer still in `todo` are not yet closed. */
  function ConsumersLeft(consumers: map<string, Consumer>, producerId: string, todo: set<string>): (r: map<string, Consumer>)
    ensures r.Keys <= consumers.Keys
    ensures forall k :: k in r ==> r[k] == consumers[k]
  {
    map k | k in consumers && (consumers[k].producerId != producerId || k in todo) :: consumers[k]
  }

  /** Before the loop nothing is closed; after it, every consumer of the producer is. */
  lemma ConsumersLeftBounds(consumers: map<string, Consumer>, producerId: string)
    ensures ConsumersLeft(consumers, producerId, set k | k in consumers && consumers[k].producerId == producerId) == consumers
    ensures ConsumersLeft(consumers, producerId, {})
         == map k | k in consumers && consumers[k].producerId != producerId :: consumers[k]
  {
  }

  /** Closing one more consumer removes just that entry. */
  lemma ConsumersLeftStep(consumers: map<string, Consumer>, producerId: string, todo: set<string>, k: string)
    requires k in todo && k in consumers && consumers[k].producerId == producerId
    ensures ConsumersLeft(consumers, producerId, todo - {k}) == ConsumersLeft(consumers, producerId, todo) - {k}
  {
  }

  /** The coordinator: the room table plus the stored meetings and the media service it calls. */
  class Coordinator {
    var rooms: map<string, Room>
    const db: MeetingDb
    const media: MediaService
    /** The `MEDIASOUP_ANNOUNCED_IP` environment variable. */
    const announcedIpEnv: Option<string>

    predicate Valid()
      reads this
    {
      forall r :: r in rooms ==> RoomValid(rooms[r])
    }

    constructor(db: MeetingDb, media: MediaService, announcedIpEnv: Option<string>)
      ensures rooms == map[] && this.db == db && this.media == media && this.announcedIpEnv == announcedIpEnv
      ensures Valid()
    {
      rooms := map[];
      this.db := db;
      this.media := media;
      this.announcedIpEnv := announcedIpEnv;
    }

    /**
     * `join-room`. The stored meeting is read first (`readOk` false: the read threw);
     * an absent room is created with the stored history and a router id when the
     * router could be obtained; then the socket is added or updated in the roster.
     */
    method Join(socketId: string, roomId: string, name: string, role: Role, userId: Option<string>,
                readOk: bool, freshRouterId: string) returns (out: seq<Emit>)
      requires Valid()
      modifies this, media`routers
      ensures Valid()
      ensures roomId in rooms && rooms == old(rooms)[roomId := rooms[roomId]]
      ensures media.routers == if roomId in old(rooms) then old(media.routers)
                               else RoutersAfter(media.workerStarted, old(media.routers), roomId, freshRouterId)
      ensures var stored := if readOk then db.FindById(roomId) else None;
        var base := if roomId in old(rooms) then old(rooms)[roomId]
                    else NewRoom(stored, RouterFor(media.workerStarted, old(media.routers), roomId, freshRouterId));
        rooms[roomId] == base.(participants :=
          Roster.Join(base.participants, socketId, userId, name, EffectiveRole(role, userId, CoHostsOf(stored))))
      ensures |out| >= 2
      ensures out[0] == Emit(ToRoom(roomId), UpdateUsers(rooms[roomId].participants))
      ensures out[1] == Emit(ToRoom(roomId), ChatHistory(rooms[roomId].broadcasts))
      ensures rooms[roomId].activePoll.None? ==> |out| == 2
      ensures rooms[roomId].activePoll.Some? ==>
        out == out[..2] + [Emit(ToSocket(socketId), PollUpdate(rooms[roomId].activePoll.value.View()))]
    {
      var stored := if readOk then db.FindById(roomId) else None;
      var base := RoomToJoin(roomId, stored, freshRouterId);
      var effective := EffectiveRole(role, userId, CoHostsOf(stored));
      var roster := Roster.Join(base.participants, socketId, userId, name, effective);
      JoinKeepsIdsUnique(base.participants, socketId, userId, name, effective);
      WithRosterValid(base, roster);
      var room := base.(participants := roster);
      rooms := rooms[roomId := room];
      out := [Emit(ToRoom(roomId), UpdateUsers(roster)), Emit(ToRoom(roomId), ChatHistory(room.broadcasts))];
      if room.activePoll.Some? {
        out := out + [Emit(ToSocket(socketId), PollUpdate(room.activePoll.value.View()))];
      }
    }

    /** The room a join enters: the live one, or a new one with the stored history and a router. */
    method RoomToJoin(roomId: string, stored: Option<MeetingDoc>, freshRouterId: string) returns (base: Room)
      requires Valid()
      modifies media`routers
      ensures RoomValid(base)
      ensures base == if roomId in rooms then rooms[roomId]
                      else NewRoom(stored, RouterFor(media.workerStarted, old(media.routers), roomId, freshRouterId))
      ensures media.routers == if roomId in rooms then old(media.routers)
                               else RoutersAfter(media.workerStarted, old(media.routers), roomId, freshRouterId)
    {
      if roomId in rooms {
        base := rooms[roomId];
      } else {
        var router := media.GetRouter(roomId, freshRouterId);
        base := NewRoom(stored, router);
      }
    }

    /** `toggle-hand`: flips the sender's raised hand and republishes the roster. */
    method ToggleHand(socketId: string, roomId: string) returns (out: seq<Emit>)
      requires Valid()
      modifies this
      ensures Valid()
      ensures roomId !in old(rooms) ==> rooms == old(rooms) && out == []
      ensures roomId in old(rooms) ==>
        rooms == old(rooms)[roomId := old(rooms)[roomId].(participants := Roster.ToggleHand(old(rooms)[roomId].participants, socketId))]
      ensures roomId in old(rooms) ==>
        out == if IndexOf(old(rooms)[roomId].participants, socketId).Some?
               then [Emit(ToRoom(roomId), UpdateUsers(rooms[roomId].participants))] else []
    {
      if roomId !in rooms {
        return [];
      }
      var room := rooms[roomId];
      ToggleHandFlipsOnlySender(room.participants, socketId);
      var roster := Roster.ToggleHand(room.participants, socketId);
      rooms := rooms[roomId := room.(participants := roster)];
      out := if IndexOf(room.participants, socketId).Some? then [Emit(ToRoom(roomId), UpdateUsers(roster))] else [];
    }

    /**
     * `host-action`: applies a permitted moderation action to the target, persists a
     * promotion or demotion of an account to the stored co-host list (a failed write,
     * `persistOk` false, is only logged), and notifies the room and the target.
     */
    method HostAction(socketId: string, roomId: string, action: HostAction, targetId: string, persistOk: bool)
      returns (out: seq<Emit>)
      requires Valid()
      modifies this, db
      ensures Valid()
      ensures roomId !in old(rooms) || !Authorized(old(rooms)[roomId].participants, socketId, targetId, action) ==>
        rooms == old(rooms) && db.docs == old(db.docs) && out == []
      ensures roomId in old(rooms) && Authorized(old(rooms)[roomId].participants, socketId, targetId, action) ==>
        var ps := old(rooms)[roomId].participants;
        var target := ps[IndexOf(ps, targetId).value];
        var roster := HostActionRoster(ps, socketId, targetId, action);
        && rooms == old(rooms)[roomId := old(rooms)[roomId].(participants := roster)]
        && db.docs == (match CoHostUpdate(action, target)
                       case None => old(db.docs)
                       case Some(u) => if persistOk && roomId in old(db.docs) then old(db.docs)[roomId := Apply(old(db.docs)[roomId], u)] else old(db.docs))
        && out == HostActionEmits(roomId, targetId, action, roster)
    {
      if roomId !in rooms {
        return [];
      }
      var room := rooms[roomId];
      var ps := room.participants;
      if !Authorized(ps, socketId, targetId, action) {
        return [];
      }
      var target := ps[IndexOf(ps, targetId).value];
      HostActionKeepsIdsUnique(ps, socketId, targetId, action);
      var roster := HostActionRoster(ps, socketId, targetId, action);
      WithRosterValid(room, roster);
      rooms := rooms[roomId := room.(participants := roster)];
      var update := CoHostUpdate(action, target);
      if update.Some? {
        db.FindByIdAndUpdate(roomId, update.value, persistOk);
      }
      out := HostActionEmits(roomId, targetId, action, roster);
    }

    /**
     * `create-poll`: a moderator's new poll replaces the room's active poll and starts
     * ticking. The replaced poll object is not touched: its interval keeps running.
     */
    method CreatePoll(socketId: string, roomId: string, question: string, options: seq<string>,
                      duration: int, pollId: string) returns (created: Option<Poll>, out: seq<Emit>)
      requires Valid()
      modifies this
      ensures Valid()
      ensures roomId !in old(rooms) || !SenderIsModerator(old(rooms)[roomId], socketId) ==>
        created.None? && rooms == old(rooms) && out == []
      ensures roomId in old(rooms) && SenderIsModerator(old(rooms)[roomId], socketId) ==>
        && created.Some? && fresh(created.value)
        && created.value.id == pollId && created.value.question == question && created.value.duration == duration
        && created.value.options == ZeroVotes(options) && created.value.Clock() == Start(duration)
        && rooms == old(rooms)[roomId := old(rooms)[roomId].(activePoll := created)]
        && out == [Emit(ToRoom(roomId), PollUpdate(created.value.View()))]
    {
      if roomId !in rooms || !SenderIsModerator(rooms[roomId], socketId) {
        return None, [];
      }
      var poll := new Poll(pollId, question, options, duration);
      created := Some(poll);
      rooms := rooms[roomId := rooms[roomId].(activePoll := created)];
      out := [Emit(ToRoom(roomId), PollUpdate(poll.View()))];
    }

    /**
     * One firing of the interval that `create-poll` started for `poll` in `roomId`. It
     * emits to the room whether or not `poll` is still the room's active poll.
     */
    method PollInterval(roomId: string, poll: Poll) returns (out: seq<Emit>)
      modifies poll
      ensures (poll.Clock(), Step(old(poll.Clock())).1) == Step(old(poll.Clock()))
      ensures poll.options == old(poll.options)
      ensures out == match Step(old(poll.Clock())).1
        case NoTick => []
        case TimerTick(t) => [Emit(ToRoom(roomId), PollTimer(t))]
        case EndTick => [Emit(ToRoom(roomId), PollEnd(poll.View()))]
    {
      var e := poll.Tick();
      match e
      case NoTick => out := [];
      case TimerTick(t) => out := [Emit(ToRoom(roomId), PollTimer(t))];
      case EndTick => out := [Emit(ToRoom(roomId), PollEnd(poll.View()))];
    }

    /** `vote-poll`: counts a vote on the room's active poll while it is active and the option exists. */
    method Vote(roomId: string, optionIndex: int) returns (out: seq<Emit>)
      modifies if roomId in rooms && rooms[roomId].activePoll.Some? then {rooms[roomId].activePoll.value} else {}
      ensures
        var counted := roomId in rooms && rooms[roomId].activePoll.Some?
          && old(rooms[roomId].activePoll.value.isActive)
          && 0 <= optionIndex < |old(rooms[roomId].activePoll.value.options)|;
        && (counted ==> rooms[roomId].activePoll.value.options == AddVote(old(rooms[roomId].activePoll.value.options), optionIndex)
                        && out == [Emit(ToRoom(roomId), PollUpdate(rooms[roomId].activePoll.value.View()))])
        && (!counted ==> out == [])
      ensures (roomId in rooms && rooms[roomId].activePoll.Some?
               && !(old(rooms[roomId].activePoll.value.isActive) && 0 <= optionIndex < |old(rooms[roomId].activePoll.value.options)|))
        ==> rooms[roomId].activePoll.value.options == old(rooms[roomId].activePoll.value.options)
      ensures roomId in rooms && rooms[roomId].activePoll.Some? ==>
        rooms[roomId].activePoll.value.Clock() == old(rooms[roomId].activePoll.value.Clock())
    {
      if roomId !in rooms || rooms[roomId].activePoll.None? {
        return [];
      }
      var poll := rooms[roomId].activePoll.value;
      if !poll.isActive {
        return [];
      }
      var counted := poll.Vote(optionIndex);
      out := if counted then [Emit(ToRoom(roomId), PollUpdate(poll.View()))] else [];
    }

    /**
     * `chat-message` from a moderator: the broadcast is appended to the room's log,
     * persisted (a failed write, `persistOk` false, is only logged) and sent to the room.
     */
    method PostBroadcast(socketId: string, roomId: string, message: string, name: string, now: int, persistOk: bool)
      returns (out: seq<Emit>)
      requires Valid()
      modifies this, db
      ensures Valid()
      ensures roomId !in old(rooms) || !SenderIsModerator(old(rooms)[roomId], socketId) ==>
        rooms == old(rooms) && db.docs == old(db.docs) && out == []
      ensures roomId in old(rooms) && SenderIsModerator(old(rooms)[roomId], socketId) ==>
        var msg := Broadcast(name, message, now);
        && rooms == old(rooms)[roomId := old(rooms)[roomId].(broadcasts := old(rooms)[roomId].broadcasts + [msg])]
        && db.docs == (if persistOk && roomId in old(db.docs)
                       then old(db.docs)[roomId := Apply(old(db.docs)[roomId], PushBroadcast(ToStored(msg)))]
                       else old(db.docs))
        && out == [Emit(ToRoom(roomId), ChatBroadcast(msg))]
    {
      if roomId !in rooms || !SenderIsModerator(rooms[roomId], socketId) {
        return [];
      }
      var msg := Broadcast(name, message, now);
      rooms := rooms[roomId := rooms[roomId].(broadcasts := rooms[roomId].broadcasts + [msg])];
      db.FindByIdAndUpdate(roomId, PushBroadcast(ToStored(msg)), persistOk);
      out := [Emit(ToRoom(roomId), ChatBroadcast(msg))];
    }

    /** `update-video-id` from a moderator: persisted, then announced; the room itself is unchanged. */
    method UpdateVideoId(socketId: string, roomId: string, videoId: string, persistOk: bool)
      returns (out: seq<Emit>)
      modifies db
      ensures roomId !in rooms || !SenderIsModerator(rooms[roomId], socketId) ==>
        db.docs == old(db.docs) && out == []
      ensures roomId in rooms && SenderIsModerator(rooms[roomId], socketId) ==>
        && db.docs == (if persistOk && roomId in old(db.docs)
                       then old(db.docs)[roomId := Apply(old(db.docs)[roomId], SetYoutubeId(videoId))]
                       else old(db.docs))
        && out == [Emit(ToRoom(roomId), VideoUpdate(videoId))]
    {
      if roomId !in rooms || !SenderIsModerator(rooms[roomId], socketId) {
        return [];
      }
      db.FindByIdAndUpdate(roomId, SetYoutubeId(videoId), persistOk);
      out := [Emit(ToRoom(roomId), VideoUpdate(videoId))];
    }

    /** `getRouterRtpCapabilities`: the room's router codecs; the router is created even for an unknown room. */
    method GetRouterRtpCapabilities(roomId: string, freshRouterId: string) returns (r: Result<seq<Codec>, string>)
      modifies media`routers
      ensures var router := RouterFor(media.workerStarted, old(media.routers), roomId, freshRouterId);
        r == if router.Ok? then Ok(router.value.codecs) else Err(router.error)
      ensures r.Ok? ==> r.value == MediaCodecs || roomId in old(media.routers)
      ensures AllOpus(old(media.routers)) && r.Ok? ==> r.value == MediaCodecs
      ensures media.routers == RoutersAfter(media.workerStarted, old(media.routers), roomId, freshRouterId)
    {
      var router := media.GetRouter(roomId, freshRouterId);
      r := if router.Ok? then Ok(router.value.codecs) else Err(router.error);
    }

    /** `createWebRtcTransport`: creates a transport on the room's router and registers it. */
    method CreateWebRtcTransport(roomId: string, freshRouterId: string, engineId: string)
      returns (r: Result<TransportParams, string>)
      requires Valid()
      modifies this, media`routers
      ensures Valid()
      ensures roomId !in old(rooms) ==> r == Err("Meeting not found") && rooms == old(rooms) && media.routers == old(media.routers)
      ensures roomId in old(rooms) ==>
        var router := RouterFor(media.workerStarted, old(media.routers), roomId, freshRouterId);
        && media.routers == RoutersAfter(media.workerStarted, old(media.routers), roomId, freshRouterId)
        && (if router.Err? then r == Err(router.error) && rooms == old(rooms)
            else
              var (t, params) := Media.CreateWebRtcTransport(router.value, engineId, announcedIpEnv);
              && r == Ok(params) && params.id == engineId
              && rooms == old(rooms)[roomId := old(rooms)[roomId].(transports := old(rooms)[roomId].transports[engineId := t])])
    {
      if roomId !in rooms {
        return Err("Meeting not found");
      }
      var router := media.GetRouter(roomId, freshRouterId);
      if router.Err? {
        return Err(router.error);
      }
      var (t, params) := Media.CreateWebRtcTransport(router.value, engineId, announcedIpEnv);
      var room := rooms[roomId];
      rooms := rooms[roomId := room.(transports := room.transports[t.id := t])];
      r := Ok(params);
    }

    /**
     * `transport-connect` and `transport-recv-connect`: connects a registered transport.
     * A missing one changes nothing (the first handler logs an error, the second ignores it).
     */
    method ConnectTransport(roomId: string, transportId: string) returns (found: bool)
      requires Valid()
      modifies this
      ensures Valid()
      ensures found <==> roomId in old(rooms) && transportId in old(rooms)[roomId].transports
      ensures !found ==> rooms == old(rooms)
      ensures found ==>
        var room := old(rooms)[roomId];
        rooms == old(rooms)[roomId := room.(transports := room.transports[transportId := room.transports[transportId].(connected := true)])]
    {
      found := roomId in rooms && transportId in rooms[roomId].transports;
      if found {
        var room := rooms[roomId];
        rooms := rooms[roomId := room.(transports := room.transports[transportId := room.transports[transportId].(connected := true)])];
      }
    }

    /**
     * `transport-produce`. The checks, in order: the room exists, the sender is in it,
     * an audio producer needs the audio capability (video is never checked), and the
     * transport is registered. The engine names the new producer `producerId`.
     */
    method Produce(socketId: string, roomId: string, transportId: string, kind: MediaKind, producerId: string)
      returns (r: Result<string, string>, out: seq<Emit>)
      requires Valid()
      modifies this
      ensures Valid()
      ensures r.Err? ==> rooms == old(rooms) && out == []
      ensures roomId !in old(rooms) ==> r == Err("Meeting not found")
      ensures roomId in old(rooms) ==>
        var room := old(rooms)[roomId];
        var k := IndexOf(room.participants, socketId);
        if k.None? then r == Err("Participant not found")
        else if kind == Audio && !room.participants[k.value].canProduceAudio then r == Err("Not allowed to produce audio")
        else if transportId !in room.transports then r == Err("Transport " + transportId + " not found")
        else
          && r == Ok(producerId)
          && rooms == old(rooms)[roomId := room.(producers := room.producers[producerId := Producer(producerId, kind, transportId, socketId)])]
          && out == [Emit(ToRoomExcept(roomId, socketId), NewProducer(producerId, socketId))]
    {
      out := [];
      if roomId !in rooms {
        return Err("Meeting not found"), [];
      }
      var room := rooms[roomId];
      var k := IndexOf(room.participants, socketId);
      if k.None? {
        return Err("Participant not found"), [];
      }
      if kind == Audio && !room.participants[k.value].canProduceAudio {
        return Err("Not allowed to produce audio"), [];
      }
      if transportId !in room.transports {
        return Err("Transport " + transportId + " not found"), [];
      }
      rooms := rooms[roomId := room.(producers := room.producers[producerId := Producer(producerId, kind, transportId, socketId)])];
      r := Ok(producerId);
      out := [Emit(ToRoomExcept(roomId, socketId), NewProducer(producerId, socketId))];
    }

    /**
     * `consume`. The router is fetched first, even for an unknown room; `compatible` is
     * the engine's `router.canConsume` verdict; a missing transport makes the non-null
     * assertion on it throw. The engine names the consumer `consumerId` and reports its
     * `kind`; the consumer is created paused.
     */
    method Consume(socketId: string, roomId: string, transportId: string, producerId: string,
                   compatible: bool, freshRouterId: string, consumerId: string, kind: MediaKind)
      returns (r: Result<ConsumeReply, string>)
      requires Valid()
      modifies this, media`routers
      ensures Valid()
      ensures r.Err? ==> rooms == old(rooms)
      ensures media.routers == RoutersAfter(media.workerStarted, old(media.routers), roomId, freshRouterId)
      ensures var router := RouterFor(media.workerStarted, old(media.routers), roomId, freshRouterId);
        if router.Err? then r == Err(router.error)
        else if !compatible then r == Err("Cannot consume")
        else if roomId !in old(rooms) || transportId !in old(rooms)[roomId].transports then r == Err(MissingTransportError)
        else
          var room := old(rooms)[roomId];
          && r == Ok(ConsumeReply(consumerId, producerId, kind))
          && rooms == old(rooms)[roomId := room.(consumers := room.consumers[consumerId :=
               Consumer(consumerId, producerId, transportId, socketId, kind, true)])]
    {
      var router := media.GetRouter(roomId, freshRouterId);
      if router.Err? {
        return Err(router.error);
      }
      if !compatible {
        return Err("Cannot consume");
      }
      if roomId !in rooms || transportId !in rooms[roomId].transports {
        return Err(MissingTransportError);
      }
      var room := rooms[roomId];
      var consumer := Consumer(consumerId, producerId, transportId, socketId, kind, true);
      rooms := rooms[roomId := room.(consumers := room.consumers[consumerId := consumer])];
      r := Ok(ConsumeReply(consumerId, producerId, kind));
    }

    /** `consumer-resume`: unpauses a registered consumer; anything else changes nothing. */
    method ResumeConsumer(roomId: string, consumerId: string)
      requires Valid()
      modifies this
      ensures Valid()
      ensures roomId !in old(rooms) || consumerId !in old(rooms)[roomId].consumers ==> rooms == old(rooms)
      ensures roomId in old(rooms) && consumerId in old(rooms)[roomId].consumers ==>
        var room := old(rooms)[roomId];
        rooms == old(rooms)[roomId := room.(consumers := room.consumers[consumerId := room.consumers[consumerId].(paused := false)])]
    {
      if roomId in rooms && consumerId in rooms[roomId].consumers {
        var room := rooms[roomId];
        rooms := rooms[roomId := room.(consumers := room.consumers[consumerId := room.consumers[consumerId].(paused := false)])];
      }
    }

    /**
     * The engine closed transport `transportId`: the `transportclose` listeners drop
     * its producers and consumers from the room's registries. The transport entry
     * itself is never removed.
     */
    method TransportClosed(roomId: string, transportId: string)
      requires Valid()
      modifies this
      ensures Valid()
      ensures roomId !in old(rooms) ==> rooms == old(rooms)
      ensures roomId in old(rooms) ==>
        var room := old(rooms)[roomId];
        rooms == old(rooms)[roomId := room.(
          producers := map k | k in room.producers && room.producers[k].transportId != transportId :: room.producers[k],
          consumers := map k | k in room.consumers && room.consumers[k].transportId != transportId :: room.consumers[k])]
    {
      if roomId in rooms {
        var room := rooms[roomId];
        rooms := rooms[roomId := room.(
          producers := map k | k in room.producers && room.producers[k].transportId != transportId :: room.producers[k],
          consumers := map k | k in room.consumers && room.consumers[k].transportId != transportId :: room.consumers[k])];
      }
    }

    /**
     * The engine closed producer `producerId`: each consumer of it is dropped by its
     * `producerclose` listener, which tells the consuming socket. The producer's own
     * entry is dropped only when its transport closes.
     */
    method ProducerClosed(roomId: string, producerId: string) returns (out: seq<Emit>)
      requires Valid()
      modifies this
      ensures Valid()
      ensures roomId !in old(rooms) ==> rooms == old(rooms) && out == []
      ensures roomId in old(rooms) ==>
        var room := old(rooms)[roomId];
        rooms == old(rooms)[roomId := room.(
          consumers := map k | k in room.consumers && room.consumers[k].producerId != producerId :: room.consumers[k])]
      ensures roomId in old(rooms) ==>
        var room := old(rooms)[roomId];
        && (forall k :: k in room.consumers && room.consumers[k].producerId == producerId ==>
              Emit(ToSocket(room.consumers[k].socketId), ConsumerClosed(k)) in out)
        && (forall e :: e in out ==> ClosedNotice(room, producerId, e))
    {
      out := [];
      if roomId !in rooms {
        return;
      }
      var before := rooms;
      var room := before[roomId];
      var todo := set k | k in room.consumers && room.consumers[k].producerId == producerId;
      var kept := room.consumers;
      ConsumersLeftBounds(room.consumers, producerId);
      while todo != {}
        invariant todo <= room.consumers.Keys
        invariant forall k :: k in todo ==> room.consumers[k].producerId == producerId
        invariant kept == ConsumersLeft(room.consumers, producerId, todo)
        invariant forall k :: k in room.consumers && room.consumers[k].producerId == producerId && k !in todo ==>
          Emit(ToSocket(room.consumers[k].socketId), ConsumerClosed(k)) in out
        invariant forall e :: e in out ==> ClosedNotice(room, producerId, e)
        decreases todo
      {
        var k :| k in todo;
        ConsumersLeftStep(room.consumers, producerId, todo, k);
        kept := kept - {k};
        var notice := Emit(ToSocket(room.consumers[k].socketId), ConsumerClosed(k));
        assert ClosedNotice(room, producerId, notice);
        out := out + [notice];
        todo := todo - {k};
      }
      assert kept == map k | k in room.consumers && room.consumers[k].producerId != producerId :: room.consumers[k];
      var left := room.(consumers := kept);
      assert RoomValid(left);
      rooms := before[roomId := left];
    }

    /** `disconnect`: the socket's entry is removed from every room it is in, and each such room is told. */
    method Disconnect(socketId: string) returns (out: seq<Emit>)
      requires Valid()
      modifies this
      ensures Valid()
      ensures rooms == LeaveAll(old(rooms), socketId)
      ensures forall r :: r in rooms ==> IndexOf(rooms[r].participants, socketId).None?
      ensures forall r :: r in old(rooms) && Present(old(rooms)[r], socketId) ==>
        Emit(ToRoom(r), UpdateUsers(rooms[r].participants)) in out
      ensures forall e :: e in out ==> LeaveNotice(old(rooms), socketId, e)
    {
      out := [];
      var before := rooms;
      LeaveAllValid(before, socketId);
      var table := before;
      var todo := before.Keys;
      PartlyLeftBounds(before, socketId);
      while todo != {}
        invariant todo <= before.Keys
        invariant table == PartlyLeft(before, socketId, todo)
        invariant forall r :: r in before && r !in todo && Present(before[r], socketId) ==>
          Emit(ToRoom(r), UpdateUsers(RemoveFirst(before[r].participants, socketId))) in out
        invariant forall e :: e in out ==> LeaveNotice(before, socketId, e)
        decreases todo
      {
        var r :| r in todo;
        var left := Leave(before[r], socketId);
        PartlyLeftStep(before, socketId, todo, r);
        table := table[r := left];
        if Present(before[r], socketId) {
          var notice := Emit(ToRoom(r), UpdateUsers(left.participants));
          assert LeaveNotice(before, socketId, notice);
          out := out + [notice];
        }
        todo := todo - {r};
      }
      assert table == LeaveAll(before, socketId);
      rooms := table;
    }
  }
}
