/**
 * The meeting room page's pure logic: the participant groups it renders, the state
 * updaters run on server events, the poll-creation request and the client-side guards.
 */
module MeetingRoom {
  import opened Wrappers
  import opened Text
  import opened Seqs
  import opened Roster
  import opened Polls
  import opened Events

  predicate InModeratorGroup(p: Participant)
  {
    p.role == Host || p.role == CoHost
  }

  predicate InRaisedHandGroup(p: Participant)
  {
    p.isHandRaised && p.role == User
  }

  predicate InNormalGroup(p: Participant)
  {
    !p.isHandRaised && p.role == User
  }

  predicate HandRaised(p: Participant)
  {
    p.isHandRaised
  }

  /** `hostsAndCoHosts`. */
  function HostsAndCoHosts(ps: seq<Participant>): seq<Participant>
  {
    Filter(ps, InModeratorGroup)
  }

  /** `raisedHandUsers`. */
  function RaisedHandUsers(ps: seq<Participant>): seq<Participant>
  {
    Filter(ps, InRaisedHandGroup)
  }

  /** `normalUsers`. */
  function NormalUsers(ps: seq<Participant>): seq<Participant>
  {
    Filter(ps, InNormalGroup)
  }

  /** `raisedHandCount`: raised hands of every role. */
  function RaisedHandCount(ps: seq<Participant>): nat
  {
    |Filter(ps, HandRaised)|
  }

  /** The three groups partition the roster: together they hold every entry exactly as often as the roster does. */
  lemma {:induction false} GroupsPartition(ps: seq<Participant>)
    ensures multiset(HostsAndCoHosts(ps)) + multiset(RaisedHandUsers(ps)) + multiset(NormalUsers(ps)) == multiset(ps)
  {
    if ps != [] {
      var p, rest := ps[0], ps[1..];
      assert ps == [p] + rest;
      GroupsPartition(rest);
      GroupsCons(p, rest);
    }
  }

  /** Each group keeps the roster's order: grouping a concatenation concatenates the groups. */
  lemma GroupOrder(ps: seq<Participant>, qs: seq<Participant>)
    ensures HostsAndCoHosts(ps + qs) == HostsAndCoHosts(ps) + HostsAndCoHosts(qs)
    ensures RaisedHandUsers(ps + qs) == RaisedHandUsers(ps) + RaisedHandUsers(qs)
    ensures NormalUsers(ps + qs) == NormalUsers(ps) + NormalUsers(qs)
  {
    FilterConcat(ps, qs, InModeratorGroup);
    FilterConcat(ps, qs, InRaisedHandGroup);
    FilterConcat(ps, qs, InNormalGroup);
  }

  /** Putting one entry in front of a roster adds it to exactly one group. */
  lemma GroupsCons(p: Participant, rest: seq<Participant>)
    ensures multiset(HostsAndCoHosts([p] + rest)) + multiset(RaisedHandUsers([p] + rest)) + multiset(NormalUsers([p] + rest))
         == multiset{p} + multiset(HostsAndCoHosts(rest)) + multiset(RaisedHandUsers(rest)) + multiset(NormalUsers(rest))
  {
    FilterCons(p, rest, InModeratorGroup);
    FilterCons(p, rest, InRaisedHandGroup);
    FilterCons(p, rest, InNormalGroup);
  }

  /** Each participant falls in exactly one group. */
  lemma ExactlyOneGroup(p: Participant)
    ensures InModeratorGroup(p) || InRaisedHandGroup(p) || InNormalGroup(p)
    ensures !(InModeratorGroup(p) && InRaisedHandGroup(p))
    ensures !(InModeratorGroup(p) && InNormalGroup(p))
    ensures !(InRaisedHandGroup(p) && InNormalGroup(p))
  {
  }

  /** The badge counts moderators' raised hands too, so it is at least the raised-hand group's size. */
  lemma {:induction false} RaisedHandCountBound(ps: seq<Participant>)
    ensures RaisedHandCount(ps) >= |RaisedHandUsers(ps)|
    ensures (forall i :: 0 <= i < |ps| && ps[i].isHandRaised ==> ps[i].role == User) ==>
      RaisedHandCount(ps) == |RaisedHandUsers(ps)|
  {
    if ps != [] {
      RaisedHandCountBound(ps[1..]);
    }
  }

  // ------------------------------------------------------- server events

  /** The part of the page state the socket listeners update. */
  datatype ClientState = ClientState(participants: seq<Participant>, poll: Option<PollView>,
                                     showPollResults: bool, messages: seq<Broadcast>)

  /** The listener for one server event; events without a listener here leave the state unchanged. */
  function OnEvent(st: ClientState, p: Payload): (r: ClientState)
  {
    match p
    case UpdateUsers(users) => st.(participants := users)
    case PollUpdate(v) => st.(poll := Some(v), showPollResults := st.showPollResults || v.isActive)
    case PollTimer(t) => st.(poll := if st.poll.Some? then Some(st.poll.value.(timeLeft := t)) else None)
    case PollEnd(_) => st.(poll := if st.poll.Some? then Some(st.poll.value.(isActive := false, timeLeft := 0)) else None)
    case ChatHistory(history) => st.(messages := history)
    case ChatBroadcast(msg) => st.(messages := st.messages + [msg])
    case _ => st
  }

  /** `poll-timer` changes only the shown poll's `timeLeft`; with no poll shown it does nothing. */
  lemma PollTimerOnlyTimeLeft(st: ClientState, t: int)
    ensures var r := OnEvent(st, PollTimer(t));
      && r.participants == st.participants && r.messages == st.messages && r.showPollResults == st.showPollResults
      && (st.poll.None? ==> r.poll.None?)
      && (st.poll.Some? ==> r.poll.Some? && r.poll.value.timeLeft == t
                            && r.poll.value.(timeLeft := st.poll.value.timeLeft) == st.poll.value)
  {
  }

  /**
   * `poll-end` closes whatever poll is shown, ignoring which poll ended; so the end of
   * a superseded poll, still ticking on the server, closes the poll that replaced it.
   */
  lemma PollEndClosesShownPoll(st: ClientState, ended: PollView)
    ensures var r := OnEvent(st, PollEnd(ended));
      && r.participants == st.participants && r.messages == st.messages
      && (st.poll.None? ==> r.poll.None?)
      && (st.poll.Some? ==> r.poll == Some(st.poll.value.(isActive := false, timeLeft := 0)))
      && (st.poll.Some? ==> !r.poll.value.isActive && r.poll.value.id == st.poll.value.id)
  {
  }

  /** `chat-broadcast` appends exactly one message at the end; `chat-history` replaces the list. */
  lemma ChatUpdaters(st: ClientState, msg: Broadcast, history: seq<Broadcast>)
    ensures OnEvent(st, ChatBroadcast(msg)).messages[..|st.messages|] == st.messages
    ensures |OnEvent(st, ChatBroadcast(msg)).messages| == |st.messages| + 1
    ensures OnEvent(st, ChatBroadcast(msg)).messages[|st.messages|] == msg
    ensures OnEvent(st, ChatHistory(history)).messages == history
  {
  }

  /** The messages after a sequence of events: the history last received, then every broadcast after it. */
  function OnEvents(st: ClientState, ps: seq<Payload>): ClientState
    decreases |ps|
  {
    if ps == [] then st else OnEvents(OnEvent(st, ps[0]), ps[1..])
  }

  /** Broadcasts received in a row are appended in arrival order. */
  lemma {:induction false} BroadcastsAppendInOrder(st: ClientState, msgs: seq<Broadcast>)
    ensures OnEvents(st, seq(|msgs|, i requires 0 <= i < |msgs| => ChatBroadcast(msgs[i]))).messages == st.messages + msgs
    decreases |msgs|
  {
    var evs := seq(|msgs|, i requires 0 <= i < |msgs| => ChatBroadcast(msgs[i]));
    if msgs != [] {
      var st1 := OnEvent(st, evs[0]);
      assert evs[1..] == seq(|msgs[1..]|, i requires 0 <= i < |msgs[1..]| => ChatBroadcast(msgs[1..][i]));
      BroadcastsAppendInOrder(st1, msgs[1..]);
      assert st.messages + [msgs[0]] + msgs[1..] == st.messages + msgs;
    } else {
      assert st.messages + msgs == st.messages;
    }
  }

  // ------------------------------------------------------------- requests

  /** The `create-poll` request the page sends. */
  datatype PollRequest = PollRequest(question: string, options: seq<string>, duration: int)

  predicate NotBlank(o: string)
  {
    !IsBlank(o)
  }

  /** `createPoll`: nothing for a blank question, else the non-blank options as typed. */
  function CreatePollRequest(question: string, options: seq<string>, duration: int): (r: Option<PollRequest>)
    ensures r.None? <==> IsBlank(question)
    ensures r.Some? ==> r.value.question == question && r.value.duration == duration
    ensures r.Some? ==> forall o :: o in r.value.options <==> o in options && !IsBlank(o)
  {
    if IsBlank(question) then None else Some(PollRequest(question, Filter(options, NotBlank), duration))
  }

  /** With no blank option, every option is sent, unchanged and in order. */
  lemma NoBlankOptionSendsAll(question: string, options: seq<string>, duration: int)
    requires !IsBlank(question)
    requires forall i :: 0 <= i < |options| ==> !IsBlank(options[i])
    ensures CreatePollRequest(question, options, duration) == Some(PollRequest(question, options, duration))
  {
    FilterKeepsAll(options, NotBlank);
  }

  /** The options sent are the non-blank ones, as `Seqs.Filter` keeps them. */
  lemma RequestOptions(question: string, options: seq<string>, duration: int)
    requires !IsBlank(question)
    ensures CreatePollRequest(question, options, duration) == Some(PollRequest(question, Filter(options, NotBlank), duration))
  {
  }

  /**
   * The options are sent in the order typed, one copy per non-blank entry, untrimmed.
   * The position of an option is the index a vote names.
   */
  lemma CreatePollKeepsOrder(question: string, a: seq<string>, o: string, b: seq<string>, duration: int)
    requires !IsBlank(question) && !IsBlank(o)
    ensures CreatePollRequest(question, a + [o] + b, duration).value.options
         == CreatePollRequest(question, a, duration).value.options + [o] + CreatePollRequest(question, b, duration).value.options
  {
    assert Filter(a + [o] + b, NotBlank) == Filter(a, NotBlank) + [o] + Filter(b, NotBlank) by {
      assert NotBlank(o);
      FilterAround(a, o, b, NotBlank);
    }
    RequestOptions(question, a + [o] + b, duration);
    RequestOptions(question, a, duration);
    RequestOptions(question, b, duration);
  }

  /** A blank entry is skipped, and the entries around it keep their order. */
  lemma CreatePollSkipsBlank(question: string, a: seq<string>, o: string, b: seq<string>, duration: int)
    requires !IsBlank(question) && IsBlank(o)
    ensures CreatePollRequest(question, a + [o] + b, duration).value.options
         == CreatePollRequest(question, a, duration).value.options + CreatePollRequest(question, b, duration).value.options
  {
    assert Filter(a + [o] + b, NotBlank) == Filter(a, NotBlank) + Filter(b, NotBlank) by {
      assert !NotBlank(o);
      FilterAround(a, o, b, NotBlank);
    }
    RequestOptions(question, a + [o] + b, duration);
    RequestOptions(question, a, duration);
    RequestOptions(question, b, duration);
  }

  /** `user?.role?.toLowerCase() === 'admin'`. */
  predicate IsAdminAccount(accountRole: Option<string>)
  {
    accountRole.Some? && Lower(accountRole.value) == "admin"
  }

  /** The role the page asks for on `join-room`. */
  function JoinRole(accountRole: Option<string>): (r: Role)
    ensures r == Host <==> IsAdminAccount(accountRole)
    ensures r != CoHost
  {
    if IsAdminAccount(accountRole) then Host else User
  }

  /** The page's own roster entry, found by its socket id. */
  function Own(ps: seq<Participant>, socketId: Option<string>): (r: Option<Participant>)
    ensures socketId.None? ==> r.None?
    ensures socketId.Some? ==> (r.Some? <==> IndexOf(ps, socketId.value).Some?)
    ensures r.Some? ==> r.value == ps[IndexOf(ps, socketId.value).value]
  {
    if socketId.None? then None
    else match IndexOf(ps, socketId.value)
      case None => None
      case Some(i) => Some(ps[i])
  }

  /** `handleHostAction`: the request is sent only by an admin account or a co-host. */
  function HostActionRequest(accountRole: Option<string>, ps: seq<Participant>, socketId: Option<string>,
                             action: HostAction, targetId: string): (r: Option<(HostAction, string)>)
    ensures r.Some? <==> IsAdminAccount(accountRole) || (Own(ps, socketId).Some? && Own(ps, socketId).value.role == CoHost)
    ensures r.Some? ==> r.value == (action, targetId)
  {
    var isCoHost := Own(ps, socketId).Some? && Own(ps, socketId).value.role == CoHost;
    if !IsAdminAccount(accountRole) && !isCoHost then None else Some((action, targetId))
  }

  /** `toggleMic`'s permission check: admins always pass, others need their own audio capability. */
  predicate MicAllowed(accountRole: Option<string>, ps: seq<Participant>, socketId: Option<string>)
  {
    IsAdminAccount(accountRole) || (Own(ps, socketId).Some? && Own(ps, socketId).value.canProduceAudio)
  }

  /**
   * For a non-admin, the client check agrees with `transport-produce`'s participant and
   * audio-capability checks on the same roster (the room and transport checks are separate).
   */
  lemma MicGuardMatchesServer(accountRole: Option<string>, ps: seq<Participant>, socketId: string)
    requires !IsAdminAccount(accountRole)
    ensures MicAllowed(accountRole, ps, Some(socketId)) <==>
      IndexOf(ps, socketId).Some? && ps[IndexOf(ps, socketId).value].canProduceAudio
  {
  }

  /** An admin joining on a new socket gets the host role and the audio capability. */
  lemma AdminJoinsWithAudio(ps: seq<Participant>, socketId: string, userId: Option<string>, name: string,
                            accountRole: Option<string>, coHosts: Option<set<string>>)
    requires IsAdminAccount(accountRole) && IndexOf(ps, socketId).None?
    ensures var r := Roster.Join(ps, socketId, userId, name, EffectiveRole(JoinRole(accountRole), userId, coHosts));
      r[|r| - 1].role == Host && r[|r| - 1].canProduceAudio
  {
  }
}
