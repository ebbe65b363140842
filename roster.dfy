/**
 * The participant roster of a room and the permission model of moderation
 * actions. Every transition is a function from the old roster to the new one;
 * the socket handlers in module Session assign its result to the room.
 */
module Roster {
  import opened Wrappers
  import opened Text
  import opened Seqs

  datatype Role = Host | CoHost | User

  predicate IsModerator(r: Role)
  {
    r == Host || r == CoHost
  }

  /** One live connection in a room: socket id, optional account id and flags. */
  datatype Participant = Participant(id: string, userId: Option<string>, name: string, role: Role,
                                     isHandRaised: bool, canProduceAudio: bool)

  /** `participants.find(p => p.id === id)` and `findIndex`: the first entry with that socket id. */
  function IndexOf(ps: seq<Participant>, id: string): (r: Option<nat>)
    ensures r.Some? ==> r.value < |ps| && ps[r.value].id == id
    ensures r.Some? ==> forall j :: 0 <= j < r.value ==> ps[j].id != id
    ensures r.None? ==> forall j :: 0 <= j < |ps| ==> ps[j].id != id
  {
    if ps == [] then None
    else if ps[0].id == id then Some(0)
    else match IndexOf(ps[1..], id)
      case None => None
      case Some(k) => Some(k + 1)
  }

  /** No two entries share a socket id. */
  predicate UniqueIds(ps: seq<Participant>)
  {
    forall i, j :: 0 <= i < j < |ps| ==> ps[i].id != ps[j].id
  }

  /** With unique ids, the entry `IndexOf` finds is the only one with that id. */
  lemma IndexOfUnique(ps: seq<Participant>, id: string)
    requires UniqueIds(ps) && IndexOf(ps, id).Some?
    ensures forall j :: 0 <= j < |ps| && ps[j].id == id ==> j == IndexOf(ps, id).value
  {
  }

  // ---------------------------------------------------------------- join-room

  /** True when the account id is truthy and listed among the meeting's stored co-hosts. */
  predicate IsStoredCoHost(userId: Option<string>, coHosts: Option<set<string>>)
  {
    userId.Some? && Truthy(userId.value) && coHosts.Some? && userId.value in coHosts.value
  }

  /** The effective role: a stored co-host joins as co-host unless the request says host. */
  function EffectiveRole(requested: Role, userId: Option<string>, coHosts: Option<set<string>>): (r: Role)
    ensures IsStoredCoHost(userId, coHosts) && requested != Host ==> r == CoHost
    ensures !(IsStoredCoHost(userId, coHosts) && requested != Host) ==> r == requested
  {
    if IsStoredCoHost(userId, coHosts) && requested != Host then CoHost else requested
  }

  /** A participant as a first join creates it: hand down, audio only for moderators. */
  function NewParticipant(id: string, userId: Option<string>, name: string, role: Role): (p: Participant)
    ensures p.id == id && p.userId == userId && p.name == name && p.role == role
    ensures !p.isHandRaised
    ensures p.canProduceAudio <==> (role == Host || role == CoHost)
  {
    Participant(id, userId, name, role, false, IsModerator(role))
  }

  /** The roster after `join-room`: an existing socket is updated in place, a new one appended. */
  function Join(ps: seq<Participant>, id: string, userId: Option<string>, name: string, role: Role): (r: seq<Participant>)
  {
    match IndexOf(ps, id)
    case Some(i) => ps[i := ps[i].(role := role, name := name)]
    case None => ps + [NewParticipant(id, userId, name, role)]
  }

  /** A socket not yet in the room is appended at the end with the initial flags. */
  lemma JoinAppendsNewSocket(ps: seq<Participant>, id: string, userId: Option<string>, name: string, role: Role)
    requires IndexOf(ps, id).None?
    ensures var r := Join(ps, id, userId, name, role);
      && |r| == |ps| + 1 && r[..|ps|] == ps
      && r[|ps|] == Participant(id, userId, name, role, false, role == Host || role == CoHost)
  {
  }

  /**
   * Re-joining with a socket id already present changes only that entry's name and
   * role; its account id, hand and audio flags and every other entry stay as they were.
   */
  lemma RejoinUpdatesInPlace(ps: seq<Participant>, id: string, userId: Option<string>, name: string, role: Role)
    requires IndexOf(ps, id).Some?
    ensures var r := Join(ps, id, userId, name, role); var i := IndexOf(ps, id).value;
      && |r| == |ps|
      && r[i].name == name && r[i].role == role
      && r[i].id == ps[i].id && r[i].userId == ps[i].userId
      && r[i].isHandRaised == ps[i].isHandRaised && r[i].canProduceAudio == ps[i].canProduceAudio
      && forall j :: 0 <= j < |ps| && j != i ==> r[j] == ps[j]
  {
  }

  /** Joining never duplicates a socket: ids stay unique and the socket is present afterwards. */
  lemma JoinKeepsIdsUnique(ps: seq<Participant>, id: string, userId: Option<string>, name: string, role: Role)
    requires UniqueIds(ps)
    ensures UniqueIds(Join(ps, id, userId, name, role))
    ensures IndexOf(Join(ps, id, userId, name, role), id).Some?
  {
    var r := Join(ps, id, userId, name, role);
    if IndexOf(ps, id).None? {
      assert r[|ps|].id == id;
    } else {
      assert r[IndexOf(ps, id).value].id == id;
    }
  }

  /**
   * An account listed among the stored co-hosts that joins on a new socket, asking for
   * any role but host, is added as a co-host with the right to produce audio.
   */
  lemma StoredCoHostJoinsAsCoHost(ps: seq<Participant>, id: string, uid: string, coHosts: set<string>, name: string, requested: Role)
    requires uid != "" && uid in coHosts && requested != Host
    requires IndexOf(ps, id).None?
    ensures var r := Join(ps, id, Some(uid), name, EffectiveRole(requested, Some(uid), Some(coHosts)));
      r[|r| - 1].role == CoHost && r[|r| - 1].canProduceAudio && r[|r| - 1].id == id
  {
  }

  // -------------------------------------------------------------- toggle-hand

  /** The roster after `toggle-hand` from socket `id`. */
  function ToggleHand(ps: seq<Participant>, id: string): (r: seq<Participant>)
  {
    match IndexOf(ps, id)
    case Some(i) => ps[i := ps[i].(isHandRaised := !ps[i].isHandRaised)]
    case None => ps
  }

  /** `toggle-hand` flips the sender's own flag and touches nothing else. */
  lemma ToggleHandFlipsOnlySender(ps: seq<Participant>, id: string)
    requires UniqueIds(ps)
    ensures var r := ToggleHand(ps, id);
      && |r| == |ps| && UniqueIds(r)
      && forall j :: 0 <= j < |ps| ==>
           if ps[j].id == id then r[j] == ps[j].(isHandRaised := !ps[j].isHandRaised) else r[j] == ps[j]
  {
    var r := ToggleHand(ps, id);
    if IndexOf(ps, id).Some? {
      IndexOfUnique(ps, id);
    }
  }

  /** Toggling twice restores the roster. */
  lemma ToggleHandTwice(ps: seq<Participant>, id: string)
    ensures ToggleHand(ToggleHand(ps, id), id) == ps
  {
    match IndexOf(ps, id)
    case None =>
    case Some(i) =>
      var r := ToggleHand(ps, id);
      assert forall j :: 0 <= j < |r| ==> r[j].id == ps[j].id;
      assert IndexOf(r, id) == Some(i) by {
        var k := IndexOf(r, id);
        assert k.Some? && k.value <= i;
        assert ps[k.value].id == id;
      }
  }

  // --------------------------------------------------------------- disconnect

  /** `splice(findIndex(...), 1)`: the roster after the socket `id` disconnects. */
  function RemoveFirst(ps: seq<Participant>, id: string): (r: seq<Participant>)
  {
    match IndexOf(ps, id)
    case Some(i) => ps[..i] + ps[i + 1..]
    case None => ps
  }

  /** Removing index `i` keeps ids unique and leaves the others in order. */
  lemma RemoveAtKeepsIdsUnique(ps: seq<Participant>, i: nat)
    requires UniqueIds(ps) && i < |ps|
    ensures UniqueIds(ps[..i] + ps[i + 1..])
    ensures forall j :: 0 <= j < |ps| - 1 ==> (ps[..i] + ps[i + 1..])[j] == if j < i then ps[j] else ps[j + 1]
  {
    var r := ps[..i] + ps[i + 1..];
    assert forall j :: 0 <= j < |r| ==> r[j] == if j < i then ps[j] else ps[j + 1];
  }

  /** The test `p => p.id !== id` with which the handlers filter a roster. */
  function NotSocket(id: string): Participant -> bool
  {
    (p: Participant) => p.id != id
  }

  /** With unique ids, removing the first entry with `id` is keeping the entries without it. */
  lemma {:induction false} RemoveFirstIsFilter(ps: seq<Participant>, id: string)
    requires UniqueIds(ps)
    ensures RemoveFirst(ps, id) == Filter(ps, NotSocket(id))
  {
    var keep := NotSocket(id);
    var k := IndexOf(ps, id);
    if k.None? {
      assert forall j :: 0 <= j < |ps| ==> keep(ps[j]);
      FilterKeepsAll(ps, keep);
    } else {
      IndexOfUnique(ps, id);
      FilterDropsOne(ps, k.value, keep);
    }
  }

  /** Disconnecting removes the socket's entry and keeps the rest in order with unique ids. */
  lemma RemoveFirstRemovesSocket(ps: seq<Participant>, id: string)
    requires UniqueIds(ps)
    ensures var r := RemoveFirst(ps, id);
      && IndexOf(r, id).None? && UniqueIds(r)
      && (IndexOf(ps, id).Some? ==> |r| == |ps| - 1)
      && r == Filter(ps, NotSocket(id))
  {
    RemoveFirstIsFilter(ps, id);
    if IndexOf(ps, id).Some? {
      RemoveAtKeepsIdsUnique(ps, IndexOf(ps, id).value);
    }
  }

  // -------------------------------------------------------------- host-action

  datatype HostAction = Mute | Kick | LowerHand | GrantAudio | RevokeAudio | PromoteToCoHost | DemoteToUser

  /** The role checks of `host-action`, in the order the handler makes them. */
  predicate Permitted(actor: Role, target: Role, action: HostAction)
  {
    && actor != User
    && !(actor == CoHost && target == Host)
    && (action == Kick ==> !(actor == CoHost && (target == Host || target == CoHost)))
    && (action == PromoteToCoHost || action == DemoteToUser ==> actor == Host)
  }

  /**
   * The permission matrix: a host may do anything to anyone, a user nothing, and a
   * co-host neither touches a host, kicks a co-host, nor promotes or demotes.
   */
  lemma PermissionMatrix(target: Role, action: HostAction)
    ensures Permitted(Host, target, action)
    ensures !Permitted(User, target, action)
    ensures Permitted(CoHost, target, action) <==>
      target != Host && (action == Kick ==> target == User)
      && action != PromoteToCoHost && action != DemoteToUser
  {
  }

  /** The change a permitted action other than `kick` makes to its target. */
  function ApplyToTarget(p: Participant, action: HostAction): (r: Participant)
    ensures r.id == p.id && r.userId == p.userId && r.name == p.name
    ensures action == PromoteToCoHost ==> r == p.(role := CoHost, canProduceAudio := true)
    ensures action == DemoteToUser ==> r == p.(role := User, canProduceAudio := false)
    ensures action == GrantAudio ==> r == p.(canProduceAudio := true)
    ensures action == RevokeAudio ==> r == p.(canProduceAudio := false)
    ensures action == LowerHand ==> r == p.(isHandRaised := false)
    ensures action == Mute || action == Kick ==> r == p
  {
    match action
    case PromoteToCoHost => p.(role := CoHost, canProduceAudio := true)
    case DemoteToUser => p.(role := User, canProduceAudio := false)
    case GrantAudio => p.(canProduceAudio := true)
    case RevokeAudio => p.(canProduceAudio := false)
    case LowerHand => p.(isHandRaised := false)
    case _ => p
  }

  /** The actor and target entries of a `host-action`, if both are in the room and the roles allow it. */
  predicate Authorized(ps: seq<Participant>, actorId: string, targetId: string, action: HostAction)
  {
    IndexOf(ps, actorId).Some? && IndexOf(ps, targetId).Some?
    && Permitted(ps[IndexOf(ps, actorId).value].role, ps[IndexOf(ps, targetId).value].role, action)
  }

  /** The roster after `host-action`. */
  function HostActionRoster(ps: seq<Participant>, actorId: string, targetId: string, action: HostAction): (r: seq<Participant>)
  {
    if !Authorized(ps, actorId, targetId, action) then ps
    else if action == Kick then Filter(ps, NotSocket(targetId))
    else var t := IndexOf(ps, targetId).value; ps[t := ApplyToTarget(ps[t], action)]
  }

  /**
   * The refusals of `host-action`: a missing actor or target, a user actor, a co-host
   * acting on the host, a co-host kicking a co-host, a non-host promoting or demoting.
   */
  lemma HostActionRefusals(ps: seq<Participant>, actorId: string, targetId: string, action: HostAction)
    requires
      || IndexOf(ps, actorId).None? || IndexOf(ps, targetId).None?
      || ps[IndexOf(ps, actorId).value].role == User
      || (ps[IndexOf(ps, actorId).value].role == CoHost && ps[IndexOf(ps, targetId).value].role == Host)
      || (action == Kick && ps[IndexOf(ps, actorId).value].role == CoHost && ps[IndexOf(ps, targetId).value].role == CoHost)
      || ((action == PromoteToCoHost || action == DemoteToUser) && ps[IndexOf(ps, actorId).value].role != Host)
    ensures !Authorized(ps, actorId, targetId, action)
    ensures HostActionRoster(ps, actorId, targetId, action) == ps
  {
  }

  /** An authorized kick removes exactly the target's entry and keeps the others in order. */
  lemma KickRemovesOnlyTarget(ps: seq<Participant>, actorId: string, targetId: string)
    requires UniqueIds(ps) && Authorized(ps, actorId, targetId, Kick)
    ensures var t := IndexOf(ps, targetId).value;
      HostActionRoster(ps, actorId, targetId, Kick) == ps[..t] + ps[t + 1..]
  {
    RemoveFirstRemovesSocket(ps, targetId);
  }

  /** Every other authorized action rewrites only the target's entry. */
  lemma ActionTouchesOnlyTarget(ps: seq<Participant>, actorId: string, targetId: string, action: HostAction)
    requires Authorized(ps, actorId, targetId, action) && action != Kick
    ensures var r := HostActionRoster(ps, actorId, targetId, action); var t := IndexOf(ps, targetId).value;
      && |r| == |ps| && r[t] == ApplyToTarget(ps[t], action)
      && forall j :: 0 <= j < |ps| && j != t ==> r[j] == ps[j]
  {
  }

  /** No `host-action` creates two entries with one socket id. */
  lemma HostActionKeepsIdsUnique(ps: seq<Participant>, actorId: string, targetId: string, action: HostAction)
    requires UniqueIds(ps)
    ensures UniqueIds(HostActionRoster(ps, actorId, targetId, action))
  {
    if Authorized(ps, actorId, targetId, action) && action == Kick {
      RemoveFirstRemovesSocket(ps, targetId);
    }
  }
}
