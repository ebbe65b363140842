/**
 * The stored meeting document and the meeting REST controller.
 * The MongoDB collection is a class holding a map from document id to document;
 * every Mongoose call the socket handlers make is one `FindByIdAndUpdate`.
 */
module Meetings {
  import opened Wrappers
  import opened Text

  datatype Status = Upcoming | Live | Ended

  /** One persisted chat broadcast (`IBroadcast`). */
  datatype StoredBroadcast = StoredBroadcast(message: string, senderName: string, timestamp: int)

  /** A meeting document (`IMeeting`); dates are kept as the strings the client sends. */
  datatype MeetingDoc = MeetingDoc(
    title: string,
    description: Option<string>,
    scheduledTime: string,
    youtubeId: Option<string>,
    hostId: string,
    coHosts: set<string>,
    broadcasts: seq<StoredBroadcast>,
    status: Status)

  /** The id used as host when the request carries no authenticated user. */
  const NoHostId: string := "000000000000000000000000"

  /** A string field of a JSON request body: missing, `null`, or a string. */
  datatype JsonField = Absent | Null | Str(text: string)

  /** JavaScript truthiness of a request field. */
  predicate IsTruthy(f: JsonField)
  {
    f.Str? && Truthy(f.text)
  }

  /** `undefined`/`null` become a missing document field. */
  function AsOption(f: JsonField): (r: Option<string>)
    ensures r.Some? <==> f.Str?
    ensures f.Str? ==> r.value == f.text
  {
    if f.Str? then Some(f.text) else None
  }

  datatype CreateBody = CreateBody(title: JsonField, description: JsonField, youtubeId: JsonField)

  datatype UpdateBody = UpdateBody(title: JsonField, description: JsonField, youtubeId: JsonField, scheduledTime: JsonField)

  datatype Reply = Message(text: string) | OneMeeting(id: string, meeting: MeetingDoc)

  /** An HTTP status code and JSON body. */
  datatype Response = Response(status: nat, body: Reply)

  predicate IsHexDigit(c: char)
  {
    ('0' <= c <= '9') || ('a' <= c <= 'f') || ('A' <= c <= 'F')
  }

  /** Strings Mongoose can cast to an ObjectId: 24 hexadecimal digits. */
  predicate CastsToObjectId(id: string)
  {
    |id| == 24 && forall i :: 0 <= i < |id| ==> IsHexDigit(id[i])
  }

  /** The required-field check of `createMeeting`: title and video id must both be truthy. */
  predicate HasRequiredFields(body: CreateBody)
  {
    IsTruthy(body.title) && IsTruthy(body.youtubeId)
  }

  /** The document `createMeeting` stores for a valid request. */
  function NewMeeting(body: CreateBody, user: Option<string>, now: string): (d: MeetingDoc)
    requires HasRequiredFields(body)
    ensures d.status == Upcoming
    ensures d.hostId == if user.Some? then user.value else NoHostId
    ensures d.title == body.title.text && d.youtubeId == Some(body.youtubeId.text)
    ensures d.description == AsOption(body.description)
    ensures d.scheduledTime == now && d.coHosts == {} && d.broadcasts == []
  {
    MeetingDoc(body.title.text, AsOption(body.description), now, Some(body.youtubeId.text),
               if user.Some? then user.value else NoHostId, {}, [], Upcoming)
  }

  /** The field merge of `updateMeeting`. */
  function Merge(d: MeetingDoc, body: UpdateBody): (r: MeetingDoc)
    ensures r.title == if IsTruthy(body.title) then body.title.text else d.title
    ensures r.description == if IsTruthy(body.description) then Some(body.description.text) else d.description
    ensures r.youtubeId == if body.youtubeId.Absent? then d.youtubeId else AsOption(body.youtubeId)
    ensures r.scheduledTime == if IsTruthy(body.scheduledTime) then body.scheduledTime.text else d.scheduledTime
    ensures r.hostId == d.hostId && r.coHosts == d.coHosts && r.broadcasts == d.broadcasts && r.status == d.status
  {
    d.(title := if IsTruthy(body.title) then body.title.text else d.title,
       description := if IsTruthy(body.description) then Some(body.description.text) else d.description,
       youtubeId := if body.youtubeId.Absent? then d.youtubeId else AsOption(body.youtubeId),
       scheduledTime := if IsTruthy(body.scheduledTime) then body.scheduledTime.text else d.scheduledTime)
  }

  /** A falsy title, description or time never erases the stored value. */
  lemma FalsyFieldsKeepStoredValues(d: MeetingDoc, body: UpdateBody)
    requires !IsTruthy(body.title) && !IsTruthy(body.description) && !IsTruthy(body.scheduledTime)
    requires body.youtubeId.Absent?
    ensures Merge(d, body) == d
  {
  }

  /** The video id is overwritten by any value that is present, the empty string included. */
  lemma EmptyVideoIdOverwrites(d: MeetingDoc, body: UpdateBody)
    requires body.youtubeId == Str("")
    ensures Merge(d, body).youtubeId == Some("")
  {
  }

  /** Sending the same update twice has the effect of sending it once. */
  lemma MergeIdempotent(d: MeetingDoc, body: UpdateBody)
    ensures Merge(Merge(d, body), body) == Merge(d, body)
  {
  }

  /** One `findByIdAndUpdate` operator. */
  datatype Update =
    | AddCoHost(userId: string)          // $addToSet: { coHosts }
    | PullCoHost(userId: string)         // $pull: { coHosts }
    | PushBroadcast(entry: StoredBroadcast)
    | SetYoutubeId(videoId: string)

  function Apply(d: MeetingDoc, u: Update): (r: MeetingDoc)
    ensures u.AddCoHost? ==> r == d.(coHosts := d.coHosts + {u.userId})
    ensures u.PullCoHost? ==> r == d.(coHosts := d.coHosts - {u.userId})
    ensures u.PushBroadcast? ==> r == d.(broadcasts := d.broadcasts + [u.entry])
    ensures u.SetYoutubeId? ==> r == d.(youtubeId := Some(u.videoId))
  {
    match u
    case AddCoHost(uid) => d.(coHosts := d.coHosts + {uid})
    case PullCoHost(uid) => d.(coHosts := d.coHosts - {uid})
    case PushBroadcast(b) => d.(broadcasts := d.broadcasts + [b])
    case SetYoutubeId(v) => d.(youtubeId := Some(v))
  }

  /** The `Meeting` collection. */
  class MeetingDb {
    var docs: map<string, MeetingDoc>

    constructor()
      ensures docs == map[]
    {
      docs := map[];
    }

    /** `Meeting.findById`; a failed read is reported as `None` by the caller. */
    function FindById(id: string): (r: Option<MeetingDoc>)
      reads this
      ensures r.Some? <==> id in docs
      ensures r.Some? ==> r.value == docs[id]
    {
      if id in docs then Some(docs[id]) else None
    }

    /**
     * `Meeting.findByIdAndUpdate(id, u)` as the socket handlers use it: a missing id
     * is a no-op, and a failed write (`ok` false) is caught and only logged.
     */
    method FindByIdAndUpdate(id: string, u: Update, ok: bool)
      modifies this
      ensures docs == if ok && id in old(docs) then old(docs)[id := Apply(old(docs)[id], u)] else old(docs)
    {
      if ok && id in docs {
        docs := docs[id := Apply(docs[id], u)];
      }
    }
  }

  /** `createMeeting`: 400 without a truthy title and video id, else a new upcoming meeting. */
  method CreateMeeting(db: MeetingDb, body: CreateBody, user: Option<string>, newId: string, now: string)
    returns (res: Response)
    requires CastsToObjectId(newId) && newId !in db.docs
    modifies db
    ensures !HasRequiredFields(body) ==>
      res == Response(400, Message("Please provide all required fields")) && db.docs == old(db.docs)
    ensures HasRequiredFields(body) ==>
      && db.docs == old(db.docs)[newId := NewMeeting(body, user, now)]
      && res == Response(201, OneMeeting(newId, NewMeeting(body, user, now)))
  {
    if !IsTruthy(body.title) || !IsTruthy(body.youtubeId) {
      return Response(400, Message("Please provide all required fields"));
    }
    var m := NewMeeting(body, user, now);
    db.docs := db.docs[newId := m];
    res := Response(201, OneMeeting(newId, m));
  }

  /** `getMeeting`: 404 for an unknown id and for one that is not an ObjectId. */
  method GetMeeting(db: MeetingDb, id: string) returns (res: Response)
    ensures res.status == 404 <==> !CastsToObjectId(id) || id !in db.docs
    ensures res.status != 404 ==> res == Response(200, OneMeeting(id, db.docs[id]))
    ensures res.status == 404 ==> res.body == Message("Meeting not found")
  {
    if !CastsToObjectId(id) {
      return Response(404, Message("Meeting not found"));
    }
    var found := db.FindById(id);
    if found.None? {
      return Response(404, Message("Meeting not found"));
    }
    res := Response(200, OneMeeting(id, found.value));
  }

  /**
   * `updateMeeting`: loads the document, assigns its fields one by one, saves it.
   * A malformed id reaches the generic handler (500); an unknown id answers 404.
   * `scheduledTime` is a `Date` path of the schema: `timeCasts` says whether Mongoose
   * can cast the sent value to a date. A truthy value it cannot cast makes `save()`
   * reject, which the generic handler answers with 500, and nothing is stored.
   */
  method UpdateMeeting(db: MeetingDb, id: string, body: UpdateBody, timeCasts: bool) returns (res: Response)
    modifies db
    ensures !CastsToObjectId(id) ==> res == Response(500, Message("Server Error")) && db.docs == old(db.docs)
    ensures CastsToObjectId(id) && id !in old(db.docs) ==>
      res == Response(404, Message("Meeting not found")) && db.docs == old(db.docs)
    ensures CastsToObjectId(id) && id in old(db.docs) && IsTruthy(body.scheduledTime) && !timeCasts ==>
      res == Response(500, Message("Server Error")) && db.docs == old(db.docs)
    ensures CastsToObjectId(id) && id in old(db.docs) && (!IsTruthy(body.scheduledTime) || timeCasts) ==>
      && db.docs == old(db.docs)[id := Merge(old(db.docs)[id], body)]
      && res == Response(200, OneMeeting(id, db.docs[id]))
  {
    if !CastsToObjectId(id) {
      return Response(500, Message("Server Error"));
    }
    var found := db.FindById(id);
    if found.None? {
      return Response(404, Message("Meeting not found"));
    }
    var m := found.value;
    m := m.(title := if IsTruthy(body.title) then body.title.text else m.title);
    m := m.(description := if IsTruthy(body.description) then Some(body.description.text) else m.description);
    m := m.(youtubeId := if body.youtubeId.Absent? then m.youtubeId else AsOption(body.youtubeId));
    m := m.(scheduledTime := if IsTruthy(body.scheduledTime) then body.scheduledTime.text else m.scheduledTime);
    if IsTruthy(body.scheduledTime) && !timeCasts {
      return Response(500, Message("Server Error"));
    }
    db.docs := db.docs[id := m];
    res := Response(200, OneMeeting(id, m));
  }

  /** `deleteMeeting`: 500 for a malformed id, 404 for an unknown one, else the document is removed. */
  method DeleteMeeting(db: MeetingDb, id: string) returns (res: Response)
    modifies db
    ensures !CastsToObjectId(id) ==> res == Response(500, Message("Server Error")) && db.docs == old(db.docs)
    ensures CastsToObjectId(id) && id !in old(db.docs) ==>
      res == Response(404, Message("Meeting not found")) && db.docs == old(db.docs)
    ensures CastsToObjectId(id) && id in old(db.docs) ==>
      res == Response(200, Message("Meeting removed")) && db.docs == old(db.docs) - {id}
  {
    if !CastsToObjectId(id) {
      return Response(500, Message("Server Error"));
    }
    var found := db.FindById(id);
    if found.None? {
      return Response(404, Message("Meeting not found"));
    }
    db.docs := db.docs - {id};
    res := Response(200, Message("Meeting removed"));
  }
}
