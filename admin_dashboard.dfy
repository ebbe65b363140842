/** The admin dashboard's pure helpers: video-id extraction, the search filter and list updates. */
module AdminDashboard {
  import opened Wrappers
  import opened Text
  import opened Seqs
  import opened YoutubeUrl

  /** A meeting as the dashboard lists it. */
  datatype MeetingRow = MeetingRow(id: string, title: string, description: Option<string>,
                                   youtubeId: Option<string>, scheduledTime: string, hostId: string)

  /**
   * `extractYoutubeId`: the iframe step, then the right-most-marker rule with a
   * `u/<word characters>/` user segment.
   */
  function ExtractYoutubeId(urlOrId: string): (r: string)
    ensures r == IframeSubstitute(urlOrId) || (|r| == 11 && forall k :: 0 <= k < 11 ==> !IsStop(r[k]))
  {
    ExtractWith(IframeSubstitute(urlOrId), WordRun)
  }

  /** Outside an `<iframe` snippet, extraction is the right-most-marker rule on the input itself. */
  lemma PlainInputSkipsIframeStep(urlOrId: string)
    requires !Contains(urlOrId, "<iframe")
    ensures ExtractYoutubeId(urlOrId) == ExtractWith(urlOrId, WordRun)
  {
  }

  /** The search test: the lower-cased title or id contains the lower-cased term. */
  predicate MatchesSearch(m: MeetingRow, term: string)
  {
    Contains(Lower(m.title), Lower(term)) || Contains(Lower(m.id), Lower(term))
  }

  /** `filteredMeetings`. */
  function FilteredMeetings(ms: seq<MeetingRow>, term: string): (r: seq<MeetingRow>)
  {
    Filter(ms, (m: MeetingRow) => MatchesSearch(m, term))
  }

  /** A meeting is listed exactly when it is in the list and matches the term. */
  lemma SearchKeepsExactlyMatches(ms: seq<MeetingRow>, term: string, m: MeetingRow)
    ensures m in FilteredMeetings(ms, term) <==> m in ms && MatchesSearch(m, term)
  {
    var r := FilteredMeetings(ms, term);
    if m in r {
      var i :| 0 <= i < |r| && r[i] == m;
    }
    if m in ms && MatchesSearch(m, term) {
      var i :| 0 <= i < |ms| && ms[i] == m;
    }
  }

  /** Every text contains the empty text. */
  lemma ContainsEmpty(s: string)
    ensures Contains(s, "")
  {
    assert OccursAt(s, "", 0);
  }

  /** An empty search term lists every meeting, in order. */
  lemma EmptySearchKeepsAll(ms: seq<MeetingRow>)
    ensures FilteredMeetings(ms, "") == ms
  {
    forall i | 0 <= i < |ms|
      ensures MatchesSearch(ms[i], "")
    {
      assert Lower("") == "";
      ContainsEmpty(Lower(ms[i].title));
    }
    FilterKeepsAll(ms, (m: MeetingRow) => MatchesSearch(m, ""));
  }

  /** `meetings.map(m => m._id === updated._id ? updated : m)`. */
  function AfterUpdate(ms: seq<MeetingRow>, updated: MeetingRow): (r: seq<MeetingRow>)
    ensures |r| == |ms|
    ensures forall i :: 0 <= i < |ms| ==> r[i] == if ms[i].id == updated.id then updated else ms[i]
  {
    seq(|ms|, i requires 0 <= i < |ms| => if ms[i].id == updated.id then updated else ms[i])
  }

  /** The ids listed, in order. */
  function Ids(ms: seq<MeetingRow>): (r: seq<string>)
    ensures |r| == |ms| && forall i :: 0 <= i < |ms| ==> r[i] == ms[i].id
  {
    seq(|ms|, i requires 0 <= i < |ms| => ms[i].id)
  }

  /** An update keeps the listed ids and their order, and touches no entry with another id. */
  lemma UpdateKeepsIdsAndOthers(ms: seq<MeetingRow>, updated: MeetingRow)
    ensures Ids(AfterUpdate(ms, updated)) == Ids(ms)
    ensures forall m :: m in ms && m.id != updated.id ==> m in AfterUpdate(ms, updated)
    ensures forall m :: m in AfterUpdate(ms, updated) ==> m == updated || (m in ms && m.id != updated.id)
  {
    var r := AfterUpdate(ms, updated);
    forall m | m in ms && m.id != updated.id
      ensures m in r
    {
      var i :| 0 <= i < |ms| && ms[i] == m;
      assert r[i] == m;
    }
  }

  /** `meetings.filter(m => m._id !== id)`. */
  function AfterDelete(ms: seq<MeetingRow>, id: string): (r: seq<MeetingRow>)
  {
    Filter(ms, (m: MeetingRow) => m.id != id)
  }

  /** A delete removes exactly the entries with that id; the rest stay, in order. */
  lemma {:induction false} DeleteRemovesOnlyThatId(ms: seq<MeetingRow>, id: string)
    ensures forall m :: m in AfterDelete(ms, id) <==> m in ms && m.id != id
    ensures forall a, b :: AfterDelete(a + b, id) == AfterDelete(a, id) + AfterDelete(b, id)
  {
    var r := AfterDelete(ms, id);
    forall m | m in ms && m.id != id
      ensures m in r
    {
      var i :| 0 <= i < |ms| && ms[i] == m;
    }
    forall a, b
      ensures AfterDelete(a + b, id) == AfterDelete(a, id) + AfterDelete(b, id)
    {
      FilterConcat(a, b, (m: MeetingRow) => m.id != id);
    }
  }
}
