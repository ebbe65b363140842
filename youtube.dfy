/**
 * The YouTube video-id extraction shared by the admin dashboard and the video player:
 *
 *   /^.*(youtu.be\/|v\/|u\/<user>\/|embed\/|watch\?v=|&v=)([^#&?]*).* /
 *
 * followed by "the capture if it is 11 characters long, else the input". The two
 * copies differ only in `<user>`: `\w+` in the dashboard, `\w` in the player.
 *
 * The greedy leading `.*` makes the match use the right-most position at which a
 * marker matches, among the positions `.*` can reach (it stops at the first line
 * terminator). The six alternatives start with six different characters, so at most
 * one of them matches at a position; the capture is then the longest run of
 * characters other than `#`, `&` and `?` after the marker.
 */
module YoutubeUrl {
  import opened Wrappers
  import opened Text

  /** The user segment of the `u/.../` alternative. */
  datatype UserSegment = SingleWordChar | WordRun

  /** The characters that end the captured id. */
  predicate IsStop(c: char)
  {
    c == '#' || c == '&' || c == '?'
  }

  /** The index of the first line terminator in `s`, or `|s|`: how far the leading `.*` can reach. */
  function FirstTerminator(s: string, from: nat): (t: nat)
    requires from <= |s|
    ensures from <= t <= |s|
    ensures forall i :: from <= i < t ==> !IsLineTerminator(s[i])
    ensures t < |s| ==> IsLineTerminator(s[t])
    decreases |s| - from
  {
    if from == |s| || IsLineTerminator(s[from]) then from else FirstTerminator(s, from + 1)
  }

  /** The end of the run of word characters starting at `i`. */
  function WordRunEnd(s: string, i: nat): (j: nat)
    requires i <= |s|
    ensures i <= j <= |s|
    ensures forall k :: i <= k < j ==> IsWordChar(s[k])
    ensures j < |s| ==> !IsWordChar(s[j])
    decreases |s| - i
  {
    if i == |s| || !IsWordChar(s[i]) then i else WordRunEnd(s, i + 1)
  }

  /** The end of the run of non-stop characters starting at `i`: the capture `([^#&?]*)`. */
  function CaptureEnd(s: string, i: nat): (j: nat)
    requires i <= |s|
    ensures i <= j <= |s|
    ensures forall k :: i <= k < j ==> !IsStop(s[k])
    ensures j < |s| ==> IsStop(s[j])
    decreases |s| - i
  {
    if i == |s| || IsStop(s[i]) then i else CaptureEnd(s, i + 1)
  }

  /** `youtu.be/` at `p`, where the `.` is any character but a line terminator. */
  predicate YoutuBeAt(s: string, p: nat)
  {
    OccursAt(s, "youtu", p) && p + 5 < |s| && !IsLineTerminator(s[p + 5]) && OccursAt(s, "be/", p + 6)
  }

  /** Where `u/<user>/` starting at `p` ends, if it matches there. */
  function UserMarkerEnd(s: string, p: nat, u: UserSegment): (r: Option<nat>)
    ensures r.Some? ==> p + 4 <= r.value <= |s|
  {
    if !OccursAt(s, "u/", p) then None
    else match u
      case SingleWordChar =>
        if p + 3 < |s| && IsWordChar(s[p + 2]) && s[p + 3] == '/' then Some(p + 4) else None
      case WordRun =>
        var j := WordRunEnd(s, p + 2);
        if j > p + 2 && j < |s| && s[j] == '/' then Some(j + 1) else None
  }

  /** Where the marker alternative matching at `p` ends, if one does; the alternatives in source order. */
  function MarkerEnd(s: string, p: nat, u: UserSegment): (r: Option<nat>)
    ensures r.Some? ==> p < r.value <= |s|
    ensures r.Some? <==> (YoutuBeAt(s, p) || OccursAt(s, "v/", p) || UserMarkerEnd(s, p, u).Some?
                          || OccursAt(s, "embed/", p) || OccursAt(s, "watch?v=", p) || OccursAt(s, "&v=", p))
  {
    if YoutuBeAt(s, p) then Some(p + 9)
    else if OccursAt(s, "v/", p) then Some(p + 2)
    else if UserMarkerEnd(s, p, u).Some? then UserMarkerEnd(s, p, u)
    else if OccursAt(s, "embed/", p) then Some(p + 6)
    else if OccursAt(s, "watch?v=", p) then Some(p + 8)
    else if OccursAt(s, "&v=", p) then Some(p + 3)
    else None
  }

  /** The right-most position at or below `p` where a marker matches. */
  function LastMarker(s: string, u: UserSegment, p: nat): (r: Option<nat>)
    ensures r.Some? ==> r.value <= p && MarkerEnd(s, r.value, u).Some?
    ensures r.Some? ==> forall q :: r.value < q <= p ==> MarkerEnd(s, q, u).None?
    ensures r.None? ==> forall q :: 0 <= q <= p ==> MarkerEnd(s, q, u).None?
    decreases p
  {
    if MarkerEnd(s, p, u).Some? then Some(p)
    else if p == 0 then None
    else LastMarker(s, u, p - 1)
  }

  /** Group 2 of a successful match, or `None` when the expression does not match. */
  function Capture(s: string, u: UserSegment): (r: Option<string>)
    ensures r.Some? ==> forall k :: 0 <= k < |r.value| ==> !IsStop(r.value[k])
  {
    match LastMarker(s, u, FirstTerminator(s, 0))
    case None => None
    case Some(p) =>
      var e := MarkerEnd(s, p, u).value;
      Some(s[e..CaptureEnd(s, e)])
  }

  /** `(match && match[2].length === 11) ? match[2] : urlOrId`. */
  function ExtractWith(s: string, u: UserSegment): (r: string)
    ensures r == s || (|r| == 11 && forall k :: 0 <= k < 11 ==> !IsStop(r[k]))
  {
    var m := Capture(s, u);
    if m.Some? && |m.value| == 11 then m.value else s
  }

  /** No reachable marker, or a capture of another length: the input comes back unchanged. */
  lemma NoUsableMatchKeepsInput(s: string, u: UserSegment)
    requires Capture(s, u).None? || |Capture(s, u).value| != 11
    ensures ExtractWith(s, u) == s
  {
  }

  /**
   * The capture is the run after the right-most marker the leading `.*` can reach:
   * the marker at `p` is preceded by no line terminator, no marker matches at any
   * later reachable position, and the capture runs from the marker's end to the
   * first `#`, `&` or `?` (or the end of the input).
   */
  lemma CaptureFollowsRightmostMarker(s: string, u: UserSegment)
    requires Capture(s, u).Some?
    ensures exists p: nat ::
      && p <= |s| && MarkerEnd(s, p, u).Some?
      && (forall i :: 0 <= i < p ==> !IsLineTerminator(s[i]))
      && (forall q :: p < q <= |s| && (forall i :: 0 <= i < q ==> !IsLineTerminator(s[i])) ==> MarkerEnd(s, q, u).None?)
      && Capture(s, u).value == s[MarkerEnd(s, p, u).value..CaptureEnd(s, MarkerEnd(s, p, u).value)]
  {
    var t := FirstTerminator(s, 0);
    var p := LastMarker(s, u, t).value;
    assert forall i :: 0 <= i < p ==> !IsLineTerminator(s[i]);
    forall q | p < q <= |s| && (forall i :: 0 <= i < q ==> !IsLineTerminator(s[i]))
      ensures MarkerEnd(s, q, u).None?
    {
      if t < q {
        assert false;
      }
    }
    assert Capture(s, u).value == s[MarkerEnd(s, p, u).value..CaptureEnd(s, MarkerEnd(s, p, u).value)];
  }

  /** A literal without line terminators puts none into `s` where it occurs. */
  lemma LiteralHasNoTerminator(s: string, t: string, p: nat)
    requires OccursAt(s, t, p)
    requires forall i :: 0 <= i < |t| ==> !IsLineTerminator(t[i])
    ensures forall i :: p <= i < p + |t| ==> !IsLineTerminator(s[i])
  {
    forall i | p <= i < p + |t|
      ensures !IsLineTerminator(s[i])
    {
      assert s[i] == t[i - p];
    }
  }

  /** A marker never contains a line terminator, so the capture start is reachable when the marker is. */
  lemma MarkerHasNoTerminator(s: string, p: nat, u: UserSegment)
    requires MarkerEnd(s, p, u).Some?
    ensures forall i :: p <= i < MarkerEnd(s, p, u).value ==> !IsLineTerminator(s[i])
  {
    if YoutuBeAt(s, p) {
      LiteralHasNoTerminator(s, "youtu", p);
      LiteralHasNoTerminator(s, "be/", p + 6);
    } else if OccursAt(s, "v/", p) {
      LiteralHasNoTerminator(s, "v/", p);
    } else if UserMarkerEnd(s, p, u).Some? {
      LiteralHasNoTerminator(s, "u/", p);
    } else if OccursAt(s, "embed/", p) {
      LiteralHasNoTerminator(s, "embed/", p);
    } else if OccursAt(s, "watch?v=", p) {
      LiteralHasNoTerminator(s, "watch?v=", p);
    } else {
      LiteralHasNoTerminator(s, "&v=", p);
    }
  }

  /** A literal found in a window of `s` is found at the shifted position in `s`. */
  lemma OccursAtShift(s: string, e: nat, c: string, t: string, k: nat)
    requires e + |c| <= |s| && c == s[e..e + |c|]
    requires OccursAt(c, t, k)
    ensures OccursAt(s, t, e + k)
  {
    forall m | 0 <= m < |t|
      ensures s[e + k + m] == t[m]
    {
      assert c[k + m] == t[m];
      assert c[k + m] == s[e + (k + m)];
    }
    assert s[e + k..e + k + |t|] == t;
  }

  /** A marker matching in a window `c` of `s` matches at the shifted position in `s`. */
  lemma MarkerEndShift(s: string, e: nat, c: string, k: nat, u: UserSegment)
    requires e + |c| <= |s| && c == s[e..e + |c|]
    requires MarkerEnd(c, k, u).Some?
    ensures MarkerEnd(s, e + k, u).Some?
  {
    if YoutuBeAt(c, k) {
      OccursAtShift(s, e, c, "youtu", k);
      OccursAtShift(s, e, c, "be/", k + 6);
      assert s[e + k + 5] == c[k + 5];
      assert YoutuBeAt(s, e + k);
    } else if OccursAt(c, "v/", k) {
      OccursAtShift(s, e, c, "v/", k);
    } else if UserMarkerEnd(c, k, u).Some? {
      UserMarkerEndShift(s, e, c, k, u);
    } else if OccursAt(c, "embed/", k) {
      OccursAtShift(s, e, c, "embed/", k);
    } else if OccursAt(c, "watch?v=", k) {
      OccursAtShift(s, e, c, "watch?v=", k);
    } else {
      OccursAtShift(s, e, c, "&v=", k);
    }
  }

  /** The `u/<user>/` alternative found in a window of `s` is found at the shifted position in `s`. */
  lemma UserMarkerEndShift(s: string, e: nat, c: string, k: nat, u: UserSegment)
    requires e + |c| <= |s| && c == s[e..e + |c|]
    requires UserMarkerEnd(c, k, u).Some?
    ensures UserMarkerEnd(s, e + k, u).Some?
  {
    var p := e + k;
    OccursAtShift(s, e, c, "u/", k);
    match u
    case SingleWordChar =>
      assert s[p + 2] == c[k + 2] && s[p + 3] == c[k + 3];
    case WordRun =>
      var j := WordRunEnd(c, k + 2);
      forall m | p + 2 <= m < e + j
        ensures IsWordChar(s[m])
      {
        assert s[m] == c[m - e];
      }
      assert s[e + j] == c[j];
      WordRunEndUnique(s, p + 2, e + j);
  }

  /** The end of a word run is the first non-word position. */
  lemma WordRunEndUnique(s: string, i: nat, j: nat)
    requires i <= j < |s|
    requires forall k :: i <= k < j ==> IsWordChar(s[k])
    requires !IsWordChar(s[j])
    ensures WordRunEnd(s, i) == j
  {
  }

  /**
   * The capture holds no marker the leading `.*` could reach: such a marker would also
   * match in the input, reachably and to the right of the marker that was used.
   */
  lemma NoMarkerInCapture(s: string, u: UserSegment)
    requires Capture(s, u).Some?
    ensures LastMarker(Capture(s, u).value, u, FirstTerminator(Capture(s, u).value, 0)).None?
  {
    var c := Capture(s, u).value;
    var t := FirstTerminator(s, 0);
    var p := LastMarker(s, u, t).value;
    var e := MarkerEnd(s, p, u).value;
    assert c == s[e..e + |c|];
    var tc := FirstTerminator(c, 0);
    if LastMarker(c, u, tc).Some? {
      var k := LastMarker(c, u, tc).value;
      ReachableMarkerInCapture(s, u, p, e, c, k);
      assert false;
    }
  }

  /**
   * A marker at `k` in the capture `c = s[e..]`, reachable from the start of `c`,
   * matches in `s` at `e + k`, with no line terminator before it.
   */
  lemma ReachableMarkerInCapture(s: string, u: UserSegment, p: nat, e: nat, c: string, k: nat)
    requires MarkerEnd(s, p, u) == Some(e)
    requires forall i :: 0 <= i < p ==> !IsLineTerminator(s[i])
    requires e + |c| <= |s| && c == s[e..e + |c|]
    requires MarkerEnd(c, k, u).Some? && k <= FirstTerminator(c, 0)
    ensures MarkerEnd(s, e + k, u).Some?
    ensures forall i :: 0 <= i < e + k ==> !IsLineTerminator(s[i])
  {
    MarkerEndShift(s, e, c, k, u);
    MarkerHasNoTerminator(s, p, u);
    forall i | e <= i < e + k
      ensures !IsLineTerminator(s[i])
    {
      assert s[i] == c[i - e];
    }
  }

  /** Extracting again from an extracted id changes nothing. */
  lemma ExtractIdempotent(s: string, u: UserSegment)
    ensures ExtractWith(ExtractWith(s, u), u) == ExtractWith(s, u)
  {
    if ExtractWith(s, u) != s {
      NoMarkerInCapture(s, u);
    }
  }

  /** The result is empty exactly when the input is. */
  lemma EmptyOnlyFromEmpty(s: string, u: UserSegment)
    ensures ExtractWith(s, u) == "" <==> s == ""
  {
  }

  // ------------------------------------------------------------ iframe step

  predicate IsQuote(c: char)
  {
    c == '"' || c == '\''
  }

  /** The lazy `(.*?)["']` from `i`: the first quote, if no line terminator comes before it. */
  function QuoteEnd(s: string, i: nat): (r: Option<nat>)
    requires i <= |s|
    ensures r.Some? ==> i <= r.value < |s| && IsQuote(s[r.value])
    ensures r.Some? ==> forall k :: i <= k < r.value ==> !IsQuote(s[k]) && !IsLineTerminator(s[k])
    ensures r.Some? ==> r.value < FirstTerminator(s, i)
    ensures r.None? ==> forall k :: i <= k < FirstTerminator(s, i) ==> !IsQuote(s[k])
    decreases |s| - i
  {
    if i == |s| then None
    else if IsQuote(s[i]) then Some(i)
    else if IsLineTerminator(s[i]) then None
    else QuoteEnd(s, i + 1)
  }

  /** `src=` followed by a quote at `q`, and a closing quote the lazy value can reach. */
  predicate SrcAt(s: string, q: nat)
  {
    OccursAt(s, "src=", q) && q + 4 < |s| && IsQuote(s[q + 4]) && QuoteEnd(s, q + 5).Some?
  }

  /** The left-most position at or after `q` where `src=["'](.*?)["']` matches. */
  function FirstSrc(s: string, q: nat): (r: Option<nat>)
    ensures r.Some? ==> q <= r.value && SrcAt(s, r.value)
    ensures r.Some? ==> forall k :: q <= k < r.value ==> !SrcAt(s, k)
    ensures r.None? ==> forall k :: q <= k <= |s| ==> !SrcAt(s, k)
    decreases |s| - q
  {
    if q >= |s| then None
    else if SrcAt(s, q) then Some(q)
    else FirstSrc(s, q + 1)
  }

  /** Group 1 of `urlOrId.match(/src=["'](.*?)["']/)`. */
  function SrcValue(s: string): (r: Option<string>)
    ensures r.Some? ==> forall k :: 0 <= k < |r.value| ==> !IsQuote(r.value[k]) && !IsLineTerminator(r.value[k])
  {
    match FirstSrc(s, 0)
    case None => None
    case Some(q) => Some(s[q + 5..QuoteEnd(s, q + 5).value])
  }

  /** The iframe step: inside an `<iframe` snippet, a non-empty `src` value replaces the input. */
  function IframeSubstitute(s: string): (r: string)
  {
    if Contains(s, "<iframe") && SrcValue(s).Some? && SrcValue(s).value != "" then SrcValue(s).value else s
  }

  /**
   * The iframe step changes the input only for an `<iframe` snippet, and then to the
   * first, shortest quoted `src` value: it is non-empty, follows `src=` and a quote at
   * the left-most such position, and holds neither quote nor line terminator.
   */
  lemma IframeTakesFirstSrc(s: string)
    ensures IframeSubstitute(s) != s ==> Contains(s, "<iframe")
    ensures IframeSubstitute(s) != s ==>
      exists q: nat :: SrcAt(s, q) && (forall k :: 0 <= k < q ==> !SrcAt(s, k))
        && IframeSubstitute(s) == s[q + 5..QuoteEnd(s, q + 5).value] && IframeSubstitute(s) != ""
    ensures forall k :: 0 <= k < |IframeSubstitute(s)| && IframeSubstitute(s) != s ==>
      !IsQuote(IframeSubstitute(s)[k]) && !IsLineTerminator(IframeSubstitute(s)[k])
  {
    if IframeSubstitute(s) != s {
      var q := FirstSrc(s, 0).value;
      assert SrcAt(s, q);
    }
  }
}
