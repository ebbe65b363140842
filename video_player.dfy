/** The video player's id extraction and its error state. */
module VideoPlayer {
  import opened Text
  import opened YoutubeUrl

  /** `getYoutubeId`: the right-most-marker rule with a `u/<one word character>/` user segment, no iframe step. */
  function GetYoutubeId(urlOrId: string): (r: string)
    ensures r == urlOrId || (|r| == 11 && forall k :: 0 <= k < 11 ==> !IsStop(r[k]))
  {
    ExtractWith(urlOrId, SingleWordChar)
  }

  /** Extracting from an extracted id returns it unchanged. */
  lemma GetYoutubeIdIdempotent(urlOrId: string)
    ensures GetYoutubeId(GetYoutubeId(urlOrId)) == GetYoutubeId(urlOrId)
  {
    ExtractIdempotent(urlOrId, SingleWordChar);
  }

  /** The player shows its error state when the final id is falsy. */
  predicate ShowsError(videoId: string)
  {
    !Truthy(GetYoutubeId(videoId))
  }

  /** The error state is reached exactly from an empty video id. */
  lemma ErrorStateExactlyForEmpty(videoId: string)
    ensures ShowsError(videoId) <==> videoId == ""
  {
    EmptyOnlyFromEmpty(videoId, SingleWordChar);
  }
}
