/** The poll modal: its vote total and the one-shot vote guard. */
module PollModal {
  import opened Wrappers
  import opened Polls

  /** `options.reduce((acc, opt) => acc + opt.votes, acc)`. */
  function FoldVotes(opts: seq<PollOption>, acc: nat): nat
    decreases |opts|
  {
    if opts == [] then acc else FoldVotes(opts[1..], acc + opts[0].votes)
  }

  /** `totalVotes`. */
  function TotalVotes(opts: seq<PollOption>): nat
  {
    FoldVotes(opts, 0)
  }

  /** The left fold adds up every option's votes. */
  lemma {:induction false} FoldVotesIsSum(opts: seq<PollOption>, acc: nat)
    ensures FoldVotes(opts, acc) == acc + Sum(opts)
    decreases |opts|
  {
    if opts != [] {
      FoldVotesIsSum(opts[1..], acc + opts[0].votes);
    }
  }

  /** `totalVotes` is the number of votes cast, and a counted vote raises it by one. */
  lemma TotalVotesCounts(opts: seq<PollOption>, i: nat)
    requires i < |opts|
    ensures TotalVotes(opts) == Sum(opts)
    ensures TotalVotes(AddVote(opts, i)) == TotalVotes(opts) + 1
  {
    FoldVotesIsSum(opts, 0);
    FoldVotesIsSum(AddVote(opts, i), 0);
    AddVoteCounts(opts, i);
  }

  /** One click on option `idx`: the new selection and the index passed to `onVote`, if any. */
  function VoteStep(isAdmin: bool, selected: Option<int>, idx: int): (Option<int>, Option<int>)
  {
    if isAdmin || selected.Some? then (selected, None) else (Some(idx), Some(idx))
  }

  /** A series of clicks: the final selection and every `onVote` call, in order. */
  function Clicks(isAdmin: bool, selected: Option<int>, idxs: seq<int>): (Option<int>, seq<int>)
    decreases |idxs|
  {
    if idxs == [] then (selected, [])
    else
      var (sel, call) := VoteStep(isAdmin, selected, idxs[0]);
      var (last, calls) := Clicks(isAdmin, sel, idxs[1..]);
      (last, (if call.Some? then [call.value] else []) + calls)
  }

  /** Once a selection is recorded, clicks call nothing and keep it. */
  lemma {:induction false} SelectedModalIgnoresClicks(isAdmin: bool, selected: Option<int>, idxs: seq<int>)
    requires isAdmin || selected.Some?
    ensures Clicks(isAdmin, selected, idxs) == (selected, [])
    decreases |idxs|
  {
    if idxs != [] {
      SelectedModalIgnoresClicks(isAdmin, selected, idxs[1..]);
      assert VoteStep(isAdmin, selected, idxs[0]) == (selected, None);
      var none: seq<int> := [];
      assert none + none == none;
      assert Clicks(isAdmin, selected, idxs) == (selected, none + none);
    }
  }

  /**
   * A fresh modal calls `onVote` at most once: never for an admin, otherwise exactly
   * for the first click, and the recorded selection is the index it passed.
   */
  lemma AtMostOneVote(isAdmin: bool, idxs: seq<int>)
    ensures var (sel, calls) := Clicks(isAdmin, None, idxs);
      && |calls| <= 1
      && (isAdmin ==> calls == [] && sel.None?)
      && (!isAdmin && idxs != [] ==> calls == [idxs[0]] && sel == Some(idxs[0]))
      && (!isAdmin && idxs == [] ==> calls == [] && sel.None?)
  {
    if isAdmin {
      SelectedModalIgnoresClicks(isAdmin, None, idxs);
    } else if idxs != [] {
      SelectedModalIgnoresClicks(isAdmin, Some(idxs[0]), idxs[1..]);
    }
  }

  /** The modal's own state: whether it is the admin's results view, and the recorded choice. */
  class PollModal {
    const isAdmin: bool
    var selectedIdx: Option<int>

    constructor(isAdmin: bool)
      ensures this.isAdmin == isAdmin && selectedIdx.None?
    {
      this.isAdmin := isAdmin;
      selectedIdx := None;
    }

    /** `handleVote`: records and sends the first choice of a non-admin, ignores everything else. */
    method HandleVote(idx: int) returns (sent: Option<int>)
      modifies this
      ensures (selectedIdx, sent) == VoteStep(isAdmin, old(selectedIdx), idx)
      ensures sent.Some? ==> selectedIdx == sent && old(selectedIdx).None? && !isAdmin
    {
      if isAdmin || selectedIdx.Some? {
        return None;
      }
      selectedIdx := Some(idx);
      sent := Some(idx);
    }
  }
}
