/**
 * A live poll: its options and vote counts, and the one-second countdown that the
 * server's interval drives. The interval becomes an explicit `Tick` on the poll object;
 * a poll that is replaced as the room's active poll still exists and still ticks.
 */
module Polls {

  datatype PollOption = PollOption(text: string, votes: nat)

  /** The poll fields sent to clients in `poll-update` and `poll-end` (everything but the timer). */
  datatype PollView = PollView(id: string, question: string, options: seq<PollOption>,
                               isActive: bool, duration: int, timeLeft: int)

  /** What one firing of the interval emits to the room. */
  datatype TickEvent = NoTick | TimerTick(timeLeft: int) | EndTick

  /** The countdown state of a poll: seconds left, the active flag, and whether the interval is still scheduled. */
  datatype Countdown = Countdown(timeLeft: int, isActive: bool, ticking: bool)

  /** The countdown of a poll just created with `duration` seconds. */
  function Start(duration: int): (c: Countdown)
    ensures c.isActive && c.ticking && c.timeLeft == duration
  {
    Countdown(duration, true, true)
  }

  /** One firing of the interval callback, or nothing once `clearInterval` has run. */
  function Step(c: Countdown): (Countdown, TickEvent)
  {
    if !c.ticking then (c, NoTick)
    else if c.timeLeft > 0 then (c.(timeLeft := c.timeLeft - 1), TimerTick(c.timeLeft - 1))
    else (c.(isActive := false, ticking := false), EndTick)
  }

  /** `n` consecutive firings: the final countdown and the events emitted, in order. */
  function Run(c: Countdown, n: nat): (Countdown, seq<TickEvent>)
    decreases n
  {
    if n == 0 then (c, [])
    else
      var (c1, e) := Step(c);
      var (c2, es) := Run(c1, n - 1);
      (c2, [e] + es)
  }

  /** The `poll-timer` values emitted while counting down `n` seconds from `t`. */
  function Countdowns(t: int, n: nat): (es: seq<TickEvent>)
    ensures |es| == n
    ensures forall k :: 0 <= k < n ==> es[k] == TimerTick(t - 1 - k)
  {
    seq(n, k => TimerTick(t - 1 - k))
  }

  /** While time is left, every tick lowers `timeLeft` by exactly one and announces the new value. */
  lemma {:induction false} RunWhileTimeLeft(c: Countdown, n: nat)
    requires c.ticking && n <= c.timeLeft
    ensures Run(c, n) == (c.(timeLeft := c.timeLeft - n), Countdowns(c.timeLeft, n))
    decreases n
  {
    if n > 0 {
      var c1 := c.(timeLeft := c.timeLeft - 1);
      RunWhileTimeLeft(c1, n - 1);
      assert [TimerTick(c.timeLeft - 1)] + Countdowns(c1.timeLeft, n - 1) == Countdowns(c.timeLeft, n);
    }
  }

  /** Once the interval is cleared, ticks change nothing and emit nothing. */
  lemma {:induction false} NothingAfterEnd(c: Countdown, n: nat)
    requires !c.ticking
    ensures Run(c, n) == (c, seq(n, k => NoTick))
    decreases n
  {
    if n > 0 {
      NothingAfterEnd(c, n - 1);
      assert Step(c) == (c, NoTick);
      assert Run(c, n) == (Run(c, n - 1).0, [NoTick] + Run(c, n - 1).1);
      assert Run(c, n - 1).1 == seq(n - 1, k => NoTick);
      assert Run(c, n).1 == [NoTick] + seq(n - 1, k => NoTick);
      assert [NoTick] + seq(n - 1, k => NoTick) == seq(n, k => NoTick);
    } else {
      assert seq(n, k => NoTick) == [];
    }
  }

  /**
   * A poll created with `duration` seconds announces `duration - 1, ..., 0` on its first
   * `duration` ticks and ends on tick number `duration + 1`, becoming inactive with its
   * interval cleared; a duration of zero or less ends it on the first tick.
   */
  lemma EndsOnTickAfterDuration(duration: int)
    ensures var m := if duration > 0 then duration else 0;
      Run(Start(duration), m + 1)
        == (Countdown(duration - m, false, false), Countdowns(duration, m) + [EndTick])
  {
    var m := if duration > 0 then duration else 0;
    var c := Start(duration);
    if m > 0 {
      RunWhileTimeLeft(c, m);
    } else {
      assert Countdowns(duration, m) == [];
    }
    RunAppend(c, m, 1);
    var c1 := Run(c, m).0;
    assert c1 == c.(timeLeft := duration - m);
    assert c1.ticking && c1.timeLeft <= 0;
    assert Step(c1) == (Countdown(duration - m, false, false), EndTick);
    var c2 := Countdown(duration - m, false, false);
    assert Run(c2, 0) == (c2, []);
    assert Run(c1, 1) == (Run(c2, 0).0, [EndTick] + Run(c2, 0).1);
    assert [EndTick] + [] == [EndTick];
    assert Run(c, m + 1) == (Run(c1, 1).0, Run(c, m).1 + Run(c1, 1).1);
  }

  /** Running `a + b` ticks is running `a` ticks and then `b` more. */
  lemma {:induction false} RunAppend(c: Countdown, a: nat, b: nat)
    ensures Run(c, a + b) == (Run(Run(c, a).0, b).0, Run(c, a).1 + Run(Run(c, a).0, b).1)
    decreases a
  {
    if a > 0 {
      var c1 := Step(c).0;
      RunAppend(c1, a - 1, b);
      assert Run(c, a) == (Run(c1, a - 1).0, [Step(c).1] + Run(c1, a - 1).1);
      assert Run(c, a + b) == (Run(c1, a - 1 + b).0, [Step(c).1] + Run(c1, a - 1 + b).1);
      var mid := Run(c1, a - 1).0;
      assert [Step(c).1] + (Run(c1, a - 1).1 + Run(mid, b).1) == ([Step(c).1] + Run(c1, a - 1).1) + Run(mid, b).1;
    } else {
      assert [] + Run(c, b).1 == Run(c, b).1;
    }
  }

  /** `timeLeft` never drops below zero unless it started there, and never below its start. */
  lemma {:induction false} TimeLeftNeverNegative(c: Countdown, n: nat)
    ensures Run(c, n).0.timeLeft >= (if c.timeLeft < 0 then c.timeLeft else 0)
    ensures Run(c, n).0.timeLeft <= c.timeLeft
    decreases n
  {
    if n > 0 {
      TimeLeftNeverNegative(Step(c).0, n - 1);
    }
  }

  /** A countdown ends at most once: no run emits two `poll-end` events. */
  lemma {:induction false} AtMostOneEnd(c: Countdown, n: nat)
    ensures forall i, j :: 0 <= i < j < |Run(c, n).1| ==> !(Run(c, n).1[i] == EndTick && Run(c, n).1[j] == EndTick)
    decreases n
  {
    if n > 0 {
      var (c1, e) := Step(c);
      AtMostOneEnd(c1, n - 1);
      if e == EndTick {
        NothingAfterEnd(c1, n - 1);
      }
      assert Run(c, n).1 == [e] + Run(c1, n - 1).1;
    }
  }

  /** A poll is active exactly while its interval is scheduled. */
  lemma {:induction false} ActiveWhileTicking(c: Countdown, n: nat)
    requires c.isActive == c.ticking
    ensures Run(c, n).0.isActive == Run(c, n).0.ticking
    decreases n
  {
    if n > 0 {
      ActiveWhileTicking(Step(c).0, n - 1);
    }
  }

  // -------------------------------------------------------------------- votes

  /** `options.map(opt => ({ text: opt, votes: 0 }))`. */
  function ZeroVotes(texts: seq<string>): (r: seq<PollOption>)
    ensures |r| == |texts|
    ensures forall i :: 0 <= i < |r| ==> r[i].text == texts[i] && r[i].votes == 0
  {
    seq(|texts|, i requires 0 <= i < |texts| => PollOption(texts[i], 0))
  }

  /** The total number of votes cast. */
  function Sum(opts: seq<PollOption>): (r: nat)
  {
    if opts == [] then 0 else opts[0].votes + Sum(opts[1..])
  }

  /** A new poll starts with no votes at all. */
  lemma {:induction false} ZeroVotesSum(texts: seq<string>)
    ensures Sum(ZeroVotes(texts)) == 0
  {
    if texts != [] {
      ZeroVotesSum(texts[1..]);
      assert ZeroVotes(texts)[1..] == ZeroVotes(texts[1..]);
    }
  }

  /** `options[i].votes += 1`. */
  function AddVote(opts: seq<PollOption>, i: nat): (r: seq<PollOption>)
    requires i < |opts|
  {
    opts[i := opts[i].(votes := opts[i].votes + 1)]
  }

  /** A counted vote raises exactly option `i` by one, keeps every text, and raises the total by one. */
  lemma {:induction false} AddVoteCounts(opts: seq<PollOption>, i: nat)
    requires i < |opts|
    ensures |AddVote(opts, i)| == |opts|
    ensures AddVote(opts, i)[i].votes == opts[i].votes + 1
    ensures forall j :: 0 <= j < |opts| ==> AddVote(opts, i)[j].text == opts[j].text
    ensures forall j :: 0 <= j < |opts| && j != i ==> AddVote(opts, i)[j] == opts[j]
    ensures Sum(AddVote(opts, i)) == Sum(opts) + 1
    decreases |opts|
  {
    if i > 0 {
      AddVoteCounts(opts[1..], i - 1);
      assert AddVote(opts, i)[1..] == AddVote(opts[1..], i - 1);
    } else {
      assert AddVote(opts, i)[1..] == opts[1..];
    }
  }

  /** A poll object; the room's `activePoll` field refers to one, or to none. */
  class Poll {
    const id: string
    const question: string
    const duration: int
    var options: seq<PollOption>
    var isActive: bool
    var timeLeft: int
    /** Whether the poll's interval is still scheduled (`clearInterval` not yet called). */
    var ticking: bool

    /** `create-poll`'s new poll, with its interval started. */
    constructor(id: string, question: string, texts: seq<string>, duration: int)
      ensures this.id == id && this.question == question && this.duration == duration
      ensures options == ZeroVotes(texts)
      ensures Clock() == Start(duration)
    {
      this.id := id;
      this.question := question;
      this.duration := duration;
      options := ZeroVotes(texts);
      isActive := true;
      timeLeft := duration;
      ticking := true;
    }

    function Clock(): Countdown
      reads this
    {
      Countdown(timeLeft, isActive, ticking)
    }

    /** The payload of `poll-update` and `poll-end`. */
    function View(): PollView
      reads this
    {
      PollView(id, question, options, isActive, duration, timeLeft)
    }

    /** One firing of the poll's interval. */
    method Tick() returns (e: TickEvent)
      modifies this
      ensures (Clock(), e) == Step(old(Clock()))
      ensures options == old(options)
    {
      if !ticking {
        return NoTick;
      }
      if timeLeft > 0 {
        timeLeft := timeLeft - 1;
        e := TimerTick(timeLeft);
      } else {
        ticking := false;
        isActive := false;
        e := EndTick;
      }
    }

    /** `vote-poll` on this poll: counted only while active and for an existing option. */
    method Vote(i: int) returns (counted: bool)
      modifies this`options
      ensures counted <==> old(isActive) && 0 <= i < |old(options)|
      ensures counted ==> options == AddVote(old(options), i)
      ensures !counted ==> options == old(options)
    {
      counted := isActive && 0 <= i < |options|;
      if counted {
        options := options[i := options[i].(votes := options[i].votes + 1)];
      }
    }
  }
}
