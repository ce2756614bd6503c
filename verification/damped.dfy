/**
 * The animation loop of the damped program: the undamped loop plus a settle
 * monitor. After each advance the monitor looks at the sample now under the
 * cursor; whenever its magnitude is below the threshold it adds one frame's
 * worth of time (1/30) to a dwell counter that is never reset, and the loop
 * stops once the counter reaches two time units.
 */
module Damped {
  import opened Loop
  import opened Playback

  /** Time credited per in-threshold frame (the program assumes 30 frames per second). */
  const FrameTime: real := 1.0 / 30.0
  /** Total dwell time after which the simulation ends. */
  const SettleTime: real := 2.0
  /** In-threshold frames needed to reach `SettleTime` in exact arithmetic. */
  const SettleFrames: nat := 60

  function Abs(x: real): real {
    if x < 0.0 then -x else x
  }

  /** The settle test: strictly closer to the vertical than the threshold. */
  predicate Near(angle: real, threshold: real) {
    Abs(angle) < threshold
  }

  /** The loop's state: pendulum, dwell counter (`time_at_zero`) and `running`. */
  datatype Game = Game(pendulum: Pendulum, dwell: real, running: bool)

  /** Entering `run_game`: cursor at 0, nothing accumulated, running. */
  function Start(angles: seq<real>): (g: Game)
    ensures g.pendulum == New(angles) && g.dwell == 0.0 && g.running
  {
    Game(New(angles), 0.0, true)
  }

  /** The sample one past the cursor, which the settle check of the next frame reads. */
  function NextSample(p: Pendulum): real
    requires |p.angles| > 0
  {
    p.angles[(p.index + 1) % |p.angles|]
  }

  /** One iteration of the loop body, given the events polled at its top
      and the angular threshold. */
  function Frame(g: Game, events: seq<Event>, threshold: real): (r: Result<Game>)
    ensures r.Err? <==> !Valid(g.pendulum)
    ensures r.Ok? ==> Update(g.pendulum) == Ok(r.value.pendulum)
    ensures r.Ok? ==> g.dwell <= r.value.dwell
    ensures r.Ok? ==>
      (r.value.dwell == g.dwell + FrameTime <==> Near(NextSample(g.pendulum), threshold))
    ensures r.Ok? ==>
      (r.value.dwell == g.dwell <==> !Near(NextSample(g.pendulum), threshold))
    ensures r.Ok? ==>
      (r.value.running <==> g.running && !QuitRequested(events) && r.value.dwell < SettleTime)
  {
    var running := if QuitRequested(events) then false else g.running;
    match Draw(g.pendulum)
    case Err(f) => Err(f)
    case Ok(_) =>
      match Update(g.pendulum)
      case Err(f) => Err(f)
      case Ok(p) =>
        var current := p.angles[p.index];
        var dwell := if Abs(current) < threshold then g.dwell + FrameTime else g.dwell;
        var running' := if dwell >= SettleTime then false else running;
        Ok(Game(p, dwell, running'))
  }

  /** The `while running` loop fed one event batch per iteration. */
  function Run(g: Game, inputs: seq<seq<Event>>, threshold: real): (r: Result<Game>)
    ensures r.Err? <==> g.running && |inputs| > 0 && !Valid(g.pendulum)
    decreases |inputs|
  {
    if !g.running || |inputs| == 0 then Ok(g)
    else match Frame(g, inputs[0], threshold)
      case Err(f) => Err(f)
      case Ok(h) => Run(h, inputs[1..], threshold)
  }

  /** Reference count: among frames 1..k, those whose settle check passes.
      Frame `f` checks the sample at `f mod len`, the one after the sample it drew. */
  function SettleCount(angles: seq<real>, threshold: real, k: nat): (c: nat)
    requires |angles| > 0
    ensures c <= k
  {
    PassedFramesBound(angles, threshold, k);
    |PassedFrames(angles, threshold, k)|
  }

  /** At most one passed check per frame. */
  lemma {:induction false} PassedFramesBound(angles: seq<real>, threshold: real, k: nat)
    requires |angles| > 0
    ensures |PassedFrames(angles, threshold, k)| <= k
    decreases k
  {
    if k > 0 {
      PassedFramesBound(angles, threshold, k - 1);
      assert PassedFrames(angles, threshold, k) <= PassedFrames(angles, threshold, k - 1) + {k};
      SubsetCard(PassedFrames(angles, threshold, k), PassedFrames(angles, threshold, k - 1) + {k});
    }
  }

  lemma SubsetCard<T>(a: set<T>, b: set<T>)
    requires a <= b
    ensures |a| <= |b|
  {
    assert b == a + (b - a);
  }

  /** The frames among 1..k whose settle check passes. */
  function PassedFrames(angles: seq<real>, threshold: real, k: nat): set<nat>
    requires |angles| > 0
  {
    set f: nat | 1 <= f <= k && Passes(angles, threshold, f)
  }

  /** The settle check of frame `f` passes. */
  predicate Passes(angles: seq<real>, threshold: real, f: nat)
    requires |angles| > 0
  {
    Near(angles[f % |angles|], threshold)
  }

  lemma SettleCountStep(angles: seq<real>, threshold: real, k: nat)
    requires |angles| > 0
    ensures SettleCount(angles, threshold, k + 1)
         == SettleCount(angles, threshold, k)
            + (if Near(angles[(k + 1) % |angles|], threshold) then 1 else 0)
  {
    var s := PassedFrames(angles, threshold, k);
    var s' := PassedFrames(angles, threshold, k + 1);
    if Passes(angles, threshold, k + 1) {
      assert s' == s + {k + 1};
    } else {
      assert s' == s;
    }
  }

  lemma {:induction false} SettleCountMonotone(angles: seq<real>, threshold: real, i: nat, j: nat)
    requires |angles| > 0 && i <= j
    ensures SettleCount(angles, threshold, i) <= SettleCount(angles, threshold, j)
    decreases j
  {
    if i < j {
      SettleCountMonotone(angles, threshold, i, j - 1);
      SettleCountStep(angles, threshold, j - 1);
    }
  }

  lemma SettleCountZero(angles: seq<real>, threshold: real)
    requires |angles| > 0
    ensures SettleCount(angles, threshold, 0) == 0
  {
  }

  /** The state the loop is in after `k` quit-free frames if it has not
      stopped earlier: cursor at `k mod len`, the counter holding one frame
      time per passed check so far, still running unless that reached two. */
  function AfterFrames(angles: seq<real>, threshold: real, k: nat): Game
    requires |angles| > 0
  {
    var c := SettleCount(angles, threshold, k);
    Game(Pendulum(angles, k % |angles|), c as real * FrameTime, c < SettleFrames)
  }

  lemma {:induction false} FrameAdvancesCount(angles: seq<real>, threshold: real, k: nat, events: seq<Event>)
    requires |angles| > 0
    requires SettleCount(angles, threshold, k) < SettleFrames
    ensures !QuitRequested(events) ==>
      Frame(AfterFrames(angles, threshold, k), events, threshold)
        == Ok(AfterFrames(angles, threshold, k + 1))
    ensures QuitRequested(events) ==>
      Frame(AfterFrames(angles, threshold, k), events, threshold)
        == Ok(AfterFrames(angles, threshold, k + 1).(running := false))
  {
    ModSucc(k, |angles|);
    SettleCountStep(angles, threshold, k);
  }

  lemma {:induction false} RunFrom(angles: seq<real>, threshold: real, s: nat, inputs: seq<seq<Event>>)
    requires |angles| > 0 && NoQuit(inputs)
    requires SettleCount(angles, threshold, s) < SettleFrames
    requires |inputs| == 0 || SettleCount(angles, threshold, s + |inputs| - 1) < SettleFrames
    ensures Run(AfterFrames(angles, threshold, s), inputs, threshold)
         == Ok(AfterFrames(angles, threshold, s + |inputs|))
    decreases |inputs|
  {
    if |inputs| > 0 {
      FrameAdvancesCount(angles, threshold, s, inputs[0]);
      assert NoQuit(inputs[1..]) by {
        forall k | 0 <= k < |inputs[1..]|
          ensures !QuitRequested(inputs[1..][k])
        {
          assert inputs[1..][k] == inputs[k + 1];
        }
      }
      if |inputs| > 1 {
        SettleCountMonotone(angles, threshold, s + 1, s + |inputs| - 1);
        RunFrom(angles, threshold, s + 1, inputs[1..]);
      }
    }
  }

  /** Total dwell, not consecutive dwell: while the loop has not stopped
      before the last of `n` quit-free frames, the counter equals one frame
      time per passed check among ALL `n` frames, the cursor is at
      `n mod len`, and the loop is running exactly when fewer than 60
      checks passed. */
  lemma {:induction false} DwellCountsAllFrames(angles: seq<real>, threshold: real, inputs: seq<seq<Event>>)
    requires |angles| > 0 && NoQuit(inputs)
    requires |inputs| == 0 || SettleCount(angles, threshold, |inputs| - 1) < SettleFrames
    ensures Run(Start(angles), inputs, threshold) == Ok(AfterFrames(angles, threshold, |inputs|))
  {
    SettleCountZero(angles, threshold);
    ModUnique(0, 0, 0, |angles|);
    assert AfterFrames(angles, threshold, 0) == Start(angles);
    RunFrom(angles, threshold, 0, inputs);
  }

  /** The first settle check reads sample 1 (mod len), not the sample 0
      that the first frame draws. */
  lemma FirstCheckReadsSecondSample(angles: seq<real>, events: seq<Event>, threshold: real)
    requires |angles| > 0
    ensures Frame(Start(angles), events, threshold).Ok?
    ensures Frame(Start(angles), events, threshold).value.dwell
         == (if Near(angles[1 % |angles|], threshold) then FrameTime else 0.0)
  {
  }

  /** Once `running` is false no further frame executes: later event
      batches change nothing. */
  lemma {:induction false} NothingAfterStop(g: Game, x: seq<seq<Event>>, y: seq<seq<Event>>, threshold: real)
    requires Run(g, x, threshold).Ok? && !Run(g, x, threshold).value.running
    ensures Run(g, x + y, threshold) == Run(g, x, threshold)
    decreases |x|
  {
    RunAppend(g, x, y, threshold);
  }

  /** Running on `x` then on `y` is running on `x + y`. */
  lemma {:induction false} RunAppend(g: Game, x: seq<seq<Event>>, y: seq<seq<Event>>, threshold: real)
    requires Run(g, x, threshold).Ok?
    ensures Run(g, x + y, threshold) == Run(Run(g, x, threshold).value, y, threshold)
    decreases |x|
  {
    if |x| == 0 {
      assert x + y == y;
    } else if g.running {
      assert (x + y)[0] == x[0] && (x + y)[1..] == x[1..] + y;
      RunAppend(Frame(g, x[0], threshold).value, x[1..], y, threshold);
    }
  }

  /** A QUIT in frame `q`, before the settle rule fires: the run ends after
      frame `q` with the cursor at `q mod len`, the counter crediting every
      passed check of frames 1..q, and the loop not running. */
  lemma {:induction false} QuitBeforeSettle(angles: seq<real>, threshold: real, inputs: seq<seq<Event>>, q: nat)
    requires |angles| > 0 && 1 <= q <= |inputs|
    requires NoQuit(inputs[..q - 1]) && QuitRequested(inputs[q - 1])
    requires SettleCount(angles, threshold, q - 1) < SettleFrames
    ensures Run(Start(angles), inputs, threshold)
         == Ok(Game(Pendulum(angles, q % |angles|),
                    SettleCount(angles, threshold, q) as real * FrameTime, false))
  {
    if q > 1 {
      SettleCountMonotone(angles, threshold, q - 2, q - 1);
    }
    DwellCountsAllFrames(angles, threshold, inputs[..q - 1]);
    FrameAdvancesCount(angles, threshold, q - 1, inputs[q - 1]);
    RunAppend(Start(angles), inputs[..q - 1], inputs[q - 1..], threshold);
    assert inputs[..q - 1] + inputs[q - 1..] == inputs;
    assert inputs[q - 1..][0] == inputs[q - 1];
  }

  /** A QUIT does not interrupt the frame in which it is seen: that frame
      still advances the cursor and runs the settle check, and the loop
      exits right after it. */
  lemma QuitEndsAfterCurrentFrame(g: Game, events: seq<Event>, rest: seq<seq<Event>>, threshold: real)
    requires g.running && Valid(g.pendulum) && QuitRequested(events)
    ensures Run(g, [events] + rest, threshold) == Frame(g, events, threshold)
    ensures !Frame(g, events, threshold).value.running
  {
  }

  lemma NoQuitPrefix(inputs: seq<seq<Event>>, m: nat)
    requires NoQuit(inputs) && m <= |inputs|
    ensures NoQuit(inputs[..m])
  {
  }

  /** In exact arithmetic `c` frame times reach two units exactly when `c >= 60`,
      and 60 of them make exactly two. */
  lemma DwellReachesSettleTime(c: nat)
    ensures c as real * FrameTime >= SettleTime <==> c >= SettleFrames
    ensures c == SettleFrames ==> c as real * FrameTime == SettleTime
  {
  }

  /** The exact stopping frame: if the settle check passes for the 60th
      time at frame `m` and no QUIT arrives, the loop runs through frames
      1..m-1, stops at the end of frame `m` with the counter at exactly two,
      and ignores everything after. */
  lemma {:induction false} StopsAtFirstSettledFrame(angles: seq<real>, threshold: real, inputs: seq<seq<Event>>, m: nat)
    requires |angles| > 0 && NoQuit(inputs) && 1 <= m <= |inputs|
    requires SettleCount(angles, threshold, m - 1) < SettleFrames <= SettleCount(angles, threshold, m)
    ensures forall k :: 0 <= k < m ==>
      Run(Start(angles), inputs[..k], threshold).Ok? && Run(Start(angles), inputs[..k], threshold).value.running
    ensures Run(Start(angles), inputs, threshold) == Ok(Game(Pendulum(angles, m % |angles|), SettleTime, false))
  {
    DwellReachesSettleTime(SettleFrames);
    forall k | 0 <= k < m
      ensures Run(Start(angles), inputs[..k], threshold).Ok? && Run(Start(angles), inputs[..k], threshold).value.running
    {
      NoQuitPrefix(inputs, k);
      if k > 0 {
        SettleCountMonotone(angles, threshold, k - 1, m - 1);
      }
      SettleCountMonotone(angles, threshold, k, m - 1);
      DwellCountsAllFrames(angles, threshold, inputs[..k]);
    }
    NoQuitPrefix(inputs, m);
    DwellCountsAllFrames(angles, threshold, inputs[..m]);
    SettleCountStep(angles, threshold, m - 1);
    assert SettleCount(angles, threshold, m) == SettleFrames;
    NothingAfterStop(Start(angles), inputs[..m], inputs[m..], threshold);
    assert inputs[..m] + inputs[m..] == inputs;
  }

  lemma {:induction false} SettleCountAllNear(angles: seq<real>, threshold: real, k: nat)
    requires |angles| > 0
    requires forall i :: 0 <= i < |angles| ==> Near(angles[i], threshold)
    ensures SettleCount(angles, threshold, k) == k
  {
    if k == 0 {
      SettleCountZero(angles, threshold);
    } else {
      SettleCountAllNear(angles, threshold, k - 1);
      SettleCountStep(angles, threshold, k - 1);
    }
  }

  /** A trajectory that never leaves the threshold (an all-zero one, say):
      the loop keeps running for frames 1..59 and stops at frame 60. */
  lemma {:induction false} AllNearStopsAtSixty(angles: seq<real>, threshold: real, inputs: seq<seq<Event>>)
    requires |angles| > 0 && NoQuit(inputs)
    requires forall i :: 0 <= i < |angles| ==> Near(angles[i], threshold)
    ensures |inputs| < SettleFrames ==>
      Run(Start(angles), inputs, threshold)
        == Ok(Game(Pendulum(angles, |inputs| % |angles|), |inputs| as real * FrameTime, true))
    ensures |inputs| >= SettleFrames ==>
      Run(Start(angles), inputs, threshold)
        == Ok(Game(Pendulum(angles, SettleFrames % |angles|), SettleTime, false))
  {
    if |inputs| < SettleFrames {
      if |inputs| > 0 {
        SettleCountAllNear(angles, threshold, |inputs| - 1);
      }
      SettleCountAllNear(angles, threshold, |inputs|);
      DwellCountsAllFrames(angles, threshold, inputs);
    } else {
      SettleCountAllNear(angles, threshold, SettleFrames - 1);
      SettleCountAllNear(angles, threshold, SettleFrames);
      StopsAtFirstSettledFrame(angles, threshold, inputs, SettleFrames);
    }
  }

  /** Leaving the threshold does not reset the counter: on samples
      [1, 0, 1, 0] with threshold 1/2, frames 1 and 3 pass and frame 2 does
      not, so after three frames the counter holds two frame times, not the
      one of the last contiguous run. */
  lemma DwellIsTotalNotConsecutive()
    ensures Run(Start([1.0, 0.0, 1.0, 0.0]), [[], [], []], 0.5)
         == Ok(Game(Pendulum([1.0, 0.0, 1.0, 0.0], 3), 2.0 * FrameTime, true))
  {
  }

  /** Whatever the events, a loop entered in a valid state never fails,
      never alters the angle array, keeps the cursor valid and never lowers
      the counter; it can still be running at the end only if it was
      running at the start and no QUIT arrived. */
  lemma {:induction false} RunKeepsInvariants(g: Game, inputs: seq<seq<Event>>, threshold: real)
    requires Valid(g.pendulum)
    ensures Run(g, inputs, threshold).Ok?
    ensures Run(g, inputs, threshold).value.pendulum.angles == g.pendulum.angles
    ensures Valid(Run(g, inputs, threshold).value.pendulum)
    ensures g.dwell <= Run(g, inputs, threshold).value.dwell
    ensures Run(g, inputs, threshold).value.running ==> g.running && NoQuit(inputs)
    decreases |inputs|
  {
    if g.running && |inputs| > 0 {
      RunKeepsInvariants(Frame(g, inputs[0], threshold).value, inputs[1..], threshold);
      assert NoQuit(inputs[1..]) ==> !QuitRequested(inputs[0]) ==> NoQuit(inputs) by {
        assert forall k :: 0 < k < |inputs| ==> inputs[k] == inputs[1..][k - 1];
      }
    }
  }
}
