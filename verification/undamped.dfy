/**
 * The animation loop of the undamped program: every iteration drains the
 * event queue, draws the sample under the cursor and advances the cursor.
 * Nothing but a QUIT event ends the loop.
 */
module Undamped {
  import opened Loop
  import opened Playback

  /** The loop's state: the pendulum (angle array and cursor) and the `running` flag. */
  datatype Game = Game(pendulum: Pendulum, running: bool)

  /** Entering `run_game` with a freshly constructed pendulum. */
  function Start(angles: seq<real>): (g: Game)
    ensures g.running && g.pendulum == New(angles)
  {
    Game(New(angles), true)
  }

  /** One iteration of the loop body, given the events polled at its top.
      A QUIT clears `running`, but the rest of the body still executes. */
  function Frame(g: Game, events: seq<Event>): (r: Result<Game>)
    ensures r.Err? <==> !Valid(g.pendulum)
    ensures r.Ok? ==> r.value.pendulum.angles == g.pendulum.angles
    ensures r.Ok? ==> Update(g.pendulum) == Ok(r.value.pendulum)
    ensures r.Ok? ==> (r.value.running <==> g.running && !QuitRequested(events))
  {
    var running := if QuitRequested(events) then false else g.running;
    match Draw(g.pendulum)
    case Err(f) => Err(f)
    case Ok(_) =>
      match Update(g.pendulum)
      case Err(f) => Err(f)
      case Ok(p) => Ok(Game(p, running))
  }

  /** The `while running` loop fed one event batch per iteration; it stops
      when `running` is false or when the supplied batches run out. */
  function Run(g: Game, inputs: seq<seq<Event>>): (r: Result<Game>)
    ensures r.Err? <==> g.running && |inputs| > 0 && !Valid(g.pendulum)
    ensures r.Ok? ==> r.value.pendulum.angles == g.pendulum.angles
    ensures r.Ok? ==> (r.value.running <==> g.running && NoQuit(inputs))
    decreases |inputs|
  {
    if !g.running || |inputs| == 0 then Ok(g)
    else match Frame(g, inputs[0])
      case Err(f) => Err(f)
      case Ok(h) =>
        assert NoQuit(inputs) <==> !QuitRequested(inputs[0]) && NoQuit(inputs[1..]) by {
          assert forall k :: 0 < k < |inputs| ==> inputs[k] == inputs[1..][k - 1];
        }
        Run(h, inputs[1..])
  }

  /** How many loop iterations a sequence of event batches drives from a
      running start: all of them, or up to and including the first with a QUIT. */
  function FramesExecuted(inputs: seq<seq<Event>>): (n: nat)
    ensures n <= |inputs|
    ensures NoQuit(inputs) ==> n == |inputs|
    ensures !NoQuit(inputs) ==>
      && 0 < n
      && QuitRequested(inputs[n - 1])
      && NoQuit(inputs[..n - 1])
    decreases |inputs|
  {
    if |inputs| == 0 then 0
    else if QuitRequested(inputs[0]) then 1
    else
      var rest := FramesExecuted(inputs[1..]);
      assert NoQuit(inputs[1..]) ==> NoQuit(inputs) by {
        if NoQuit(inputs[1..]) {
          forall k | 0 <= k < |inputs|
            ensures !QuitRequested(inputs[k])
          {
            if k > 0 {
              assert inputs[k] == inputs[1..][k - 1];
            }
          }
        }
      }
      assert !NoQuit(inputs[1..]) ==> inputs[..rest + 1] == [inputs[0]] + inputs[1..][..rest];
      1 + rest
  }

  lemma {:induction false} RunFrom(angles: seq<real>, s: nat, inputs: seq<seq<Event>>)
    requires |angles| > 0
    ensures Run(Game(Pendulum(angles, s % |angles|), true), inputs)
         == Ok(Game(Pendulum(angles, (s + FramesExecuted(inputs)) % |angles|), NoQuit(inputs)))
    decreases |inputs|
  {
    var g := Game(Pendulum(angles, s % |angles|), true);
    if |inputs| == 0 {
    } else {
      ModSucc(s, |angles|);
      var h := Frame(g, inputs[0]).value;
      assert h.pendulum == Pendulum(angles, (s + 1) % |angles|);
      if QuitRequested(inputs[0]) {
        assert !NoQuit(inputs);
      } else {
        RunFrom(angles, s + 1, inputs[1..]);
        if NoQuit(inputs) {
          assert NoQuit(inputs[1..]) by {
            forall k | 0 <= k < |inputs[1..]|
              ensures !QuitRequested(inputs[1..][k])
            {
              assert inputs[1..][k] == inputs[k + 1];
            }
          }
        } else {
          assert !NoQuit(inputs[1..]);
        }
      }
    }
  }

  /** The whole undamped run: it never fails on a non-empty trajectory,
      never alters the angle array, cycles the cursor through the samples
      and is still running exactly when no QUIT was seen; a QUIT frame still
      completes its draw and update. */
  lemma {:induction false} RunLoops(angles: seq<real>, inputs: seq<seq<Event>>)
    requires |angles| > 0
    ensures Run(Start(angles), inputs)
         == Ok(Game(Pendulum(angles, FramesExecuted(inputs) % |angles|), NoQuit(inputs)))
  {
    ModUnique(0, 0, 0, |angles|);
    RunFrom(angles, 0, inputs);
  }

  /** Without QUIT the loop never stops: after any number `n` of iterations
      it is still running and the next `draw` shows sample `n mod len`. */
  lemma {:induction false} NeverStopsWithoutQuit(angles: seq<real>, inputs: seq<seq<Event>>)
    requires |angles| > 0 && NoQuit(inputs)
    ensures Run(Start(angles), inputs).Ok?
    ensures Run(Start(angles), inputs).value.running
    ensures Draw(Run(Start(angles), inputs).value.pendulum) == Ok(angles[|inputs| % |angles|])
  {
    RunLoops(angles, inputs);
  }

  /** An empty angle array crashes the first frame in `draw`. */
  lemma EmptyTrajectoryFails(inputs: seq<seq<Event>>)
    requires |inputs| > 0
    ensures Run(Start([]), inputs) == Err(IndexOutOfRange)
  {
  }
}
