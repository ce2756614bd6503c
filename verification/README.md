# Pendulum playback and settle monitor

A Dafny model of the per-frame state machine of the pendulum simulation. The
pendulum's angle trajectory is computed once by an ODE integrator. It is then
replayed as an endless loop: a cursor steps through the samples one per frame
and wraps to 0 after the last sample. The damped program adds a settle
monitor. It credits 1/30 time unit to a dwell counter every frame in which
the sample under the just-advanced cursor is within the angular threshold.
The loop stops once the counter reaches 2. The undamped program stops only
on a QUIT event.

Modules:

- `Loop` (`loop.dfy`): the `Result`/`Fault` type for the crashes an
  empty angle array causes, and the QUIT event.
- `Playback` (`playback.dfy`): the cursor part of the `Pendulum` class, which
  is the same in both programs: `__init__`, `draw`'s index read and
  `update`.
- `Undamped` (`undamped.dfy`): `run_game` of `Pendulum_NoDamp.py`.
- `Damped` (`damped.dfy`): `run_game` of `Damped.py`, with the dwell counter
  and the stop rule.

The angle array is an arbitrary `seq<real>` input. The angular threshold
(`np.deg2rad(5)` in the program) is a `real` parameter. The dwell counter is
an exact `real`. The events polled at the top of each loop iteration are one
`seq<Event>` per frame. `SettleCount` is the reference definition of the
dwell: the set of frames `f` in `1..k` whose check passes, where frame `f`
checks sample `f mod len`. The loop theorems are stated against it.

An empty angle array crashes the program. `draw` runs before `update`, so the
loop reports the index error of `draw`; the modulo-by-zero fault of `update`
shows only when `update` is used on its own.

## Model

| member | source | states |
|---|---|---|
| Playback.New | Damped.py:30 | A new pendulum's cursor is at sample 0. It points at an existing sample exactly when the angle array is non-empty. |
| Playback.Draw | Damped.py:78 | `draw` reads the sample under the cursor. It fails with an index error exactly when the cursor is out of range, and otherwise yields a member of the array. |
| Playback.Update | Damped.py:85-86 | `update` fails exactly on an empty array. Otherwise it leaves the array unchanged and the cursor in range. From a valid cursor it moves to the next sample, or to 0 from the last sample. |
| Playback.UpdateTimesIndex | Damped.py:86 | From a valid cursor, `n` updates put the cursor at `(index + n) mod len` and never change the array. |
| Playback.UpdateCycle | Damped.py:86 | `len` updates bring a valid cursor back to its starting sample. |
| Playback.CursorInRange | Pendulum_NoDamp.py:75-83 | From construction over a non-empty array, any number of updates keeps the cursor in `[0, len)` at sample `n mod len`, so `draw` always succeeds. Over an empty array the first update fails. |
| Undamped.Frame | Pendulum_NoDamp.py:102-113 | One loop iteration fails only if the cursor is out of range. It leaves the angle array untouched and changes only the cursor, exactly as `update` does. `running` survives the iteration iff it was set and no QUIT arrived. |
| Undamped.Start | Pendulum_NoDamp.py:101 | The loop is entered running, over a freshly constructed pendulum whose cursor is at sample 0. |
| Undamped.Run | Pendulum_NoDamp.py:102-113 | The `while running:` loop fails iff it would execute a frame with the cursor out of range. It never changes the angle array. It ends running iff it started running and no batch had a QUIT. `RunLoops` gives its closed form from the start state. |
| Undamped.FramesExecuted | Pendulum_NoDamp.py:101-105 | The number of iterations a sequence of event batches drives from a running start. Without a QUIT it is all of them. Otherwise it runs up to and including the first batch with a QUIT. |
| Undamped.RunLoops | Pendulum_NoDamp.py:100-113 | On a non-empty array the whole loop never fails. Its cursor ends at (iterations executed) mod `len`. It is still running iff no QUIT was seen. |
| Undamped.NeverStopsWithoutQuit | Pendulum_NoDamp.py:101-110 | With no QUIT the loop never stops on its own. After `n` iterations it is still running and the next `draw` shows sample `n mod len`. |
| Undamped.EmptyTrajectoryFails | Pendulum_NoDamp.py:75 | With an empty angle array the first iteration crashes in `draw`. |
| Damped.Frame | Damped.py:107-124 | One iteration fails only on an out-of-range cursor and advances the cursor as `update` does. The counter never decreases. It grows by exactly 1/30 iff the sample after the drawn one is strictly within the threshold, and is otherwise unchanged. `running` survives iff it was set, no QUIT arrived and the counter is still below 2. |
| Damped.Start | Damped.py:104-105 | The loop is entered running, with the dwell counter at 0 and the cursor at sample 0. |
| Damped.Run | Damped.py:107-124 | The `while running:` loop fails iff it would execute a frame with the cursor out of range. `RunKeepsInvariants` states what it preserves. `DwellCountsAllFrames`, `StopsAtFirstSettledFrame` and `QuitBeforeSettle` give its closed form from the start state. |
| Damped.SettleCount | Damped.py:117-119 | The reference count of passed settle checks among frames 1..k, where frame `f` checks sample `f mod len`. There is at most one per frame. Every dwell theorem is stated against it. |
| Damped.FirstCheckReadsSecondSample | Damped.py:114-119 | The first settle check reads sample `1 mod len`, not the sample 0 that the first frame draws. |
| Damped.SettleCountStep | Damped.py:117-119 | Frame `k+1` adds one to the reference count exactly when its post-advance sample passes the check. |
| Damped.SettleCountMonotone | Damped.py:118-119 | The reference count of passed checks never decreases as frames go by. |
| Damped.DwellReachesSettleTime | Damped.py:119-122 | In exact arithmetic, `c` credits of 1/30 reach 2 iff `c >= 60`, and 60 credits make exactly 2. |
| Damped.DwellCountsAllFrames | Damped.py:105-124 | Take `n` quit-free frames with no stop before the last. The counter then equals 1/30 times the passed checks among all `n` frames, not just the last contiguous run. The cursor is at `n mod len`. The loop is running iff fewer than 60 checks passed. |
| Damped.StopsAtFirstSettledFrame | Damped.py:122-124 | Suppose there is no QUIT and the 60th passed check falls on frame `m`. Then the loop is running after every earlier frame. It stops at frame `m` with the counter at exactly 2 and the cursor at `m mod len`. Later event batches are ignored. |
| Damped.AllNearStopsAtSixty | Damped.py:118-124 | For a trajectory entirely within the threshold (for example all zeros), the loop runs through frame 59 with counter `n/30`. It stops at frame 60 with the counter at 2. |
| Damped.DwellIsTotalNotConsecutive | Damped.py:117-119 | Take samples `[1, 0, 1, 0]` with threshold 1/2: frames 1 and 3 pass, frame 2 does not. Three frames leave the counter at 2/30, so leaving the threshold does not reset it. |
| Damped.NothingAfterStop | Damped.py:107 | Once `running` is false no further frame executes. Appending more event batches changes nothing. |
| Damped.RunAppend | Damped.py:107 | Running the loop on `x` and then on `y` from where it ended is the same as running it on `x + y`. |
| Damped.QuitBeforeSettle | Damped.py:108-124 | Suppose a QUIT first arrives in frame `q`, before 60 checks have passed. The run then ends after frame `q`: cursor at `q mod len`, counter at 1/30 times the passed checks of frames 1..q, not running. |
| Damped.QuitEndsAfterCurrentFrame | Damped.py:108-124 | A QUIT does not cut the current frame short. The frame still draws, advances and runs the settle check, and the loop exits right after it. |
| Damped.RunKeepsInvariants | Damped.py:107-119 | From a valid state, and whatever the events, the loop never fails and never changes the angle array. It keeps the cursor valid and never lowers the counter. It can still be running at the end only if it was running at the start and no batch had a QUIT. |

## Left out

- The symbolic Lagrangian derivation with `sympy` (`solve_pendulum`, the `solve`/`lambdify` steps). It is foreign symbolic algebra, and its closed form does not appear in the program text.
- The `odeint` integration and `derivative_of_state`, including the `-0.10 * velocity` damping term. This is floating-point numerics inside a library. The angle array is an arbitrary input sequence instead.
- Floating-point behaviour: `time_at_zero += 1/30` is summed here as an exact real. In IEEE double arithmetic the sum after 59 credits is 1.9666666666666694 (below 2) and after 60 it is 2.0000000000000027 (at least 2). The double counter depends only on how many credits were added. So the program stops on the same frame as the model for every trajectory; only the counter's final value differs. `np.deg2rad(5)` is an abstract `threshold` parameter. NaN samples are not modelled.
- Damped.StopsAtFirstSettledFrame: states the counter at the stop as exactly 2; the program's double counter holds 2.0000000000000027 there (same frame, same cursor).
- Damped.AllNearStopsAtSixty: states the counter as `n/30` and, at the stop, exactly 2; the program's double sums differ from these in the last bits, without changing the stopping frame.
- Damped.DwellReachesSettleTime: is a fact about exact reals (60 credits make exactly 2); in double arithmetic 60 credits make 2.0000000000000027, and 59 still fall below 2.
- All pygame work: initialisation, the window, `fill`, line and circle drawing, the sin/cos endpoint mapping in `draw`, `flip`, `clock.tick(30)` pacing and `quit`. Event polling becomes the per-frame event batches.
- The `print("game_ended")` on stop, the unused `velocity_values`, the unused matplotlib and random imports, and the `__main__` wiring.
- The fixed construction arguments (800x600 window, length 200, the `linspace` time grids, initial angle pi/4). They only feed the integrator and the renderer.
