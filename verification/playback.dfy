/**
 * The playback cursor of the `Pendulum` class, identical in the damped and
 * the undamped program: a precomputed, immutable array of angle samples and
 * an index that `update` advances by one, modulo the array length, so that a
 * finite trajectory loops forever.
 */
module Playback {
  import opened Loop

  /** The angle array produced by the integrator and the current sample index. */
  datatype Pendulum = Pendulum(angles: seq<real>, index: nat)

  /** The cursor points at an existing sample. */
  predicate Valid(p: Pendulum) {
    p.index < |p.angles|
  }

  /** Construction: the cursor starts at the first sample. */
  function New(angles: seq<real>): (p: Pendulum)
    ensures p.angles == angles && p.index == 0
    ensures Valid(p) <==> |angles| > 0
  {
    Pendulum(angles, 0)
  }

  /** The sample `draw` reads; indexing past the end raises. */
  function Draw(p: Pendulum): (r: Result<real>)
    ensures r.Ok? <==> Valid(p)
    ensures r.Ok? ==> r.value in p.angles && r.value == p.angles[p.index]
    ensures r.Err? ==> r.fault == IndexOutOfRange
  {
    if p.index < |p.angles| then Ok(p.angles[p.index]) else Err(IndexOutOfRange)
  }

  /** `update`: advance the cursor by one, wrapping modulo the array length. */
  function Update(p: Pendulum): (r: Result<Pendulum>)
    ensures r.Err? <==> |p.angles| == 0
    ensures r.Ok? ==> r.value.angles == p.angles && Valid(r.value)
    ensures r.Ok? && Valid(p) ==>
      r.value.index == (if p.index == |p.angles| - 1 then 0 else p.index + 1)
  {
    if |p.angles| == 0 then Err(ModuloByZero)
    else Ok(Pendulum(p.angles, (p.index + 1) % |p.angles|))
  }

  /** `update` called `n` times in a row. */
  function UpdateTimes(p: Pendulum, n: nat): Result<Pendulum>
    decreases n
  {
    if n == 0 then Ok(p)
    else match Update(p)
      case Err(f) => Err(f)
      case Ok(q) => UpdateTimes(q, n - 1)
  }

  /** Euclidean division is unique: a remainder in `[0, m)` is the remainder. */
  lemma ModUnique(a: int, q: int, r: int, m: int)
    requires m > 0 && 0 <= r < m && a == q * m + r
    ensures a % m == r
  {
    var q', r' := a / m, a % m;
    assert (q - q') * m == r' - r;
    if q > q' {
      MulAtLeast(q - q', m);
    } else if q < q' {
      MulAtLeast(q' - q, m);
    }
  }

  lemma MulAtLeast(k: int, m: int)
    requires k >= 1 && m > 0
    ensures k * m >= m
  {
  }

  /** Reducing before or after adding one gives the same sample index. */
  lemma ModSucc(a: nat, m: nat)
    requires m > 0
    ensures (a % m + 1) % m == (a + 1) % m
  {
    var q, r := a / m, a % m;
    if r + 1 == m {
      ModUnique(a + 1, q + 1, 0, m);
      ModUnique(r + 1, 1, 0, m);
    } else {
      ModUnique(a + 1, q, r + 1, m);
      ModUnique(r + 1, 0, r + 1, m);
    }
  }

  lemma {:induction false} ShiftMod(a: nat, b: nat, m: nat)
    requires m > 0
    ensures (a % m + b) % m == (a + b) % m
    decreases b
  {
    if b == 0 {
      ModUnique(a % m, 0, a % m, m);
    } else {
      ShiftMod(a, b - 1, m);
      ModSucc(a % m + b - 1, m);
      ModSucc(a + b - 1, m);
    }
  }

  /** From a valid cursor, `n` updates land on sample `(index + n) mod len`
      and never touch the angle array. */
  lemma {:induction false} UpdateTimesIndex(p: Pendulum, n: nat)
    requires Valid(p)
    ensures UpdateTimes(p, n) == Ok(Pendulum(p.angles, (p.index + n) % |p.angles|))
    decreases n
  {
    if n == 0 {
      ModUnique(p.index, 0, p.index, |p.angles|);
    } else {
      var q := Update(p).value;
      assert q.index == (p.index + 1) % |p.angles|;
      UpdateTimesIndex(q, n - 1);
      ShiftMod(p.index + 1, n - 1, |p.angles|);
    }
  }

  /** Cyclicity: `len` updates bring a valid cursor back where it started. */
  lemma {:induction false} UpdateCycle(p: Pendulum)
    requires Valid(p)
    ensures UpdateTimes(p, |p.angles|) == Ok(p)
  {
    UpdateTimesIndex(p, |p.angles|);
    ModUnique(p.index + |p.angles|, 1, p.index, |p.angles|);
  }

  /** From construction, any number of updates keeps the cursor in
      `[0, len)`, at sample `n mod len`, so every later `draw` succeeds;
      with an empty array the very first `update` fails. */
  lemma {:induction false} CursorInRange(angles: seq<real>, n: nat)
    ensures |angles| > 0 ==>
      && UpdateTimes(New(angles), n) == Ok(Pendulum(angles, n % |angles|))
      && Valid(UpdateTimes(New(angles), n).value)
      && Draw(UpdateTimes(New(angles), n).value) == Ok(angles[n % |angles|])
    ensures |angles| == 0 && n > 0 ==> UpdateTimes(New(angles), n) == Err(ModuloByZero)
  {
    if |angles| > 0 {
      UpdateTimesIndex(New(angles), n);
    }
  }
}
