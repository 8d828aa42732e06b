/** The fractal parameters of main.py's event loop: the subdivision depth
    (`iterations[0]`) and the fill flag (`colored[0]`), changed by the `c`, `w`
    and `s` keys and drawn once per frame. */
module Controls {
  import opened Pyramid

  const MinDepth := 1
  const MaxDepth := 6
  const InitialDepth := 3

  /** The keys the KEYDOWN branch looks at; every other key is `Other`. */
  datatype Key = Left | Right | Up | Down | C | W | S | Other(code: int)

  /** The events the loop dispatches on; the quit event is not modelled. */
  datatype Event =
    | KeyDown(key: Key)
    | MouseButtonDown(button: int)
    | MouseMotion(x: int, y: int)
    | OtherEvent

  datatype Params = Params(depth: int, colored: bool)

  const Initial := Params(InitialDepth, false)

  predicate InRange(p: Params) {
    MinDepth <= p.depth <= MaxDepth
  }

  /** An event that the parameter code reacts to. */
  predicate Affects(e: Event) {
    e.KeyDown? && (e.key == C || e.key == W || e.key == S)
  }

  /** One event of the KEYDOWN branch: `c` flips the fill flag, `w` deepens
      below the maximum, `s` flattens above the minimum; the arrow keys only
      rotate the camera, and the mouse events only move the camera. */
  function Apply(p: Params, e: Event): (r: Params)
    ensures r.colored != p.colored <==> e == KeyDown(C)
    ensures r.depth == p.depth + 1 <==> e == KeyDown(W) && p.depth < MaxDepth
    ensures r.depth == p.depth - 1 <==> e == KeyDown(S) && p.depth > MinDepth
    ensures p.depth - 1 <= r.depth <= p.depth + 1
    ensures !Affects(e) ==> r == p
    ensures InRange(p) ==> InRange(r)
  {
    match e
    case KeyDown(k) =>
      if k == C then Params(p.depth, !p.colored)
      else if k == W && p.depth < MaxDepth then Params(p.depth + 1, p.colored)
      else if k == S && p.depth > MinDepth then Params(p.depth - 1, p.colored)
      else p
    case _ => p
  }

  /** The events handled in order, the last one last. */
  function ApplyAll(p: Params, es: seq<Event>): Params
    decreases |es|
  {
    if |es| == 0 then p else Apply(ApplyAll(p, es[..|es| - 1]), es[|es| - 1])
  }

  /** The clamp invariant: no sequence of events takes the depth out of [1, 6]. */
  lemma {:induction false} ApplyAllInRange(p: Params, es: seq<Event>)
    requires InRange(p)
    ensures InRange(ApplyAll(p, es))
    decreases |es|
  {
    if |es| > 0 {
      ApplyAllInRange(p, es[..|es| - 1]);
    }
  }

  /** Handling two batches of events one after the other is handling their concatenation. */
  lemma {:induction false} ApplyAllAppend(p: Params, a: seq<Event>, b: seq<Event>)
    ensures ApplyAll(p, a + b) == ApplyAll(ApplyAll(p, a), b)
    decreases |b|
  {
    if |b| == 0 {
      assert a + b == a;
    } else {
      assert (a + b)[..|a + b| - 1] == a + b[..|b| - 1];
      ApplyAllAppend(p, a, b[..|b| - 1]);
    }
  }

  /** Events the parameter code ignores change neither parameter. */
  lemma {:induction false} InertEvents(p: Params, es: seq<Event>)
    requires forall i :: 0 <= i < |es| ==> !Affects(es[i])
    ensures ApplyAll(p, es) == p
    decreases |es|
  {
    if |es| > 0 {
      InertEvents(p, es[..|es| - 1]);
    }
  }

  function Repeat(e: Event, n: nat): (r: seq<Event>)
    ensures |r| == n
  {
    if n == 0 then [] else Repeat(e, n - 1) + [e]
  }

  function Min(a: int, b: int): int { if a <= b then a else b }

  function Max(a: int, b: int): int { if a >= b then a else b }

  /** `n` presses of `w` raise the depth by `n`, but not past the maximum. */
  lemma {:induction false} PressW(p: Params, n: nat)
    requires p.depth <= MaxDepth
    ensures ApplyAll(p, Repeat(KeyDown(W), n)) == Params(Min(p.depth + n, MaxDepth), p.colored)
  {
    if n > 0 {
      var es := Repeat(KeyDown(W), n);
      assert es[..n - 1] == Repeat(KeyDown(W), n - 1);
      PressW(p, n - 1);
    }
  }

  /** `n` presses of `s` lower the depth by `n`, but not past the minimum. */
  lemma {:induction false} PressS(p: Params, n: nat)
    requires p.depth >= MinDepth
    ensures ApplyAll(p, Repeat(KeyDown(S), n)) == Params(Max(p.depth - n, MinDepth), p.colored)
  {
    if n > 0 {
      var es := Repeat(KeyDown(S), n);
      assert es[..n - 1] == Repeat(KeyDown(S), n - 1);
      PressS(p, n - 1);
    }
  }

  /** From the start state ten presses of `w` stop at depth 6, and ten of `s` then stop at 1. */
  lemma SaturatingPresses()
    ensures ApplyAll(Initial, Repeat(KeyDown(W), 10)) == Params(MaxDepth, false)
    ensures ApplyAll(Params(MaxDepth, false), Repeat(KeyDown(S), 10)) == Params(MinDepth, false)
  {
    PressW(Initial, 10);
    PressS(Params(MaxDepth, false), 10);
  }

  /** How many times `c` is pressed. */
  function CountC(es: seq<Event>): (n: nat)
    ensures n <= |es|
    decreases |es|
  {
    if |es| == 0 then 0
    else CountC(es[..|es| - 1]) + (if es[|es| - 1] == KeyDown(C) then 1 else 0)
  }

  /** The fill flag ends up flipped exactly when `c` was pressed an odd number of times. */
  lemma {:induction false} ColoredParity(p: Params, es: seq<Event>)
    ensures ApplyAll(p, es).colored == (p.colored != (CountC(es) % 2 == 1))
    decreases |es|
  {
    if |es| > 0 {
      ColoredParity(p, es[..|es| - 1]);
    }
  }

  /** What one frame draws: the pyramid at the origin with length 2 (main.py line 176). */
  function Frame(p: Params): seq<Primitive> {
    Sierpinski(Vec3(0.0, 0.0, 0.0), p.depth, 2.0, p.colored)
  }

  lemma {:induction false} Pow5Monotone(n: nat, m: nat)
    requires n <= m
    ensures Pow5(n) <= Pow5(m)
    decreases m
  {
    if n < m {
      Pow5Monotone(n, m - 1);
    }
  }

  /** The root pyramid of a frame lies in the cube [-2, 2]^3. */
  lemma RootInCube(v: Vec3)
    requires Inside(v, Vec3(0.0, 0.0, 0.0), 2.0)
    ensures -2.0 <= v.x <= 2.0 && -2.0 <= v.y <= 2.0 && -2.0 <= v.z <= 2.0
  {
  }

  /** For every reachable depth a frame is 3 to 9375 primitives, all inside the
      root pyramid and so inside the cube [-2, 2]^3. */
  lemma FrameFits(p: Params)
    requires InRange(p)
    ensures 3 <= |Frame(p)| <= 9375
    ensures forall k, j :: 0 <= k < |Frame(p)| && 0 <= j < |Frame(p)[k].vertices| ==>
      var v := Frame(p)[k].vertices[j];
      Inside(v, Vec3(0.0, 0.0, 0.0), 2.0)
      && -2.0 <= v.x <= 2.0 && -2.0 <= v.y <= 2.0 && -2.0 <= v.z <= 2.0
  {
    var origin := Vec3(0.0, 0.0, 0.0);
    var r := Frame(p);
    Pow5Monotone(Levels(p.depth), 5);
    assert Pow5(5) == 3125;
    SierpinskiInside(origin, p.depth, 2.0, p.colored);
    assert r == Sierpinski(origin, p.depth, 2.0, p.colored);
    forall k, j | 0 <= k < |r| && 0 <= j < |r[k].vertices|
      ensures -2.0 <= r[k].vertices[j].x <= 2.0 && -2.0 <= r[k].vertices[j].y <= 2.0
           && -2.0 <= r[k].vertices[j].z <= 2.0
    {
      RootInCube(r[k].vertices[j]);
    }
  }

  /** The two cells main.py mutates while it handles events. */
  class FractalControls {
    var depth: int
    var colored: bool

    function State(): Params
      reads this
    {
      Params(depth, colored)
    }

    ghost predicate Valid()
      reads this
    {
      InRange(State())
    }

    /** `colored = [False]`, `iterations = [3]`. */
    constructor ()
      ensures State() == Initial
      ensures Valid()
    {
      depth := InitialDepth;
      colored := false;
    }

    /** One pass of the KEYDOWN branch over the two cells. */
    method HandleEvent(e: Event)
      modifies this
      ensures State() == Apply(old(State()), e)
      ensures old(Valid()) ==> Valid()
    {
      if e.KeyDown? {
        if e.key == C {
          colored := !colored;
        }
        if e.key == W && depth < MaxDepth {
          depth := depth + 1;
        }
        if e.key == S && depth > MinDepth {
          depth := depth - 1;
        }
      }
    }

    /** One frame's batch of events, handled in order. */
    method HandleEvents(events: seq<Event>)
      modifies this
      ensures State() == ApplyAll(old(State()), events)
      ensures old(Valid()) ==> Valid()
    {
      for i := 0 to |events|
        invariant State() == ApplyAll(old(State()), events[..i])
      {
        assert events[..i + 1][..i] == events[..i];
        HandleEvent(events[i]);
      }
      assert events[..|events|] == events;
      if old(Valid()) {
        ApplyAllInRange(old(State()), events);
      }
    }
  }
}
