/**
 * `updateMatrix()` on the ladder: starting at a rung, synchronise the
 * cartesian camera from the polar one when polar mode is on, refresh the
 * projection, and continue one rung lower. The chain stops at rung 3; rung 2
 * has no refresh of its own.
 */
module Ladder {
  import opened Scene

  /** The rung after its own refresh step, before the lower rungs are visited. */
  function RefreshRung(l: Level, k: nat, polar: bool, g: Geometry): (r: Level)
    requires Shaped(l, k) && Sound(g)
    ensures Shaped(r, k)
  {
    var from := if polar then g.toCartesian(l.fromp) else l.from;
    l.(from := from, view := LookingFrom(from, l.to))
  }

  /**
   * A refreshed rung has its cartesian camera from the polar one in polar
   * mode (kept otherwise), its target, polar camera and matrix as before, and
   * a view recomputed for its camera.
   */
  predicate RungRefreshed(was: Level, now: Level, polar: bool, g: Geometry) {
    && now.from == (if polar then g.toCartesian(was.fromp) else was.from)
    && now.to == was.to
    && now.fromp == was.fromp
    && now.matrix == was.matrix
    && now.view == LookingFrom(now.from, now.to)
  }

  /**
   * Refresh rungs k, k-1, …, 3. The second component lists the rungs in the
   * order they were refreshed.
   */
  function Refresh(s: State, k: nat, g: Geometry): (r: (State, seq<nat>))
    requires Valid(s) && Sound(g) && 3 <= k <= s.top
    ensures Valid(r.0) && r.0.top == s.top && r.0.base == s.base
    ensures |r.1| == k - 2 && forall i :: 0 <= i < |r.1| ==> r.1[i] == k - i
    ensures forall j :: j in s.levels && !(3 <= j <= k) ==> r.0.levels[j] == s.levels[j]
    ensures forall j :: 3 <= j <= k ==> RungRefreshed(s.levels[j], r.0.levels[j], s.base.polarCoordinates, g)
    decreases k
  {
    var s1 := WithRung(s, k, RefreshRung(s.levels[k], k, s.base.polarCoordinates, g));
    if k == 3 then (s1, [3])
    else
      var (s2, visited) := Refresh(s1, k - 1, g);
      (s2, [k] + visited)
  }

  /** Refreshing twice leaves the scene as refreshing once. */
  lemma RefreshIdempotent(s: State, k: nat, g: Geometry)
    requires Valid(s) && Sound(g) && 3 <= k <= s.top
    ensures Refresh(Refresh(s, k, g).0, k, g) == Refresh(s, k, g)
  {
    var a := Refresh(s, k, g);
    var b := Refresh(a.0, k, g);
    forall j | 2 <= j <= s.top
      ensures b.0.levels[j] == a.0.levels[j]
    {
      if 3 <= j <= k {
        assert RungRefreshed(s.levels[j], a.0.levels[j], s.base.polarCoordinates, g);
        assert RungRefreshed(a.0.levels[j], b.0.levels[j], s.base.polarCoordinates, g);
      }
    }
    SameScene(b.0, a.0);
    assert b.1 == a.1;
  }
}
