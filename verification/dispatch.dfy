/**
 * Installing renderers and writing matrix cells: the `updateModel` functor
 * (`apply` when the factory knows the requested model, `pass` when it does
 * not), the factory's choice between them, and `setMatrixCell`.
 */
module Dispatch {
  import opened Wrappers
  import opened Scene

  /** What happens to renderer ownership, in order. */
  datatype Ownership = Released(r: Renderer) | Installed(r: Renderer)

  /** The functor's boolean result, the scene afterwards and the ownership trace. */
  datatype Dispatched = Dispatched(ok: bool, state: State, events: seq<Ownership>)

  /**
   * `updateModel::apply`: the renderer that was bound, if any, is released
   * before the new one is installed; the result is always true.
   */
  function Apply(s: State, r: Renderer): (d: Dispatched)
    ensures d.ok && d.state.base.model == Some(r)
    ensures d.state == s.(base := d.state.base)
    ensures d.state.base == s.base.(model := d.state.base.model)
    ensures |d.events| == (if s.base.model.Some? then 2 else 1)
    ensures d.events[|d.events| - 1] == Installed(r)
    ensures forall i :: 0 <= i < |d.events| - 1 ==> d.events[i] == Released(s.base.model.value)
  {
    var released := if s.base.model.Some? then [Released(s.base.model.value)] else [];
    Dispatched(true, s.(base := s.base.(model := Some(r))), released + [Installed(r)])
  }

  /** `updateModel::pass`: nothing changes; true exactly when a renderer is already bound. */
  function Pass(s: State): (d: Dispatched)
    ensures d.state == s && d.events == []
    ensures d.ok <==> s.base.model.Some?
  {
    Dispatched(s.base.model.Some?, s, [])
  }

  /**
   * What the model factory can build for a scene of dimension `top`:
   * (coordinate format, type name, depth, render depth) -> known.
   */
  type Catalogue = (string, string, int, int) -> bool

  /**
   * The factory matches a request against the model and render dimensions it
   * was built for, which are unsigned, so it knows no negative depth.
   */
  ghost predicate Bounded(known: Catalogue) {
    forall f, t, d, e :: known(f, t, d, e) ==> 0 <= d && 0 <= e
  }

  /**
   * `efgy::geometry::with`: a known combination is built and installed by
   * `apply`, any other falls back to `pass`. The built renderer's id is the
   * requested type name.
   */
  function With(s: State, family: Family, known: Catalogue, format: string, typ: string, depth: int, rdepth: int): (d: Dispatched)
    requires Bounded(known)
    ensures known(format, typ, depth, rdepth) ==>
      && d.ok
      && depth >= 0 && rdepth >= 0
      && d.state == s.(base := s.base.(model := Some(Renderer(family, depth, rdepth, typ))))
    ensures !known(format, typ, depth, rdepth) ==> d.state == s && (d.ok <==> s.base.model.Some?)
  {
    if known(format, typ, depth, rdepth) then Apply(s, Renderer(family, depth, rdepth, typ)) else Pass(s)
  }

  /**
   * `setMatrixCell<Q,d>`: walk down from rung d; the rung whose dimension is
   * `sd` gets cell (x, y) set to v. Rung 1 is the fix point that sets nothing.
   */
  function SetMatrixCell(s: State, d: nat, sd: nat, x: nat, y: nat, v: Num): (r: (bool, State))
    requires Valid(s) && 1 <= d <= s.top
    requires 2 <= sd <= d ==> x <= sd && y <= sd
    ensures r.0 <==> 2 <= sd <= d
    ensures !r.0 ==> r.1 == s
    ensures r.0 ==> Valid(r.1) && r.1.top == s.top && r.1.base == s.base
    ensures r.0 ==> forall k :: k in s.levels && k != sd ==> r.1.levels[k] == s.levels[k]
    ensures r.0 ==> r.1.levels[sd] == s.levels[sd].(matrix := r.1.levels[sd].matrix)
    ensures r.0 ==> forall i, j :: 0 <= i <= sd && 0 <= j <= sd ==>
      r.1.levels[sd].matrix[i][j] == (if i == x && j == y then v else s.levels[sd].matrix[i][j])
    decreases d
  {
    if d == 1 then (false, s)
    else if d == sd then
      var m := s.levels[d].matrix;
      (true, s.(levels := s.levels[d := s.levels[d].(matrix := m[x := m[x][y := v]])]))
    else SetMatrixCell(s, d - 1, sd, x, y, v)
  }
}
