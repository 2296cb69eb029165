/**
 * Decoding the attribute document (`parse` and `parseModel` over an XML
 * parser). The document is the flat sequence of Topologic elements in
 * document order; "the first match" of an absolute path is the first such
 * element, a following sibling is a later one. `std::stold` and `std::stoi`
 * throw on a malformed literal; nothing in the decoder catches that, so the
 * whole decode stops there with the writes made so far.
 */
module XmlCodec {
  import opened Wrappers
  import opened Text
  import opened Scene
  import opened Metadata
  import opened Dispatch

  /** A parsed document; `valid` is the parser's flag. */
  datatype Document = Document(valid: bool, elements: seq<Element>)

  /** A decode step carried on, or a literal threw and `value` holds the writes made before. */
  datatype Res<T> = Done(value: T) | Abort(value: T)

  /** An entry point returned a boolean, or an exception left it with the scene partly updated. */
  datatype Outcome = Returned(ok: bool, state: State) | Threw(state: State)

  /** `//topologic:name/@a`: the attribute on the first element of that name that has it. */
  function FirstAttr(es: seq<Element>, name: string, a: string): string {
    if |es| == 0 then ""
    else if es[0].name == name && HasAttr(es[0], a) then Attr(es[0], a)
    else FirstAttr(es[1..], name, a)
  }


  // ---------------------------------------------------------------- cameras

  /** Where axis i of a camera element comes from. */
  datatype Source = Polar(text: string) | Cartesian(text: string) | Neither

  /**
   * The rule for axis i: a non-empty `radius` (axis 0 only) or `theta-<i>`
   * is a polar value and the cartesian name is then not consulted; otherwise
   * the axis name gives a cartesian value. Empty means absent.
   */
  function AxisSource(e: Element, i: nat): Source {
    if i == 0 && Attr(e, "radius") != "" then Polar(Attr(e, "radius"))
    else if Attr(e, ThetaName(i)) != "" then Polar(Attr(e, ThetaName(i)))
    else if Attr(e, AxisName(i)) != "" then Cartesian(Attr(e, AxisName(i)))
    else Neither
  }

  /** Apply axes i..k-1 of one camera element to the rung. */
  function CameraAxes(l: Level, e: Element, k: nat, i: nat, lit: Literals): (r: Res<Level>)
    requires Shaped(l, k) && i <= k
    ensures Shaped(r.value, k)
    decreases k - i
  {
    if i == k then Done(l)
    else
      match AxisSource(e, i)
      case Neither => CameraAxes(l, e, k, i + 1, lit)
      case Polar(t) =>
        (match lit.read(t)
         case None => Abort(l)
         case Some(n) => CameraAxes(l.(fromp := l.fromp[i := n]), e, k, i + 1, lit))
      case Cartesian(t) =>
        (match lit.read(t)
         case None => Abort(l)
         case Some(n) => CameraAxes(l.(from := l.from[i := n]), e, k, i + 1, lit))
  }

  /** A polar value on axis i that reads as n goes into `fromp` and the walk moves on. */
  lemma PolarAxisStep(l: Level, e: Element, k: nat, i: nat, t: string, n: Num, lit: Literals)
    requires Shaped(l, k) && i < k
    requires AxisSource(e, i) == Polar(t) && lit.read(t) == Some(n)
    ensures CameraAxes(l, e, k, i, lit) == CameraAxes(l.(fromp := l.fromp[i := n]), e, k, i + 1, lit)
  {
  }

  /** A cartesian value on axis i that reads as n goes into `from` and the walk moves on. */
  lemma CartesianAxisStep(l: Level, e: Element, k: nat, i: nat, t: string, n: Num, lit: Literals)
    requires Shaped(l, k) && i < k
    requires AxisSource(e, i) == Cartesian(t) && lit.read(t) == Some(n)
    ensures CameraAxes(l, e, k, i, lit) == CameraAxes(l.(from := l.from[i := n]), e, k, i + 1, lit)
  {
  }

  /** `camera[count(@*) = k]`: a camera element with exactly k attributes. */
  predicate IsCamera(e: Element, k: nat) {
    e.name == "camera" && |e.attrs| == k
  }

  /** Visit every matching camera element in document order. */
  function Cameras(l: Level, es: seq<Element>, k: nat, lit: Literals): (r: Res<Level>)
    requires Shaped(l, k)
    ensures Shaped(r.value, k)
    decreases |es|
  {
    if |es| == 0 then Done(l)
    else if !IsCamera(es[0], k) then Cameras(l, es[1..], k, lit)
    else
      match CameraAxes(l, es[0], k, 0, lit)
      case Abort(p) => Abort(p)
      case Done(l1) => Cameras(l1, es[1..], k, lit)
  }

  /** The text of the last matching camera element that gives axis i a polar value. */
  function LastPolar(es: seq<Element>, k: nat, i: nat): Option<string> {
    if |es| == 0 then None
    else match LastPolar(es[1..], k, i)
      case Some(t) => Some(t)
      case None => if IsCamera(es[0], k) && AxisSource(es[0], i).Polar? then Some(AxisSource(es[0], i).text) else None
  }

  /** The text of the last matching camera element that gives axis i a cartesian value. */
  function LastCartesian(es: seq<Element>, k: nat, i: nat): Option<string> {
    if |es| == 0 then None
    else match LastCartesian(es[1..], k, i)
      case Some(t) => Some(t)
      case None => if IsCamera(es[0], k) && AxisSource(es[0], i).Cartesian? then Some(AxisSource(es[0], i).text) else None
  }

  /** Axis j of l' holds what source `src` gives it, the other representation kept from l. */
  ghost predicate AxisApplied(l: Level, l': Level, src: Source, j: nat, lit: Literals)
    requires j < |l.from| && j < |l.fromp| && j < |l'.from| && j < |l'.fromp|
  {
    match src
    case Polar(t) => lit.read(t) == Some(l'.fromp[j]) && l'.from[j] == l.from[j]
    case Cartesian(t) => lit.read(t) == Some(l'.from[j]) && l'.fromp[j] == l.fromp[j]
    case Neither => l'.from[j] == l.from[j] && l'.fromp[j] == l.fromp[j]
  }

  /** One camera element: each axis from i on takes the value its source names, or keeps its own. */
  lemma {:induction false} CameraAxesEffect(l: Level, e: Element, k: nat, i: nat, lit: Literals)
    requires Shaped(l, k) && i <= k && CameraAxes(l, e, k, i, lit).Done?
    ensures var l' := CameraAxes(l, e, k, i, lit).value;
      && l'.to == l.to && l'.matrix == l.matrix && l'.view == l.view
      && (forall j :: 0 <= j < i ==> l'.from[j] == l.from[j] && l'.fromp[j] == l.fromp[j])
      && (forall j :: i <= j < k ==> AxisApplied(l, l', AxisSource(e, j), j, lit))
    decreases k - i
  {
    if i < k {
      var l' := CameraAxes(l, e, k, i, lit).value;
      var l1: Level;
      match AxisSource(e, i) {
        case Neither =>
          l1 := l;
        case Polar(t) =>
          assert lit.read(t).Some?;
          l1 := l.(fromp := l.fromp[i := lit.read(t).value]);
        case Cartesian(t) =>
          assert lit.read(t).Some?;
          l1 := l.(from := l.from[i := lit.read(t).value]);
      }
      assert CameraAxes(l1, e, k, i + 1, lit) == CameraAxes(l, e, k, i, lit);
      CameraAxesEffect(l1, e, k, i + 1, lit);
      assert AxisApplied(l, l1, AxisSource(e, i), i, lit);
      assert l'.from[i] == l1.from[i] && l'.fromp[i] == l1.fromp[i];
      forall j | i < j < k
        ensures AxisApplied(l, l', AxisSource(e, j), j, lit)
      {
        assert AxisApplied(l1, l', AxisSource(e, j), j, lit);
      }
    }
  }

  /**
   * All matching camera elements: a later element's value for an axis
   * overwrites an earlier one; an axis no element gives keeps its value.
   */
  lemma {:induction false} CamerasLastWriter(l: Level, es: seq<Element>, k: nat, lit: Literals)
    requires Shaped(l, k) && Cameras(l, es, k, lit).Done?
    ensures var l' := Cameras(l, es, k, lit).value;
      && l'.to == l.to && l'.matrix == l.matrix && l'.view == l.view
      && (forall i :: 0 <= i < k ==>
           && (LastPolar(es, k, i).Some? ==> lit.read(LastPolar(es, k, i).value) == Some(l'.fromp[i]))
           && (LastPolar(es, k, i).None? ==> l'.fromp[i] == l.fromp[i])
           && (LastCartesian(es, k, i).Some? ==> lit.read(LastCartesian(es, k, i).value) == Some(l'.from[i]))
           && (LastCartesian(es, k, i).None? ==> l'.from[i] == l.from[i]))
    decreases |es|
  {
    if |es| > 0 {
      if !IsCamera(es[0], k) {
        CamerasLastWriter(l, es[1..], k, lit);
      } else {
        var l1 := CameraAxes(l, es[0], k, 0, lit).value;
        CameraAxesEffect(l, es[0], k, 0, lit);
        CamerasLastWriter(l1, es[1..], k, lit);
      }
    }
  }

  /** A polar or cartesian value whose literal does not read: `std::stold` throws on it. */
  predicate Unreadable(src: Source, lit: Literals) {
    (src.Polar? || src.Cartesian?) && lit.read(src.text).None?
  }

  /** Some axis of camera element e, for rung k, names a literal that does not read. */
  predicate CameraThrows(e: Element, k: nat, lit: Literals) {
    exists i :: 0 <= i < k && Unreadable(AxisSource(e, i), lit)
  }

  /** One camera element throws from axis i on exactly when some axis from i on is unreadable. */
  lemma {:induction false} CameraAxesAborts(l: Level, e: Element, k: nat, i: nat, lit: Literals)
    requires Shaped(l, k) && i <= k
    ensures CameraAxes(l, e, k, i, lit).Abort? <==> exists j :: i <= j < k && Unreadable(AxisSource(e, j), lit)
    decreases k - i
  {
    if i < k {
      var src := AxisSource(e, i);
      if !Unreadable(src, lit) {
        var l1 := match src
          case Polar(t) => l.(fromp := l.fromp[i := lit.read(t).value])
          case Cartesian(t) => l.(from := l.from[i := lit.read(t).value])
          case Neither => l;
        assert CameraAxes(l, e, k, i, lit) == CameraAxes(l1, e, k, i + 1, lit);
        CameraAxesAborts(l1, e, k, i + 1, lit);
      }
    }
  }

  /** Some camera element with exactly k attributes has an unreadable axis. */
  predicate CamerasThrow(es: seq<Element>, k: nat, lit: Literals) {
    exists p :: 0 <= p < |es| && IsCamera(es[p], k) && CameraThrows(es[p], k, lit)
  }

  /**
   * The camera pass of rung k throws exactly when some matching camera has
   * an unreadable axis, wherever it stands and whatever came before it.
   */
  lemma {:induction false} CamerasAbort(l: Level, es: seq<Element>, k: nat, lit: Literals)
    requires Shaped(l, k)
    ensures Cameras(l, es, k, lit).Abort? <==> CamerasThrow(es, k, lit)
    decreases |es|
  {
    if |es| > 0 {
      CameraAxesAborts(l, es[0], k, 0, lit);
      assert forall p :: 1 <= p < |es| ==> es[1..][p - 1] == es[p];
      if !(IsCamera(es[0], k) && CameraThrows(es[0], k, lit)) {
        var l1 := if IsCamera(es[0], k) then CameraAxes(l, es[0], k, 0, lit).value else l;
        CamerasAbort(l1, es[1..], k, lit);
        if CamerasThrow(es[1..], k, lit) {
          var p :| 0 <= p < |es[1..]| && IsCamera(es[1..][p], k) && CameraThrows(es[1..][p], k, lit);
          assert IsCamera(es[p + 1], k) && CameraThrows(es[p + 1], k, lit);
        }
      }
    }
  }

  // --------------------------------------------------------- transformations

  /** `transformation[@depth = k]` whose `matrix` is `identity`. */
  predicate IsIdentityRequest(e: Element, k: nat) {
    && e.name == "transformation"
    && XPathNumber(Attr(e, "depth")) == Some(k as real)
    && Attr(e, "matrix") == "identity"
  }

  /** Visit every `transformation[@depth = k]`; each asking for the identity resets the matrix. */
  function IdentityResets(m: seq<seq<Num>>, es: seq<Element>, k: nat, g: Geometry): (r: seq<seq<Num>>)
    ensures (exists i :: 0 <= i < |es| && IsIdentityRequest(es[i], k)) ==> r == g.identity(k)
    ensures (forall i :: 0 <= i < |es| ==> !IsIdentityRequest(es[i], k)) ==> r == m
    decreases |es|
  {
    if |es| == 0 then m
    else
      var m1 := if IsIdentityRequest(es[0], k) then g.identity(k) else m;
      var r := IdentityResets(m1, es[1..], k, g);
      assert forall i :: 1 <= i < |es| ==> es[1..][i - 1] == es[i];
      r
  }

  /** `e<i>-<j>`, the attribute of matrix cell (i, j). */
  function CellName(i: nat, j: nat): string {
    "e" + ShowNat(i) + "-" + ShowNat(j)
  }

  /** `transformation[count(@*) = (k+1)²]`: an element listing the whole matrix of rung k. */
  predicate IsCellTransformation(e: Element, k: nat) {
    e.name == "transformation" && |e.attrs| == (k + 1) * (k + 1)
  }

  /** Cell (a, b) comes before cell (i, j) in row-major order. */
  predicate Earlier(a: nat, b: nat, i: nat, j: nat) {
    a < i || (a == i && b < j)
  }

  /** Apply the cell attributes of one element from cell (i, j) on, row by row. */
  function CellsFrom(m: seq<seq<Num>>, e: Element, k: nat, i: nat, j: nat, lit: Literals): (r: Res<seq<seq<Num>>>)
    requires Square(m, k + 1) && j <= k + 1
    ensures Square(r.value, k + 1)
    decreases k + 1 - i, k + 1 - j
  {
    if i > k then Done(m)
    else if j > k then CellsFrom(m, e, k, i + 1, 0, lit)
    else
      var t := Attr(e, CellName(i, j));
      if t == "" then CellsFrom(m, e, k, i, j + 1, lit)
      else match lit.read(t)
        case None => Abort(m)
        case Some(n) => CellsFrom(m[i := m[i][j := n]], e, k, i, j + 1, lit)
  }

  /** Cell (a, b) of m' holds the element's value for it when there is one, else the old value. */
  ghost predicate CellApplied(m: seq<seq<Num>>, m': seq<seq<Num>>, e: Element, a: nat, b: nat, lit: Literals)
    requires a < |m| && a < |m'| && b < |m[a]| && b < |m'[a]|
  {
    var t := Attr(e, CellName(a, b));
    (t != "" ==> lit.read(t) == Some(m'[a][b])) && (t == "" ==> m'[a][b] == m[a][b])
  }

  lemma {:induction false} CellsFromEffect(m: seq<seq<Num>>, e: Element, k: nat, i: nat, j: nat, lit: Literals)
    requires Square(m, k + 1) && j <= k + 1 && CellsFrom(m, e, k, i, j, lit).Done?
    ensures var m' := CellsFrom(m, e, k, i, j, lit).value;
      && (forall a, b :: 0 <= a <= k && 0 <= b <= k && Earlier(a, b, i, j) ==> m'[a][b] == m[a][b])
      && (forall a, b :: 0 <= a <= k && 0 <= b <= k && !Earlier(a, b, i, j) ==> CellApplied(m, m', e, a, b, lit))
    decreases k + 1 - i, k + 1 - j
  {
    if i > k {
    } else if j > k {
      CellsFromEffect(m, e, k, i + 1, 0, lit);
    } else {
      var t := Attr(e, CellName(i, j));
      var m1 := if t == "" then m else m[i := m[i][j := lit.read(t).value]];
      assert CellsFrom(m1, e, k, i, j + 1, lit) == CellsFrom(m, e, k, i, j, lit);
      CellsFromEffect(m1, e, k, i, j + 1, lit);
      var m' := CellsFrom(m, e, k, i, j, lit).value;
      forall a, b | 0 <= a <= k && 0 <= b <= k && !Earlier(a, b, i, j)
        ensures CellApplied(m, m', e, a, b, lit)
      {
        if a == i && b == j {
          assert m'[a][b] == m1[a][b];
        } else {
          assert CellApplied(m1, m', e, a, b, lit);
        }
      }
    }
  }

  /** Visit every element listing the whole matrix, in document order. */
  function CellElements(m: seq<seq<Num>>, es: seq<Element>, k: nat, lit: Literals): (r: Res<seq<seq<Num>>>)
    requires Square(m, k + 1)
    ensures Square(r.value, k + 1)
    decreases |es|
  {
    if |es| == 0 then Done(m)
    else if !IsCellTransformation(es[0], k) then CellElements(m, es[1..], k, lit)
    else
      match CellsFrom(m, es[0], k, 0, 0, lit)
      case Abort(p) => Abort(p)
      case Done(m1) => CellElements(m1, es[1..], k, lit)
  }

  /** The text of the last matrix-listing element that gives cell (a, b) a value. */
  function LastCell(es: seq<Element>, k: nat, a: nat, b: nat): Option<string> {
    if |es| == 0 then None
    else match LastCell(es[1..], k, a, b)
      case Some(t) => Some(t)
      case None =>
        if IsCellTransformation(es[0], k) && Attr(es[0], CellName(a, b)) != "" then Some(Attr(es[0], CellName(a, b))) else None
  }

  /** Matrix-listing elements: a later element's cell value overwrites an earlier one. */
  lemma {:induction false} CellElementsLastWriter(m: seq<seq<Num>>, es: seq<Element>, k: nat, lit: Literals)
    requires Square(m, k + 1) && CellElements(m, es, k, lit).Done?
    ensures var m' := CellElements(m, es, k, lit).value;
      forall a, b :: 0 <= a <= k && 0 <= b <= k ==>
        && (LastCell(es, k, a, b).Some? ==> lit.read(LastCell(es, k, a, b).value) == Some(m'[a][b]))
        && (LastCell(es, k, a, b).None? ==> m'[a][b] == m[a][b])
    decreases |es|
  {
    if |es| > 0 {
      if !IsCellTransformation(es[0], k) {
        CellElementsLastWriter(m, es[1..], k, lit);
      } else {
        var m1 := CellsFrom(m, es[0], k, 0, 0, lit).value;
        CellsFromEffect(m, es[0], k, 0, 0, lit);
        CellElementsLastWriter(m1, es[1..], k, lit);
        var m' := CellElements(m, es, k, lit).value;
        forall a, b | 0 <= a <= k && 0 <= b <= k
          ensures LastCell(es, k, a, b).Some? ==> lit.read(LastCell(es, k, a, b).value) == Some(m'[a][b])
          ensures LastCell(es, k, a, b).None? ==> m'[a][b] == m[a][b]
        {
          assert !Earlier(a, b, 0, 0);
          assert CellApplied(m, m1, es[0], a, b, lit);
          if LastCell(es[1..], k, a, b).None? {
            assert m'[a][b] == m1[a][b];
          }
        }
      }
    }
  }

  /** Cell (a, b) of element e has a literal that does not read. */
  predicate BadCell(e: Element, a: nat, b: nat, lit: Literals) {
    Attr(e, CellName(a, b)) != "" && lit.read(Attr(e, CellName(a, b))).None?
  }

  /** Some cell of rung k's matrix has an unreadable literal in element e. */
  predicate CellThrows(e: Element, k: nat, lit: Literals) {
    exists a, b :: 0 <= a <= k && 0 <= b <= k && BadCell(e, a, b, lit)
  }

  /** One element's cells throw from (i, j) on exactly when some cell from (i, j) on is unreadable. */
  lemma {:induction false} CellsFromAborts(m: seq<seq<Num>>, e: Element, k: nat, i: nat, j: nat, lit: Literals)
    requires Square(m, k + 1) && j <= k + 1
    ensures CellsFrom(m, e, k, i, j, lit).Abort? <==>
      exists a, b :: 0 <= a <= k && 0 <= b <= k && !Earlier(a, b, i, j) && BadCell(e, a, b, lit)
    decreases k + 1 - i, k + 1 - j
  {
    if i > k {
    } else if j > k {
      CellsFromAborts(m, e, k, i + 1, 0, lit);
    } else {
      var t := Attr(e, CellName(i, j));
      if BadCell(e, i, j, lit) {
        assert !Earlier(i, j, i, j);
      } else {
        var m1 := if t == "" then m else m[i := m[i][j := lit.read(t).value]];
        assert CellsFrom(m1, e, k, i, j + 1, lit) == CellsFrom(m, e, k, i, j, lit);
        CellsFromAborts(m1, e, k, i, j + 1, lit);
      }
    }
  }

  /** Some element listing rung k's whole matrix has an unreadable cell. */
  predicate CellsThrow(es: seq<Element>, k: nat, lit: Literals) {
    exists p :: 0 <= p < |es| && IsCellTransformation(es[p], k) && CellThrows(es[p], k, lit)
  }

  /** The matrix listings of rung k throw exactly when one of them has an unreadable cell. */
  lemma {:induction false} CellElementsAbort(m: seq<seq<Num>>, es: seq<Element>, k: nat, lit: Literals)
    requires Square(m, k + 1)
    ensures CellElements(m, es, k, lit).Abort? <==> CellsThrow(es, k, lit)
    decreases |es|
  {
    if |es| > 0 {
      CellsFromAborts(m, es[0], k, 0, 0, lit);
      assert forall a, b :: !Earlier(a, b, 0, 0);
      assert forall p :: 1 <= p < |es| ==> es[1..][p - 1] == es[p];
      if !(IsCellTransformation(es[0], k) && CellThrows(es[0], k, lit)) {
        var m1 := if IsCellTransformation(es[0], k) then CellsFrom(m, es[0], k, 0, 0, lit).value else m;
        CellElementsAbort(m1, es[1..], k, lit);
        if CellsThrow(es[1..], k, lit) {
          var p :| 0 <= p < |es[1..]| && IsCellTransformation(es[1..][p], k) && CellThrows(es[1..][p], k, lit);
          assert IsCellTransformation(es[p + 1], k) && CellThrows(es[p + 1], k, lit);
        }
      }
    }
  }

  /** One rung of `parse`: cameras, then identity requests, then matrix listings. */
  function ParseRung(l: Level, es: seq<Element>, k: nat, lit: Literals, g: Geometry): (r: Res<Level>)
    requires Shaped(l, k) && Sound(g)
    ensures Shaped(r.value, k)
  {
    match Cameras(l, es, k, lit)
    case Abort(p) => Abort(p)
    case Done(l1) =>
      var l2 := l1.(matrix := IdentityResets(l1.matrix, es, k, g));
      match CellElements(l2.matrix, es, k, lit)
      case Abort(m) => Abort(l2.(matrix := m))
      case Done(m) => Done(l2.(matrix := m))
  }

  /** Rung k's step throws: a matching camera or matrix listing has an unreadable literal. */
  predicate RungThrows(es: seq<Element>, k: nat, lit: Literals) {
    CamerasThrow(es, k, lit) || CellsThrow(es, k, lit)
  }

  /** A rung's step throws exactly when its document has an unreadable camera or cell literal for it. */
  lemma ParseRungAborts(l: Level, es: seq<Element>, k: nat, lit: Literals, g: Geometry)
    requires Shaped(l, k) && Sound(g)
    ensures ParseRung(l, es, k, lit, g).Abort? <==> RungThrows(es, k, lit)
  {
    CamerasAbort(l, es, k, lit);
    var c := Cameras(l, es, k, lit);
    if c.Done? {
      var l2 := c.value.(matrix := IdentityResets(c.value.matrix, es, k, g));
      CellElementsAbort(l2.matrix, es, k, lit);
    }
  }

  // ------------------------------------------------------- the 1D fix point

  /** A numeric attribute: empty leaves the field, a literal sets it, a malformed one throws. */
  function NumStep<T>(r: Res<T>, text: string, lit: Literals, update: (T, Num) -> T): Res<T> {
    match r
    case Abort(_) => r
    case Done(x) =>
      if text == "" then r
      else match lit.read(text)
        case None => Abort(x)
        case Some(n) => Done(update(x, n))
  }

  /** A textual attribute (a mode or a yes/no flag): empty leaves the field. */
  function TextStep<T>(r: Res<T>, text: string, update: (T, string) -> T): Res<T> {
    match r
    case Abort(_) => r
    case Done(x) => if text == "" then r else Done(update(x, text))
  }

  /** The three colours of the base tier. */
  datatype Slot = Background | Wireframe | Surface

  function SlotElement(slot: Slot): string {
    match slot
    case Background => "colour-background"
    case Wireframe => "colour-wireframe"
    case Surface => "colour-surface"
  }

  function GetColour(b: Base, slot: Slot): Colour {
    match slot
    case Background => b.background
    case Wireframe => b.wireframe
    case Surface => b.surface
  }

  function SetColour(b: Base, slot: Slot, c: Colour): Base {
    match slot
    case Background => b.(background := c)
    case Wireframe => b.(wireframe := c)
    case Surface => b.(surface := c)
  }

  /** Red, green, blue and alpha of one colour element, each on its own. */
  function ColourRead(c: Colour, es: seq<Element>, name: string, lit: Literals): Res<Colour> {
    var r1 := NumStep(Done(c), FirstAttr(es, name, "red"), lit, (c: Colour, n: Num) => c.(red := n));
    var r2 := NumStep(r1, FirstAttr(es, name, "green"), lit, (c: Colour, n: Num) => c.(green := n));
    var r3 := NumStep(r2, FirstAttr(es, name, "blue"), lit, (c: Colour, n: Num) => c.(blue := n));
    NumStep(r3, FirstAttr(es, name, "alpha"), lit, (c: Colour, n: Num) => c.(alpha := n))
  }

  function ColourStep(r: Res<Base>, es: seq<Element>, slot: Slot, lit: Literals): Res<Base> {
    match r
    case Abort(_) => r
    case Done(b) =>
      match ColourRead(GetColour(b, slot), es, SlotElement(slot), lit)
      case Abort(c) => Abort(SetColour(b, slot, c))
      case Done(c) => Done(SetColour(b, slot, c))
  }

  /** Precision, radius and camera mode, the first three scalars the fix point reads. */
  function Options(r: Res<Base>, es: seq<Element>, lit: Literals): Res<Base> {
    var r1 := NumStep(r, FirstAttr(es, "precision", "polar"), lit,
                      (b: Base, n: Num) => b.(parameter := b.parameter.(precision := n)));
    var r2 := NumStep(r1, FirstAttr(es, "options", "radius"), lit,
                      (b: Base, n: Num) => b.(parameter := b.parameter.(radius := n)));
    TextStep(r2, FirstAttr(es, "camera", "mode"),
             (b: Base, t: string) => b.(polarCoordinates := t == "polar"))
  }

  /** Background, wireframe and surface, in that order. */
  function Colours(r: Res<Base>, es: seq<Element>, lit: Literals): Res<Base> {
    ColourStep(ColourStep(ColourStep(r, es, Background, lit), es, Wireframe, lit), es, Surface, lit)
  }

  /** The IFS counts: iterations, seed and functions. */
  function IfsCounts(r: Res<Base>, es: seq<Element>, lit: Literals): Res<Base> {
    var r7 := NumStep(r, FirstAttr(es, "ifs", "iterations"), lit,
                      (b: Base, n: Num) => b.(parameter := b.parameter.(iterations := Truncate(n))));
    var r8 := NumStep(r7, FirstAttr(es, "ifs", "seed"), lit,
                      (b: Base, n: Num) => b.(parameter := b.parameter.(seed := Truncate(n))));
    NumStep(r8, FirstAttr(es, "ifs", "functions"), lit,
            (b: Base, n: Num) => b.(parameter := b.parameter.(functions := Truncate(n))))
  }

  /** The IFS settings and the flame coefficients, read last. */
  function Ifs(r: Res<Base>, es: seq<Element>, lit: Literals): Res<Base> {
    IfsFlags(IfsCounts(r, es, lit), es, lit)
  }

  /** The IFS rotation flags, then the flame coefficients. */
  function IfsFlags(r9: Res<Base>, es: seq<Element>, lit: Literals): Res<Base> {
    var r10 := TextStep(r9, FirstAttr(es, "ifs", "pre-rotate"),
                        (b: Base, t: string) => b.(parameter := b.parameter.(preRotate := t == "yes")));
    var r11 := TextStep(r10, FirstAttr(es, "ifs", "post-rotate"),
                        (b: Base, t: string) => b.(parameter := b.parameter.(postRotate := t == "yes")));
    NumStep(r11, FirstAttr(es, "flame", "coefficients"), lit,
            (b: Base, n: Num) => b.(parameter := b.parameter.(flameCoefficients := Truncate(n))))
  }

  /**
   * The dimension-independent scalars, in the order the fix point reads
   * them: precision, radius, camera mode, the three colours, the IFS
   * settings and the flame coefficients.
   */
  function Scalars(b: Base, es: seq<Element>, lit: Literals): Res<Base> {
    Ifs(Colours(Options(Done(b), es, lit), es, lit), es, lit)
  }

  // --------------------------------------------- the fix point, field by field

  /** A numeric text the fix point gets past: absent, or a literal that reads. */
  predicate Readable(text: string, lit: Literals) {
    text == "" || lit.read(text).Some?
  }

  /** A number field after its text: kept when the text is absent, the literal's value otherwise. */
  function Field(was: Num, text: string, lit: Literals): Num
    requires Readable(text, lit)
  {
    if text == "" then was else lit.read(text).value
  }

  /** An integer field after its text: kept when absent, the literal cast toward zero otherwise. */
  function IntField(was: int, text: string, lit: Literals): int
    requires Readable(text, lit)
  {
    if text == "" then was else Truncate(lit.read(text).value)
  }

  /** A flag after its text: kept when absent, otherwise set exactly when the text is `on`. */
  function Flag(was: bool, text: string, on: string): bool {
    if text == "" then was else text == on
  }

  predicate ColourReadable(es: seq<Element>, name: string, lit: Literals) {
    && Readable(FirstAttr(es, name, "red"), lit) && Readable(FirstAttr(es, name, "green"), lit)
    && Readable(FirstAttr(es, name, "blue"), lit) && Readable(FirstAttr(es, name, "alpha"), lit)
  }

  function ColourField(c: Colour, es: seq<Element>, name: string, lit: Literals): Colour
    requires ColourReadable(es, name, lit)
  {
    Colour(Field(c.red, FirstAttr(es, name, "red"), lit), Field(c.green, FirstAttr(es, name, "green"), lit),
           Field(c.blue, FirstAttr(es, name, "blue"), lit), Field(c.alpha, FirstAttr(es, name, "alpha"), lit))
  }

  /** Every numeric text the fix point reads is absent or readable. */
  predicate AllReadable(es: seq<Element>, lit: Literals) {
    && Readable(FirstAttr(es, "precision", "polar"), lit) && Readable(FirstAttr(es, "options", "radius"), lit)
    && ColourReadable(es, "colour-background", lit) && ColourReadable(es, "colour-wireframe", lit)
    && ColourReadable(es, "colour-surface", lit)
    && Readable(FirstAttr(es, "ifs", "iterations"), lit) && Readable(FirstAttr(es, "ifs", "seed"), lit)
    && Readable(FirstAttr(es, "ifs", "functions"), lit) && Readable(FirstAttr(es, "flame", "coefficients"), lit)
  }

  /**
   * The base tier a document describes, each field on its own: a field
   * whose attribute is absent keeps its value, a present one takes the
   * attribute's reading; the export multiplier, id prefix, renderer and the
   * remaining parameters are not read at all.
   */
  function Described(b: Base, es: seq<Element>, lit: Literals): Base
    requires AllReadable(es, lit)
  {
    var p := b.parameter;
    b.(polarCoordinates := Flag(b.polarCoordinates, FirstAttr(es, "camera", "mode"), "polar"),
       parameter := p.(precision := Field(p.precision, FirstAttr(es, "precision", "polar"), lit),
                       radius := Field(p.radius, FirstAttr(es, "options", "radius"), lit),
                       iterations := IntField(p.iterations, FirstAttr(es, "ifs", "iterations"), lit),
                       seed := IntField(p.seed, FirstAttr(es, "ifs", "seed"), lit),
                       functions := IntField(p.functions, FirstAttr(es, "ifs", "functions"), lit),
                       preRotate := Flag(p.preRotate, FirstAttr(es, "ifs", "pre-rotate"), "yes"),
                       postRotate := Flag(p.postRotate, FirstAttr(es, "ifs", "post-rotate"), "yes"),
                       flameCoefficients := IntField(p.flameCoefficients, FirstAttr(es, "flame", "coefficients"), lit)),
       background := ColourField(b.background, es, "colour-background", lit),
       wireframe := ColourField(b.wireframe, es, "colour-wireframe", lit),
       surface := ColourField(b.surface, es, "colour-surface", lit))
  }

  lemma OptionsFieldwise(b: Base, es: seq<Element>, lit: Literals)
    ensures Options(Done(b), es, lit).Done? <==>
      Readable(FirstAttr(es, "precision", "polar"), lit) && Readable(FirstAttr(es, "options", "radius"), lit)
    ensures Options(Done(b), es, lit).Done? ==>
      Options(Done(b), es, lit).value ==
        b.(polarCoordinates := Flag(b.polarCoordinates, FirstAttr(es, "camera", "mode"), "polar"),
           parameter := b.parameter.(precision := Field(b.parameter.precision, FirstAttr(es, "precision", "polar"), lit),
                                     radius := Field(b.parameter.radius, FirstAttr(es, "options", "radius"), lit)))
  {
  }

  lemma ColourStepFieldwise(b: Base, es: seq<Element>, slot: Slot, lit: Literals)
    ensures ColourStep(Done(b), es, slot, lit).Done? <==> ColourReadable(es, SlotElement(slot), lit)
    ensures ColourStep(Done(b), es, slot, lit).Done? ==>
      ColourStep(Done(b), es, slot, lit).value == SetColour(b, slot, ColourField(GetColour(b, slot), es, SlotElement(slot), lit))
  {
  }

  lemma ColoursFieldwise(b: Base, es: seq<Element>, lit: Literals)
    ensures Colours(Done(b), es, lit).Done? <==>
      ColourReadable(es, "colour-background", lit) && ColourReadable(es, "colour-wireframe", lit)
      && ColourReadable(es, "colour-surface", lit)
    ensures Colours(Done(b), es, lit).Done? ==>
      Colours(Done(b), es, lit).value ==
        b.(background := ColourField(b.background, es, "colour-background", lit),
           wireframe := ColourField(b.wireframe, es, "colour-wireframe", lit),
           surface := ColourField(b.surface, es, "colour-surface", lit))
  {
    ColourStepFieldwise(b, es, Background, lit);
    var r1 := ColourStep(Done(b), es, Background, lit);
    if r1.Done? {
      ColourStepFieldwise(r1.value, es, Wireframe, lit);
      var r2 := ColourStep(r1, es, Wireframe, lit);
      if r2.Done? {
        ColourStepFieldwise(r2.value, es, Surface, lit);
      }
    }
  }

  lemma IfsCountsFieldwise(b: Base, es: seq<Element>, lit: Literals)
    ensures IfsCounts(Done(b), es, lit).Done? <==>
      && Readable(FirstAttr(es, "ifs", "iterations"), lit) && Readable(FirstAttr(es, "ifs", "seed"), lit)
      && Readable(FirstAttr(es, "ifs", "functions"), lit)
    ensures IfsCounts(Done(b), es, lit).Done? ==>
      var p := b.parameter;
      IfsCounts(Done(b), es, lit).value ==
        b.(parameter := p.(iterations := IntField(p.iterations, FirstAttr(es, "ifs", "iterations"), lit),
                           seed := IntField(p.seed, FirstAttr(es, "ifs", "seed"), lit),
                           functions := IntField(p.functions, FirstAttr(es, "ifs", "functions"), lit)))
  {
  }

  lemma IfsFlagsFieldwise(b: Base, es: seq<Element>, lit: Literals)
    ensures IfsFlags(Done(b), es, lit).Done? <==> Readable(FirstAttr(es, "flame", "coefficients"), lit)
    ensures IfsFlags(Done(b), es, lit).Done? ==>
      var p := b.parameter;
      IfsFlags(Done(b), es, lit).value ==
        b.(parameter := p.(preRotate := Flag(p.preRotate, FirstAttr(es, "ifs", "pre-rotate"), "yes"),
                           postRotate := Flag(p.postRotate, FirstAttr(es, "ifs", "post-rotate"), "yes"),
                           flameCoefficients := IntField(p.flameCoefficients, FirstAttr(es, "flame", "coefficients"), lit)))
  {
  }

  lemma IfsFieldwise(b: Base, es: seq<Element>, lit: Literals)
    ensures Ifs(Done(b), es, lit).Done? <==>
      && Readable(FirstAttr(es, "ifs", "iterations"), lit) && Readable(FirstAttr(es, "ifs", "seed"), lit)
      && Readable(FirstAttr(es, "ifs", "functions"), lit) && Readable(FirstAttr(es, "flame", "coefficients"), lit)
    ensures Ifs(Done(b), es, lit).Done? ==>
      var p := b.parameter;
      Ifs(Done(b), es, lit).value ==
        b.(parameter := p.(iterations := IntField(p.iterations, FirstAttr(es, "ifs", "iterations"), lit),
                           seed := IntField(p.seed, FirstAttr(es, "ifs", "seed"), lit),
                           functions := IntField(p.functions, FirstAttr(es, "ifs", "functions"), lit),
                           preRotate := Flag(p.preRotate, FirstAttr(es, "ifs", "pre-rotate"), "yes"),
                           postRotate := Flag(p.postRotate, FirstAttr(es, "ifs", "post-rotate"), "yes"),
                           flameCoefficients := IntField(p.flameCoefficients, FirstAttr(es, "flame", "coefficients"), lit)))
  {
    IfsCountsFieldwise(b, es, lit);
    var r9 := IfsCounts(Done(b), es, lit);
    if r9.Done? {
      IfsFlagsFieldwise(r9.value, es, lit);
    }
  }

  /**
   * The fix point against its field-by-field description: it gets through
   * exactly when every numeric text it reads is absent or readable, and
   * then the base tier is the one the document describes.
   */
  lemma ScalarsFieldwise(b: Base, es: seq<Element>, lit: Literals)
    ensures Scalars(b, es, lit).Done? <==> AllReadable(es, lit)
    ensures AllReadable(es, lit) ==> Scalars(b, es, lit).value == Described(b, es, lit)
  {
    OptionsFieldwise(b, es, lit);
    var r1 := Options(Done(b), es, lit);
    if r1.Done? {
      ColoursFieldwise(r1.value, es, lit);
      var r2 := Colours(r1, es, lit);
      if r2.Done? {
        IfsFieldwise(r2.value, es, lit);
      }
    }
  }

  /** Every element name the fix point reads from. */
  const ScalarElements: set<string> :=
    {"precision", "options", "camera", "colour-background", "colour-wireframe", "colour-surface", "ifs", "flame"}

  lemma {:induction false} FirstAttrOfOthers(es: seq<Element>, name: string, a: string)
    requires forall i :: 0 <= i < |es| ==> es[i].name != name
    ensures FirstAttr(es, name, a) == ""
  {
    if |es| > 0 {
      FirstAttrOfOthers(es[1..], name, a);
    }
  }

  lemma ColourUntouched(b: Base, es: seq<Element>, slot: Slot, lit: Literals)
    requires forall i :: 0 <= i < |es| ==> es[i].name != SlotElement(slot)
    ensures ColourStep(Done(b), es, slot, lit) == Done(b)
  {
    var name := SlotElement(slot);
    FirstAttrOfOthers(es, name, "red");
    FirstAttrOfOthers(es, name, "green");
    FirstAttrOfOthers(es, name, "blue");
    FirstAttrOfOthers(es, name, "alpha");
    assert ColourRead(GetColour(b, slot), es, name, lit) == Done(GetColour(b, slot));
    assert SetColour(b, slot, GetColour(b, slot)) == b;
  }

  /** A document without any of the scalar elements leaves the base tier as it was. */
  lemma ScalarsUntouched(b: Base, es: seq<Element>, lit: Literals)
    requires forall i :: 0 <= i < |es| ==> es[i].name !in ScalarElements
    ensures Scalars(b, es, lit) == Done(b)
  {
    FirstAttrOfOthers(es, "precision", "polar");
    FirstAttrOfOthers(es, "options", "radius");
    FirstAttrOfOthers(es, "camera", "mode");
    ColourUntouched(b, es, Background, lit);
    ColourUntouched(b, es, Wireframe, lit);
    ColourUntouched(b, es, Surface, lit);
    FirstAttrOfOthers(es, "ifs", "iterations");
    FirstAttrOfOthers(es, "ifs", "seed");
    FirstAttrOfOthers(es, "ifs", "functions");
    FirstAttrOfOthers(es, "ifs", "pre-rotate");
    FirstAttrOfOthers(es, "ifs", "post-rotate");
    FirstAttrOfOthers(es, "flame", "coefficients");
  }

  /**
   * One malformed literal stops the whole fix point: with an unreadable
   * precision nothing after it is applied, however well-formed.
   */
  lemma MalformedLiteralAborts(b: Base, es: seq<Element>, lit: Literals)
    requires FirstAttr(es, "precision", "polar") != ""
    requires lit.read(FirstAttr(es, "precision", "polar")) == None
    ensures Scalars(b, es, lit) == Abort(b)
  {
  }

  // ------------------------------------------------------------ entry points

  /**
   * The descent of `parse<Q,d>` once each step's reading is known: rung d
   * takes what its own step read (`rung(d)`), and the descent goes on to
   * d - 1 only when that step read every literal; at 1 the fix point's
   * reading (`fix`) becomes the base tier. A step that threw leaves the
   * partial record it had built and stops the descent. Rungs above d are
   * not touched.
   */
  function Descend(s: State, d: nat, rung: nat -> Res<Level>, fix: Res<Base>): (o: Outcome)
    requires Valid(s) && 1 <= d <= s.top
    requires forall k :: 2 <= k <= d ==> Shaped(rung(k).value, k)
    ensures Valid(o.state) && o.state.top == s.top
    ensures o.Returned? ==> o.ok
    ensures forall k :: d < k <= s.top ==> o.state.levels[k] == s.levels[k]
    decreases d
  {
    if d == 1 then
      match fix
      case Abort(b) => Threw(s.(base := b))
      case Done(b) => Returned(true, s.(base := b))
    else
      match rung(d)
      case Abort(l) => Threw(WithRung(s, d, l))
      case Done(l) => Descend(WithRung(s, d, l), d - 1, rung, fix)
  }

  /**
   * When every step from d down and the fix point read their literals, the
   * descent returns true with each rung holding what its step read and the
   * base tier what the fix point read.
   */
  lemma {:induction false} DescendByRung(s: State, d: nat, rung: nat -> Res<Level>, fix: Res<Base>)
    requires Valid(s) && 1 <= d <= s.top
    requires forall k :: 2 <= k <= d ==> Shaped(rung(k).value, k)
    requires forall k :: 2 <= k <= d ==> rung(k).Done?
    requires fix.Done?
    ensures var o := Descend(s, d, rung, fix);
      && o.Returned?
      && (forall k :: 2 <= k <= d ==> o.state.levels[k] == rung(k).value)
      && o.state.base == fix.value
    decreases d
  {
    if d > 1 {
      var s1 := WithRung(s, d, rung(d).value);
      DescendByRung(s1, d - 1, rung, fix);
      assert Descend(s1, d - 1, rung, fix).state.levels[d] == rung(d).value;
    }
  }

  /** Some step from 2 up to d aborted. */
  predicate StepAborted(rung: nat -> Res<Level>, d: nat) {
    exists k :: 2 <= k <= d && rung(k).Abort?
  }

  /** Some step from d down aborted: step d did, or some step below it. */
  lemma StepAbortedBelow(rung: nat -> Res<Level>, d: nat)
    requires d >= 2
    ensures StepAborted(rung, d) <==> rung(d).Abort? || StepAborted(rung, d - 1)
  {
  }

  /** An aborted fix point, or an aborted step from d down, makes the descent throw. */
  lemma {:induction false} DescendAborts(s: State, d: nat, rung: nat -> Res<Level>, fix: Res<Base>)
    requires Valid(s) && 1 <= d <= s.top
    requires forall k :: 2 <= k <= d ==> Shaped(rung(k).value, k)
    requires fix.Abort? || StepAborted(rung, d)
    ensures Descend(s, d, rung, fix).Threw?
    decreases d
  {
    if d > 1 && rung(d).Done? {
      StepAbortedBelow(rung, d);
      DescendAborts(WithRung(s, d, rung(d).value), d - 1, rung, fix);
    }
  }

  /** The descent throws exactly when the fix point or some step from d down threw. */
  lemma DescendThrows(s: State, d: nat, rung: nat -> Res<Level>, fix: Res<Base>)
    requires Valid(s) && 1 <= d <= s.top
    requires forall k :: 2 <= k <= d ==> Shaped(rung(k).value, k)
    ensures Descend(s, d, rung, fix).Threw? <==> fix.Abort? || StepAborted(rung, d)
  {
    if fix.Abort? || StepAborted(rung, d) {
      DescendAborts(s, d, rung, fix);
    } else {
      DescendByRung(s, d, rung, fix);
    }
  }

  /**
   * `parse<Q,d>`: rung d, then the rungs below it, then the fix point at 1.
   * Each rung's step reads only that rung's own record, which the steps
   * above it leave alone, so its reading is taken from the scene as given.
   * An invalid document changes nothing.
   */
  function Parse(s: State, doc: Document, d: nat, lit: Literals, g: Geometry): (o: Outcome)
    requires Valid(s) && Sound(g) && 1 <= d <= s.top
    ensures Valid(o.state) && o.state.top == s.top
    ensures !doc.valid ==> o == Returned(false, s)
    ensures doc.valid && o.Returned? ==> o.ok
    ensures forall k :: d < k <= s.top ==> o.state.levels[k] == s.levels[k]
  {
    if !doc.valid then Returned(false, s)
    else Descend(s, d, Steps(s, doc.elements, lit, g), Scalars(s.base, doc.elements, lit))
  }

  /** What each rung's own step reads from the document; rungs the scene lacks read nothing. */
  function Steps(s: State, es: seq<Element>, lit: Literals, g: Geometry): (rung: nat -> Res<Level>)
    requires Valid(s) && Sound(g)
    ensures forall k :: 2 <= k <= s.top ==> rung(k) == ParseRung(s.levels[k], es, k, lit, g)
  {
    k => if 2 <= k <= s.top then ParseRung(s.levels[k], es, k, lit, g) else Done(Level([], [], [], [], Initial))
  }

  /**
   * When every rung from d down and the fix point read their literals, the
   * decode returns true, each rung holding what its own step made of it and
   * the base tier what the fix point made of it.
   */
  lemma ParseByRung(s: State, doc: Document, d: nat, lit: Literals, g: Geometry)
    requires Valid(s) && Sound(g) && 1 <= d <= s.top && doc.valid
    requires forall k :: 2 <= k <= d ==> ParseRung(s.levels[k], doc.elements, k, lit, g).Done?
    requires Scalars(s.base, doc.elements, lit).Done?
    ensures var o := Parse(s, doc, d, lit, g);
      && o.Returned? && o.ok
      && (forall k :: 2 <= k <= d ==> o.state.levels[k] == ParseRung(s.levels[k], doc.elements, k, lit, g).value)
      && o.state.base == Scalars(s.base, doc.elements, lit).value
  {
    DescendByRung(s, d, Steps(s, doc.elements, lit, g), Scalars(s.base, doc.elements, lit));
  }

  /**
   * A decode throws exactly when the document is valid and either some
   * scalar element present carries an unreadable literal, or some rung from
   * d down has a matching camera or matrix listing with one.
   */
  lemma ParseThrows(s: State, doc: Document, d: nat, lit: Literals, g: Geometry)
    requires Valid(s) && Sound(g) && 1 <= d <= s.top
    ensures Parse(s, doc, d, lit, g).Threw? <==>
      doc.valid && (!AllReadable(doc.elements, lit) || exists k :: 2 <= k <= d && RungThrows(doc.elements, k, lit))
  {
    if doc.valid {
      var es := doc.elements;
      var rung := Steps(s, es, lit, g);
      DescendThrows(s, d, rung, Scalars(s.base, es, lit));
      ScalarsFieldwise(s.base, es, lit);
      forall k | 2 <= k <= d
        ensures rung(k).Abort? <==> RungThrows(es, k, lit)
      {
        ParseRungAborts(s.levels[k], es, k, lit, g);
      }
    }
  }

  /** Decoding a whole scene starts at its top rung. */
  function Decode(s: State, doc: Document, lit: Literals, g: Geometry): Outcome
    requires Valid(s) && Sound(g)
  {
    Parse(s, doc, s.top, lit, g)
  }

  // -------------------------------------------------------------- the model

  /** A model request: coordinate format, type name, depth and render depth. */
  datatype Request = Request(format: string, typ: string, depth: int, rdepth: int)

  /** What the document asks for: no model element, a malformed count, or a request. */
  datatype Reading = NoModel | Malformed | Read(request: Request)

  /** `model[@depth][@type]`: a model element carrying both attributes, whatever their values. */
  predicate IsModel(e: Element) {
    e.name == "model" && HasAttr(e, "depth") && HasAttr(e, "type")
  }

  /** `model[@depth][@type][1]`: the first model element in document order. */
  function FirstModel(es: seq<Element>): (r: Option<Element>)
    ensures r.None? <==> forall i :: 0 <= i < |es| ==> !IsModel(es[i])
    ensures r.Some? ==> IsModel(r.value) && r.value in es
    ensures forall p :: 0 <= p < |es| && IsModel(es[p]) && (forall j :: 0 <= j < p ==> !IsModel(es[j])) ==>
      r == Some(es[p])
    decreases |es|
  {
    if |es| == 0 then None
    else if IsModel(es[0]) then Some(es[0])
    else
      var r := FirstModel(es[1..]);
      assert forall i :: 1 <= i < |es| ==> es[1..][i - 1] == es[i];
      r
  }

  /** The model types whose render depth defaults to one more than their depth. */
  const ClosedTypes: set<string> := {"sphere", "moebius-strip", "klein-bagle"}

  /**
   * A render depth of 0 means "use the depth", one more for the closed
   * surfaces; any other stated render depth is kept.
   */
  function AdjustRenderDepth(typ: string, depth: int, stated: int): (r: int)
    ensures stated != 0 ==> r == stated
    ensures stated == 0 && typ in ClosedTypes ==> r == depth + 1
    ensures stated == 0 && typ !in ClosedTypes ==> r == depth
  {
    if stated != 0 then stated
    else if typ == "sphere" || typ == "moebius-strip" || typ == "klein-bagle" then depth + 1
    else depth
  }

  /** A model element whose depth, or whose stated render depth, `std::stoi` rejects. */
  predicate CountsMalformed(e: Element) {
    || Stoi(Attr(e, "depth")).None?
    || (Attr(e, "render-depth") != "" && Stoi(Attr(e, "render-depth")).None?)
  }

  /**
   * The request `parseModel` reads: the format defaults to "cartesian",
   * depth and render depth go through `std::stoi`, an absent render depth
   * is the depth.
   */
  function ModelRequest(es: seq<Element>): (q: Reading)
    ensures q.NoModel? <==> forall i :: 0 <= i < |es| ==> !IsModel(es[i])
    ensures q.Malformed? <==> FirstModel(es).Some? && CountsMalformed(FirstModel(es).value)
    ensures q.Read? ==> q.request.format == (if FirstAttr(es, "coordinates", "format") == "" then "cartesian" else FirstAttr(es, "coordinates", "format"))
    ensures q.Read? ==>
      var e := FirstModel(es).value;
      var stated := Attr(e, "render-depth");
      && q.request.typ == Attr(e, "type")
      && Stoi(Attr(e, "depth")) == Some(q.request.depth)
      && (stated == "" ==> q.request.rdepth == AdjustRenderDepth(q.request.typ, q.request.depth, q.request.depth))
      && (stated != "" ==> q.request.rdepth == AdjustRenderDepth(q.request.typ, q.request.depth, Stoi(stated).value))
  {
    var f := FirstAttr(es, "coordinates", "format");
    var format := if f != "" then f else "cartesian";
    match FirstModel(es)
    case None => NoModel
    case Some(e) =>
      match Stoi(Attr(e, "depth"))
      case None => Malformed
      case Some(depth) =>
        var typ := Attr(e, "type");
        var stated := if Attr(e, "render-depth") != "" then Stoi(Attr(e, "render-depth")) else Some(depth);
        match stated
        case None => Malformed
        case Some(rd) => Read(Request(format, typ, depth, AdjustRenderDepth(typ, depth, rd)))
  }

  /**
   * `parseModel`: read the request and hand it to the factory. Only the
   * bound renderer can change; without a model element the result is false.
   */
  function ParseModel(s: State, doc: Document, family: Family, known: Catalogue): (o: Outcome)
    requires Bounded(known)
    ensures o.state == s.(base := s.base.(model := o.state.base.model))
    ensures !doc.valid ==> o == Returned(false, s)
    ensures doc.valid && ModelRequest(doc.elements).NoModel? ==> o == Returned(false, s)
    ensures doc.valid && ModelRequest(doc.elements).Malformed? ==> o == Threw(s)
    ensures doc.valid && ModelRequest(doc.elements).Read? ==>
      var q := ModelRequest(doc.elements).request;
      && (known(q.format, q.typ, q.depth, q.rdepth) ==>
            o.Returned? && o.ok && o.state.base.model == Some(Renderer(family, q.depth, q.rdepth, q.typ)))
      && (!known(q.format, q.typ, q.depth, q.rdepth) ==> o == Returned(s.base.model.Some?, s))
  {
    if !doc.valid then Returned(false, s)
    else
      match ModelRequest(doc.elements)
      case NoModel => Returned(false, s)
      case Malformed => Threw(s)
      case Read(q) =>
        var d := With(s, family, known, q.format, q.typ, q.depth, q.rdepth);
        Returned(d.ok, d.state)
  }
}
