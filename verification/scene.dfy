/**
 * The dimension ladder of a Topologic scene: one record per dimension
 * 2..top (camera, polar camera, transformation matrix, projection view) and
 * a base record with the dimension-independent settings and the bound
 * renderer. Numbers are kept abstract; their text form, polar conversion and
 * the affine identity come from outside as parameters.
 */
module Scene {
  import opened Wrappers
  import opened Text

  /** A scalar of the computation type `Q`; its text form is never modelled. */
  type Num = real

  /** Conversion of a scalar to an integer field: toward zero, as a C++ cast does. */
  function Truncate(n: Num): (r: int)
    ensures n >= 0.0 ==> 0 <= r && r as real <= n < r as real + 1.0
    ensures n < 0.0 ==> r <= 0 && r as real - 1.0 < n <= r as real
  {
    if n >= 0.0 then n.Floor else -((-n).Floor)
  }

  datatype Colour = Colour(red: Num, green: Num, blue: Num, alpha: Num)

  /**
   * The parameter bag of the base tier. The encoder calls the first and fourth
   * fields `polarRadius` and `polarPrecision`, the decoder `radius` and
   * `precision`; they are the same fields.
   */
  datatype Parameters = Parameters(
    radius: Num,
    minorRadius: Num,
    constant: Num,
    precision: Num,
    iterations: int,
    seed: int,
    functions: int,
    flameCoefficients: int,
    preRotate: bool,
    postRotate: bool)

  /** The two renderer families: vector (SVG) output and immediate-mode GL. */
  datatype Family = Svg | Gl

  /** A bound renderer: model depth, render depth and the model type's id. */
  datatype Renderer = Renderer(family: Family, depth: nat, renderDepth: nat, id: string)

  /** The projection's view matrix, known by the eye and target it was last computed for. */
  datatype View = Initial | LookingFrom(eye: seq<Num>, target: seq<Num>)

  /** One rung of the ladder, for dimension k. */
  datatype Level = Level(from: seq<Num>, to: seq<Num>, fromp: seq<Num>, matrix: seq<seq<Num>>, view: View)

  /** The base tier: shared options, colours and exclusive ownership of the renderer. */
  datatype Base = Base(
    polarCoordinates: bool,
    parameter: Parameters,
    exportMultiplier: Num,
    background: Colour,
    wireframe: Colour,
    surface: Colour,
    model: Option<Renderer>,
    idPrefix: string)

  datatype State = State(top: nat, levels: map<nat, Level>, base: Base)

  /** Vector and matrix code the program links against but that is not part of this model. */
  datatype Geometry = Geometry(toCartesian: seq<Num> -> seq<Num>, identity: nat -> seq<seq<Num>>)

  /** Conversion keeps the dimension; the identity for dimension k is (k+1)×(k+1). */
  ghost predicate Sound(g: Geometry) {
    && (forall v :: |g.toCartesian(v)| == |v|)
    && (forall k: nat :: Square(g.identity(k), k + 1))
  }

  /**
   * The text form of numbers: `show` is the stream output of a double,
   * `read` is `std::stold`, `None` standing for the exception it throws.
   */
  datatype Literals = Literals(show: Num -> string, read: string -> Option<Num>)

  /** `n` prints as a non-empty literal that reads back as `n`. */
  ghost predicate ReadsBack(lit: Literals, n: Num) {
    lit.show(n) != "" && lit.read(lit.show(n)) == Some(n)
  }

  predicate Square(m: seq<seq<Num>>, n: nat) {
    |m| == n && forall i :: 0 <= i < n ==> |m[i]| == n
  }

  predicate Shaped(l: Level, k: nat) {
    |l.from| == k && |l.to| == k && |l.fromp| == k && Square(l.matrix, k + 1)
  }

  /** Exactly the rungs 2..top exist, each with the shape of its dimension. */
  ghost predicate Valid(s: State) {
    && 2 <= s.top
    && (forall k :: k in s.levels <==> 2 <= k <= s.top)
    && (forall k :: k in s.levels ==> Shaped(s.levels[k], k))
  }

  /** Replacing one rung by a record of the same shape keeps the ladder valid and the other rungs as they were. */
  function WithRung(s: State, k: nat, l: Level): (r: State)
    requires Valid(s) && 2 <= k <= s.top && Shaped(l, k)
    ensures Valid(r) && r.top == s.top && r.base == s.base && r.levels[k] == l
    ensures forall j :: j in s.levels && j != k ==> r.levels[j] == s.levels[j]
  {
    s.(levels := s.levels[k := l])
  }

  /** Two valid scenes of the same height with the same rungs and base tier are the same scene. */
  lemma SameScene(s: State, t: State)
    requires Valid(s) && Valid(t) && s.top == t.top && s.base == t.base
    requires forall k :: 2 <= k <= s.top ==> s.levels[k] == t.levels[k]
    ensures s == t
  {
    assert s.levels == t.levels;
  }

  /** `name()` of either renderer family: the decimal depth, a dash, the id. */
  function Name(r: Renderer): (n: string)
    ensures |n| == |ShowNat(r.depth)| + 1 + |r.id|
    ensures DigitPrefixLen(n) == |ShowNat(r.depth)|
    ensures n[..|ShowNat(r.depth)|] == ShowNat(r.depth)
    ensures n[|ShowNat(r.depth)|] == '-'
    ensures n[|ShowNat(r.depth)| + 1..] == r.id
  {
    var p := ShowNat(r.depth);
    DigitPrefixOfDigits(p, "-" + r.id);
    assert p + "-" + r.id == p + ("-" + r.id);
    p + "-" + r.id
  }

  /** The two families compute the same name from depth and id alone. */
  lemma NameIgnoresFamily(r: Renderer, f: Family)
    ensures Name(r.(family := f)) == Name(r)
    ensures r.depth <= IntMax ==> Stoi(Name(r)) == Some(r.depth)
  {
    if r.depth <= IntMax {
      assert Name(r) == ShowNat(r.depth) + ("-" + r.id);
      StoiOfShowNat(r.depth, "-" + r.id);
    }
  }

  function Zeros(k: nat): (v: seq<Num>)
    ensures |v| == k && forall i :: 0 <= i < k ==> v[i] == 0.0
  {
    seq(k, _ => 0.0)
  }

  /** The polar camera a rung starts with: (3, 1, 1) at dimension 3, (2, 1.57, …) elsewhere. */
  function DefaultPolar(k: nat): (p: seq<Num>)
    requires 2 <= k
    ensures |p| == k
    ensures p[0] == (if k == 3 then 3.0 else 2.0)
    ensures forall i :: 1 <= i < k ==> p[i] == (if k == 3 then 1.0 else 1.57)
  {
    if k == 3 then [3.0, 1.0, 1.0] else [2.0] + seq(k - 1, _ => 1.57)
  }

  function NewLevel(k: nat, g: Geometry): (l: Level)
    requires 2 <= k && Sound(g)
    ensures Shaped(l, k)
  {
    Level(Zeros(k), Zeros(k), DefaultPolar(k), g.identity(k), Initial)
  }

  /** The base tier's constructor; `foreign` holds the parameter bag's own defaults. */
  function NewBase(foreign: Parameters): Base {
    Base(
      polarCoordinates := true,
      parameter := foreign.(radius := 1.0, precision := 10.0),
      exportMultiplier := 2.0,
      background := Colour(0.45, 0.45, 0.65, 1.0),
      wireframe := Colour(1.0, 1.0, 1.0, 1.0),
      surface := Colour(1.0, 1.0, 1.0, 0.1),
      model := None,
      idPrefix := "")
  }

  /** Constructing `state<Q,top>`: every rung from `top` down to 2, then the base. */
  function NewState(top: nat, g: Geometry, foreign: Parameters): (s: State)
    requires 2 <= top && Sound(g)
    ensures Valid(s) && s.top == top
    ensures s.base.polarCoordinates && s.base.model == None && s.base.idPrefix == ""
    ensures s.base.exportMultiplier == 2.0
    ensures s.base.parameter.radius == 1.0 && s.base.parameter.precision == 10.0
    ensures s.base.background == Colour(0.45, 0.45, 0.65, 1.0)
    ensures s.base.wireframe == Colour(1.0, 1.0, 1.0, 1.0)
    ensures s.base.surface == Colour(1.0, 1.0, 1.0, 0.1)
    ensures forall k :: 2 <= k <= top ==>
      && s.levels[k].from == Zeros(k) && s.levels[k].to == Zeros(k)
      && s.levels[k].fromp == DefaultPolar(k)
      && s.levels[k].matrix == g.identity(k)
  {
    State(top, map k | 2 <= k <= top :: NewLevel(k, g), NewBase(foreign))
  }
}
