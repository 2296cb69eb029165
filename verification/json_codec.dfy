/**
 * The value-tree form of the metadata: the same ladder walk as the XML form,
 * reading a `camera` array of per-dimension coordinate arrays and a
 * `transformation` array of flattened matrices, then the scalars at the
 * fix point. Nothing here can fail part-way: a wrong type is skipped.
 */
module JsonCodec {
  import opened Wrappers
  import opened Scene
  import opened Dispatch

  /** A parsed value tree. */
  datatype Json =
    | JNull
    | JBool(flag: bool)
    | JNumber(n: Num)
    | JString(text: string)
    | JArray(items: seq<Json>)
    | JObject(members: map<string, Json>)

  /** `value(key)` on an object: the member, or null when there is none. */
  function Member(v: Json, key: string): (r: Json)
    requires v.JObject?
    ensures key !in v.members ==> r == JNull
  {
    if key in v.members then v.members[key] else JNull
  }

  /**
   * The library's conversion of a value to a boolean (`(bool)value`), which
   * this model does not define; it is passed in.
   */
  type Truth = Json -> bool

  /** The value found, or the old one when nothing was found. */
  function Pick(o: Option<Num>, x: Num): Num {
    match o
    case Some(n) => n
    case None => x
  }

  // ---------------------------------------------------------------- cameras

  /** The numeric entries of c overwrite x; the others keep x. */
  function Overlay(x: seq<Num>, c: seq<Json>): (r: seq<Num>)
    requires |c| == |x|
    ensures |r| == |x|
    ensures forall i :: 0 <= i < |x| && !c[i].JNumber? ==> r[i] == x[i]
    ensures forall i :: 0 <= i < |x| && c[i].JNumber? ==> r[i] == c[i].n
  {
    seq(|x|, i requires 0 <= i < |x| => if c[i].JNumber? then c[i].n else x[i])
  }

  /** Whether an item of `camera` (or `transformation`) has the length n it must have to be used. */
  predicate Fits(c: Json, n: nat) {
    c.JArray? && |c.items| == n
  }

  /** The camera vector the mode writes: the polar one or the cartesian one. */
  function Camera(l: Level, polar: bool): seq<Num> {
    if polar then l.fromp else l.from
  }

  /** The camera arrays visited in order at dimension k; those of another length are ignored. */
  function CameraArrays(l: Level, cs: seq<Json>, k: nat, polar: bool): (r: Level)
    requires Shaped(l, k)
    ensures Shaped(r, k)
    ensures r.to == l.to && r.matrix == l.matrix && r.view == l.view
    ensures Camera(r, !polar) == Camera(l, !polar)
    decreases |cs|
  {
    if |cs| == 0 then l
    else
      var l1 :=
        if !Fits(cs[0], k) then l
        else if polar then l.(fromp := Overlay(l.fromp, cs[0].items))
        else l.(from := Overlay(l.from, cs[0].items));
      CameraArrays(l1, cs[1..], k, polar)
  }

  /** Entry i of the last array of length n in cs whose entry i is a number. */
  function LastNumber(cs: seq<Json>, n: nat, i: nat): Option<Num>
    decreases |cs|
  {
    if |cs| == 0 then None
    else
      match LastNumber(cs[1..], n, i)
      case Some(x) => Some(x)
      case None =>
        if Fits(cs[0], n) && i < n && cs[0].items[i].JNumber? then Some(cs[0].items[i].n) else None
  }

  /**
   * Several camera arrays: per coordinate, the last fitting array with a
   * number there wins; with none, the coordinate keeps its value.
   */
  lemma {:induction false} CameraArraysLastWriter(l: Level, cs: seq<Json>, k: nat, polar: bool)
    requires Shaped(l, k)
    ensures forall i :: 0 <= i < k ==>
      Camera(CameraArrays(l, cs, k, polar), polar)[i] == Pick(LastNumber(cs, k, i), Camera(l, polar)[i])
    decreases |cs|
  {
    if |cs| > 0 {
      var l1 :=
        if !Fits(cs[0], k) then l
        else if polar then l.(fromp := Overlay(l.fromp, cs[0].items))
        else l.(from := Overlay(l.from, cs[0].items));
      assert CameraArrays(l, cs, k, polar) == CameraArrays(l1, cs[1..], k, polar);
      CameraArraysLastWriter(l1, cs[1..], k, polar);
      forall i | 0 <= i < k
        ensures Camera(CameraArrays(l, cs, k, polar), polar)[i] == Pick(LastNumber(cs, k, i), Camera(l, polar)[i])
      {
        if LastNumber(cs[1..], k, i).None? {
          if Fits(cs[0], k) && cs[0].items[i].JNumber? {
            assert Camera(l1, polar)[i] == cs[0].items[i].n;
          } else {
            assert Camera(l1, polar)[i] == Camera(l, polar)[i];
          }
        }
      }
    }
  }

  // --------------------------------------------------------- transformations

  /** Row-major position of cell (i, j) in a flattened (k+1)×(k+1) matrix. */
  function Flat(i: nat, j: nat, k: nat): (p: nat)
    requires i <= k && j <= k
    ensures p < (k + 1) * (k + 1)
  {
    assert i * (k + 1) <= k * (k + 1) by {
      assert (k - i) * (k + 1) >= 0;
    }
    i * (k + 1) + j
  }

  /** The numeric entries of a flattened matrix overwrite the cells they stand for. */
  function Cells(m: seq<seq<Num>>, t: seq<Json>, k: nat): (r: seq<seq<Num>>)
    requires Square(m, k + 1) && |t| == (k + 1) * (k + 1)
    ensures Square(r, k + 1)
  {
    seq(k + 1, i requires 0 <= i <= k =>
      seq(k + 1, j requires 0 <= j <= k =>
        if t[Flat(i, j, k)].JNumber? then t[Flat(i, j, k)].n else m[i][j]))
  }

  /** The transformation arrays visited in order at dimension k; only those of length (k+1)² are used. */
  function TransformationArrays(m: seq<seq<Num>>, ts: seq<Json>, k: nat): (r: seq<seq<Num>>)
    requires Square(m, k + 1)
    ensures Square(r, k + 1)
    decreases |ts|
  {
    if |ts| == 0 then m
    else
      var m1 := if Fits(ts[0], (k + 1) * (k + 1)) then Cells(m, ts[0].items, k) else m;
      TransformationArrays(m1, ts[1..], k)
  }

  /**
   * Several transformation arrays: cell (i, j) takes entry i*(k+1)+j of the
   * last fitting array with a number there; with none, it keeps its value.
   */
  lemma {:induction false} TransformationArraysLastWriter(m: seq<seq<Num>>, ts: seq<Json>, k: nat)
    requires Square(m, k + 1)
    ensures forall i, j :: 0 <= i <= k && 0 <= j <= k ==>
      TransformationArrays(m, ts, k)[i][j] == Pick(LastNumber(ts, (k + 1) * (k + 1), Flat(i, j, k)), m[i][j])
    decreases |ts|
  {
    if |ts| > 0 {
      var m1 := if Fits(ts[0], (k + 1) * (k + 1)) then Cells(m, ts[0].items, k) else m;
      TransformationArraysLastWriter(m1, ts[1..], k);
    }
  }

  // ------------------------------------------------------------ the ladder

  /** One rung: `polar` picks the camera vector, then cameras, then transformations. */
  function ParseRung(l: Level, v: Json, k: nat, truth: Truth): (r: Level)
    requires v.JObject? && Shaped(l, k)
    ensures Shaped(r, k) && r.to == l.to && r.view == l.view
  {
    var polar := truth(Member(v, "polar"));
    var cameras := Member(v, "camera");
    var l1 := if cameras.JArray? then CameraArrays(l, cameras.items, k, polar) else l;
    var transformations := Member(v, "transformation");
    if transformations.JArray? then l1.(matrix := TransformationArrays(l1.matrix, transformations.items, k)) else l1
  }

  /** A colour array: index 0 unused, 1..4 red, green, blue, alpha, all four numbers or nothing. */
  predicate IsColour(c: Json) {
    c.JArray? && |c.items| >= 5
    && c.items[1].JNumber? && c.items[2].JNumber? && c.items[3].JNumber? && c.items[4].JNumber?
  }

  /** The colour a colour array spells out. */
  function ColourIn(x: Json): Colour
    requires IsColour(x)
  {
    Colour(x.items[1].n, x.items[2].n, x.items[3].n, x.items[4].n)
  }

  function ColourOf(c: Colour, x: Json): Colour {
    if IsColour(x) then ColourIn(x) else c
  }

  function NumberOr(x: Json, n: Num): Num {
    if x.JNumber? then x.n else n
  }

  function CountOr(x: Json, n: int): int {
    if x.JNumber? then Truncate(x.n) else n
  }

  function FlagOr(x: Json, b: bool, truth: Truth): bool {
    if x.JNull? then b else truth(x)
  }

  /**
   * The fix point: each scalar present with the right type replaces the old
   * one. The mode, multiplier, renderer and id prefix are not among them, and
   * an object without members changes nothing.
   */
  function Fix(b: Base, v: Json, truth: Truth): (r: Base)
    requires v.JObject?
    ensures r.polarCoordinates == b.polarCoordinates && r.exportMultiplier == b.exportMultiplier
    ensures r.model == b.model && r.idPrefix == b.idPrefix
    ensures v.members == map[] ==> r == b
  {
    var p := b.parameter;
    var p1 := p.(
      radius := NumberOr(Member(v, "radius"), p.radius),
      minorRadius := NumberOr(Member(v, "minorRadius"), p.minorRadius),
      constant := NumberOr(Member(v, "constant"), p.constant),
      precision := NumberOr(Member(v, "precision"), p.precision),
      iterations := CountOr(Member(v, "iterations"), p.iterations),
      seed := CountOr(Member(v, "seed"), p.seed),
      functions := CountOr(Member(v, "functions"), p.functions),
      flameCoefficients := CountOr(Member(v, "flameCoefficients"), p.flameCoefficients),
      preRotate := FlagOr(Member(v, "preRotate"), p.preRotate, truth),
      postRotate := FlagOr(Member(v, "postRotate"), p.postRotate, truth));
    b.(parameter := p1,
       background := ColourOf(b.background, Member(v, "background")),
       wireframe := ColourOf(b.wireframe, Member(v, "wireframe")),
       surface := ColourOf(b.surface, Member(v, "surface")))
  }

  /** `parse<Q,d>` on a value: rung d, the rungs below, then the fix point; a non-object changes nothing. */
  function Parse(s: State, v: Json, d: nat, truth: Truth): (r: (bool, State))
    requires Valid(s) && 1 <= d <= s.top
    ensures Valid(r.1) && r.1.top == s.top
    ensures r.0 <==> v.JObject?
    ensures !v.JObject? ==> r.1 == s
    ensures forall k :: d < k <= s.top ==> r.1.levels[k] == s.levels[k]
    ensures r.1.base.polarCoordinates == s.base.polarCoordinates
    ensures r.1.base.model == s.base.model
    decreases d
  {
    if !v.JObject? then (false, s)
    else if d == 1 then (true, s.(base := Fix(s.base, v, truth)))
    else Parse(WithRung(s, d, ParseRung(s.levels[d], v, d, truth)), v, d - 1, truth)
  }

  /** Every rung from d down holds what its own step made of it, the base tier what the fix point made of it. */
  lemma {:induction false} ParseByRung(s: State, v: Json, d: nat, truth: Truth)
    requires Valid(s) && 1 <= d <= s.top && v.JObject?
    ensures forall k :: 2 <= k <= d ==> Parse(s, v, d, truth).1.levels[k] == ParseRung(s.levels[k], v, k, truth)
    ensures Parse(s, v, d, truth).1.base == Fix(s.base, v, truth)
    decreases d
  {
    if d > 1 {
      var s1 := WithRung(s, d, ParseRung(s.levels[d], v, d, truth));
      assert Parse(s, v, d, truth) == Parse(s1, v, d - 1, truth);
      ParseByRung(s1, v, d - 1, truth);
    }
  }

  /** Decoding a whole scene starts at its top rung. */
  function Decode(s: State, v: Json, truth: Truth): (bool, State)
    requires Valid(s)
  {
    Parse(s, v, s.top, truth)
  }

  // -------------------------------------------------------------- the model

  /** The model request of a value: cube, cartesian, 4, 4 unless a member of the right type says otherwise. */
  function ModelRequest(v: Json): (q: (string, string, int, int))
    requires v.JObject?
  {
    var f := Member(v, "coordinateFormat");
    var t := Member(v, "model");
    var d := Member(v, "depth");
    var r := Member(v, "renderDepth");
    (if f.JString? then f.text else "cartesian",
     if t.JString? then t.text else "cube",
     if d.JNumber? then Truncate(d.n) else 4,
     if r.JNumber? then Truncate(r.n) else 4)
  }

  /** `parseModel` on a value: a non-object is refused, anything else is dispatched. */
  function ParseModel(s: State, v: Json, family: Family, known: Catalogue): (r: (bool, State))
    requires Bounded(known)
    ensures !v.JObject? ==> r == (false, s)
    ensures r.1 == s.(base := s.base.(model := r.1.base.model))
    ensures v.JObject? ==>
      var q := ModelRequest(v);
      && (known(q.0, q.1, q.2, q.3) ==> r.0 && r.1.base.model == Some(Renderer(family, q.2, q.3, q.1)))
      && (!known(q.0, q.1, q.2, q.3) ==> r == (s.base.model.Some?, s))
  {
    if !v.JObject? then (false, s)
    else
      var q := ModelRequest(v);
      var d := With(s, family, known, q.0, q.1, q.2, q.3);
      (d.ok, d.state)
  }

  /** The type each model member must have to count. */
  predicate Typed(key: string, x: Json) {
    if key == "coordinateFormat" || key == "model" then x.JString?
    else if key == "depth" || key == "renderDepth" then x.JNumber?
    else true
  }

  /** With no model member at all, the request is a 4-dimensional cartesian cube rendered in 4 dimensions. */
  lemma ModelRequestDefaults()
    ensures ModelRequest(JObject(map[])) == ("cartesian", "cube", 4, 4)
  {
  }

  /**
   * A model member of the wrong type counts as a missing one; one of the
   * right type overrides its default.
   */
  lemma ModelRequestMember(m: map<string, Json>, key: string, x: Json)
    requires key in {"coordinateFormat", "model", "depth", "renderDepth"}
    ensures !Typed(key, x) ==> ModelRequest(JObject(m[key := x])) == ModelRequest(JObject(m - {key}))
    ensures Typed(key, x) ==>
      var q := ModelRequest(JObject(m[key := x]));
      && (key == "coordinateFormat" ==> q.0 == x.text)
      && (key == "model" ==> q.1 == x.text)
      && (key == "depth" ==> q.2 == Truncate(x.n))
      && (key == "renderDepth" ==> q.3 == Truncate(x.n))
  {
  }

  /**
   * A colour member is taken whole or not at all: only an array of at least
   * five entries whose entries 1..4 are all numbers replaces the colour.
   */
  lemma DecodeColours(s: State, v: Json, truth: Truth)
    requires Valid(s) && v.JObject?
    ensures var b := Decode(s, v, truth).1.base;
      && (IsColour(Member(v, "background")) ==> b.background == ColourIn(Member(v, "background")))
      && (!IsColour(Member(v, "background")) ==> b.background == s.base.background)
      && (IsColour(Member(v, "wireframe")) ==> b.wireframe == ColourIn(Member(v, "wireframe")))
      && (!IsColour(Member(v, "wireframe")) ==> b.wireframe == s.base.wireframe)
      && (IsColour(Member(v, "surface")) ==> b.surface == ColourIn(Member(v, "surface")))
      && (!IsColour(Member(v, "surface")) ==> b.surface == s.base.surface)
  {
    ParseByRung(s, v, s.top, truth);
  }

  /**
   * A number member replaces its measure; a member of any other type, or
   * none, keeps the old one.
   */
  lemma DecodeMeasures(s: State, v: Json, truth: Truth)
    requires Valid(s) && v.JObject?
    ensures var p := Decode(s, v, truth).1.base.parameter; var q := s.base.parameter;
      && p.radius == (if Member(v, "radius").JNumber? then Member(v, "radius").n else q.radius)
      && p.minorRadius == (if Member(v, "minorRadius").JNumber? then Member(v, "minorRadius").n else q.minorRadius)
      && p.constant == (if Member(v, "constant").JNumber? then Member(v, "constant").n else q.constant)
      && p.precision == (if Member(v, "precision").JNumber? then Member(v, "precision").n else q.precision)
  {
    ParseByRung(s, v, s.top, truth);
  }

  /** A number member replaces its count, truncated toward zero; anything else keeps the old count. */
  lemma DecodeCounts(s: State, v: Json, truth: Truth)
    requires Valid(s) && v.JObject?
    ensures var p := Decode(s, v, truth).1.base.parameter; var q := s.base.parameter;
      && p.iterations == (if Member(v, "iterations").JNumber? then Truncate(Member(v, "iterations").n) else q.iterations)
      && p.seed == (if Member(v, "seed").JNumber? then Truncate(Member(v, "seed").n) else q.seed)
      && p.functions == (if Member(v, "functions").JNumber? then Truncate(Member(v, "functions").n) else q.functions)
      && p.flameCoefficients == (if Member(v, "flameCoefficients").JNumber?
                                 then Truncate(Member(v, "flameCoefficients").n) else q.flameCoefficients)
  {
    ParseByRung(s, v, s.top, truth);
  }

  /** A flag takes the truth of any member but null; a null or missing member keeps the old flag. */
  lemma DecodeFlags(s: State, v: Json, truth: Truth)
    requires Valid(s) && v.JObject?
    ensures var p := Decode(s, v, truth).1.base.parameter; var q := s.base.parameter;
      && p.preRotate == (if Member(v, "preRotate").JNull? then q.preRotate else truth(Member(v, "preRotate")))
      && p.postRotate == (if Member(v, "postRotate").JNull? then q.postRotate else truth(Member(v, "postRotate")))
  {
    ParseByRung(s, v, s.top, truth);
  }

  /** Applying the fix point of the same object twice is applying it once. */
  lemma FixIdempotent(b: Base, v: Json, truth: Truth)
    requires v.JObject?
    ensures Fix(Fix(b, v, truth), v, truth) == Fix(b, v, truth)
  {
  }

  /** A rung of an empty object is unchanged. */
  lemma RungOfEmpty(l: Level, k: nat, truth: Truth)
    requires Shaped(l, k)
    ensures ParseRung(l, JObject(map[]), k, truth) == l
  {
  }

  /** An object without members decodes to true and changes nothing. */
  lemma ParseEmpty(s: State, truth: Truth)
    requires Valid(s)
    ensures Decode(s, JObject(map[]), truth) == (true, s)
  {
    var v := JObject(map[]);
    ParseByRung(s, v, s.top, truth);
    var r := Decode(s, v, truth);
    forall k | 2 <= k <= s.top
      ensures r.1.levels[k] == s.levels[k]
    {
      RungOfEmpty(s.levels[k], k, truth);
    }
    assert Fix(s.base, v, truth) == s.base;
    SameScene(r.1, s);
  }
}
