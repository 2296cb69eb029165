/**
 * Encoding a scene with `metadata()` and decoding the result with `parse`
 * restores what the encoder writes: each rung's camera in the mode the base
 * tier is in, the mode itself, the radius, the precision and the three
 * colours. Everything the encoder does not write, or writes but the decoder
 * never reads (export multiplier, id prefix), stays as the target had it.
 */
module RoundTrip {
  import opened Wrappers
  import opened Text
  import opened Scene
  import opened Metadata
  import opened XmlCodec

  /** A rung after its camera element has been read back: the written camera vector is the source's. */
  function Restored(l: Level, src: Level, polar: bool): Level {
    if polar then l.(fromp := src.fromp) else l.(from := src.from)
  }

  /** The base tier after the fix point has read back what the encoder wrote. */
  function RestoredBase(b: Base, src: Base): Base {
    b.(polarCoordinates := src.polarCoordinates,
       parameter := b.parameter.(radius := src.parameter.radius, precision := src.parameter.precision),
       background := src.background,
       wireframe := src.wireframe,
       surface := src.surface)
  }

  // ------------------------------------------------------- numbers written

  /** The camera vector rung l writes in the given mode. */
  function Written(l: Level, polar: bool): seq<Num> {
    if polar then l.fromp else l.from
  }

  /** Every coordinate rung l writes in the given mode reads back. */
  ghost predicate CameraReadsBack(lit: Literals, l: Level, polar: bool) {
    forall j :: 0 <= j < |Written(l, polar)| ==> ReadsBack(lit, Written(l, polar)[j])
  }

  /** Every channel of c prints as a non-empty literal. */
  ghost predicate ShowsColour(lit: Literals, c: Colour) {
    lit.show(c.red) != "" && lit.show(c.green) != "" && lit.show(c.blue) != "" && lit.show(c.alpha) != ""
  }

  ghost predicate ColourReadsBack(lit: Literals, c: Colour) {
    ReadsBack(lit, c.red) && ReadsBack(lit, c.green) && ReadsBack(lit, c.blue) && ReadsBack(lit, c.alpha)
  }

  /** The base tier's radius, precision and colour channels read back. */
  ghost predicate BaseReadsBack(lit: Literals, b: Base) {
    && ReadsBack(lit, b.parameter.radius) && ReadsBack(lit, b.parameter.precision)
    && ColourReadsBack(lit, b.background) && ColourReadsBack(lit, b.wireframe) && ColourReadsBack(lit, b.surface)
  }

  /**
   * Every number of scene s that its document writes and the decoder reads
   * reads back: the camera vectors of rungs 3 and up in the scene's mode,
   * the radius, the precision and the colour channels. Finitely many
   * numbers, so a text form that prints enough digits meets it.
   */
  ghost predicate FaithfulFor(lit: Literals, s: State) {
    && BaseReadsBack(lit, s.base)
    && forall k :: 3 <= k <= s.top && k in s.levels ==> CameraReadsBack(lit, s.levels[k], s.base.polarCoordinates)
  }

  /** A text form that knows exactly the numbers a freshly constructed scene holds. */
  function DefaultsText(n: Num): string {
    if n == 0.1 then "0.1" else if n == 0.45 then "0.45" else if n == 0.65 then "0.65"
    else if n == 1.0 then "1" else if n == 1.57 then "1.57" else if n == 2.0 then "2"
    else if n == 3.0 then "3" else if n == 10.0 then "10" else ""
  }

  function DefaultsRead(t: string): Option<Num> {
    if t == "0.1" then Some(0.1) else if t == "0.45" then Some(0.45) else if t == "0.65" then Some(0.65)
    else if t == "1" then Some(1.0) else if t == "1.57" then Some(1.57) else if t == "2" then Some(2.0)
    else if t == "3" then Some(3.0) else if t == "10" then Some(10.0) else None
  }

  const Defaults := Literals(DefaultsText, DefaultsRead)

  /** The condition is met by real scenes: a freshly constructed one of any height meets it. */
  lemma NewSceneFaithful(top: nat, g: Geometry, foreign: Parameters)
    requires 2 <= top && Sound(g)
    ensures FaithfulFor(Defaults, NewState(top, g, foreign))
  {
    var s := NewState(top, g, foreign);
    forall k | 3 <= k <= top && k in s.levels
      ensures CameraReadsBack(Defaults, s.levels[k], true)
    {
      var v := DefaultPolar(k);
      assert Written(s.levels[k], true) == v;
      forall j | 0 <= j < k
        ensures ReadsBack(Defaults, v[j])
      {
      }
    }
  }

  // ------------------------------------------------------------ one camera

  /** Axis i of a written polar camera is read as a polar value, the one written. */
  lemma PolarAxisSource(src: Level, k: nat, i: nat, lit: Literals)
    requires 1 <= k && Shaped(src, k) && i < k && lit.show(src.fromp[i]) != ""
    ensures AxisSource(CameraElement(src, k, true, lit), i) == Polar(lit.show(src.fromp[i]))
  {
    var e := CameraElement(src, k, true, lit);
    PolarCameraRead(src, k, lit);
    if i == 0 {
      assert Attr(e, "radius") == lit.show(src.fromp[0]);
    } else {
      assert Attr(e, ThetaName(i)) == lit.show(src.fromp[i]);
    }
  }

  /** Axis i of a written cartesian camera is read as a cartesian value, the one written. */
  lemma CartesianAxisSource(src: Level, k: nat, i: nat, lit: Literals)
    requires 1 <= k && Shaped(src, k) && i < k && lit.show(src.from[i]) != ""
    ensures AxisSource(CameraElement(src, k, false, lit), i) == Cartesian(lit.show(src.from[i]))
  {
    var e := CameraElement(src, k, false, lit);
    CartesianCameraRead(src, k, lit);
    assert Attr(e, ThetaName(i)) == "";
  }

  /** Overwriting entry i with the source's and keeping the source's tail is keeping it from i on. */
  lemma SpliceStep(a: seq<Num>, v: seq<Num>, i: nat)
    requires |a| == |v| && i < |a|
    ensures a[i := v[i]][..i + 1] + v[i + 1..] == a[..i] + v[i..]
  {
    var lhs := a[i := v[i]][..i + 1] + v[i + 1..];
    var rhs := a[..i] + v[i..];
    assert |lhs| == |rhs|;
    forall j | 0 <= j < |lhs|
      ensures lhs[j] == rhs[j]
    {
      if j < i {
      } else if j == i {
      } else {
        assert lhs[j] == v[j];
      }
    }
  }

  /** An element whose axes i..k-1 all carry readable polar values writes them into `fromp` and nothing else. */
  lemma {:induction false} PolarAxes(l: Level, e: Element, v: seq<Num>, k: nat, i: nat, lit: Literals)
    requires Shaped(l, k) && |v| == k && i <= k
    requires forall j :: i <= j < k ==> ReadsBack(lit, v[j])
    requires forall j :: i <= j < k ==> AxisSource(e, j) == Polar(lit.show(v[j]))
    ensures CameraAxes(l, e, k, i, lit) == Done(l.(fromp := l.fromp[..i] + v[i..]))
    decreases k - i
  {
    if i == k {
      assert l.fromp[..i] + v[i..] == l.fromp;
    } else {
      PolarAxisStep(l, e, k, i, lit.show(v[i]), v[i], lit);
      var l1 := l.(fromp := l.fromp[i := v[i]]);
      PolarAxes(l1, e, v, k, i + 1, lit);
      SpliceStep(l.fromp, v, i);
    }
  }

  /** An element whose axes i..k-1 all carry readable cartesian values writes them into `from` and nothing else. */
  lemma {:induction false} CartesianAxes(l: Level, e: Element, v: seq<Num>, k: nat, i: nat, lit: Literals)
    requires Shaped(l, k) && |v| == k && i <= k
    requires forall j :: i <= j < k ==> ReadsBack(lit, v[j])
    requires forall j :: i <= j < k ==> AxisSource(e, j) == Cartesian(lit.show(v[j]))
    ensures CameraAxes(l, e, k, i, lit) == Done(l.(from := l.from[..i] + v[i..]))
    decreases k - i
  {
    if i == k {
      assert l.from[..i] + v[i..] == l.from;
    } else {
      CartesianAxisStep(l, e, k, i, lit.show(v[i]), v[i], lit);
      var l1 := l.(from := l.from[i := v[i]]);
      CartesianAxes(l1, e, v, k, i + 1, lit);
      SpliceStep(l.from, v, i);
    }
  }

  /** Reading back one camera element restores the camera vector it was written from. */
  lemma CameraRestores(l: Level, src: Level, k: nat, polar: bool, lit: Literals)
    requires 1 <= k && Shaped(l, k) && Shaped(src, k) && CameraReadsBack(lit, src, polar)
    ensures CameraAxes(l, CameraElement(src, k, polar, lit), k, 0, lit) == Done(Restored(l, src, polar))
  {
    var e := CameraElement(src, k, polar, lit);
    assert Written(src, polar) == if polar then src.fromp else src.from;
    if polar {
      forall j | 0 <= j < k
        ensures AxisSource(e, j) == Polar(lit.show(src.fromp[j]))
      {
        PolarAxisSource(src, k, j, lit);
      }
      PolarAxes(l, e, src.fromp, k, 0, lit);
      assert l.fromp[..0] + src.fromp[0..] == src.fromp;
    } else {
      forall j | 0 <= j < k
        ensures AxisSource(e, j) == Cartesian(lit.show(src.from[j]))
      {
        CartesianAxisSource(src, k, j, lit);
      }
      CartesianAxes(l, e, src.from, k, 0, lit);
      assert l.from[..0] + src.from[0..] == src.from;
    }
  }

  // ------------------------------------------------------ visiting elements

  lemma {:induction false} CamerasNone(l: Level, es: seq<Element>, k: nat, lit: Literals)
    requires Shaped(l, k)
    requires forall j :: 0 <= j < |es| ==> !IsCamera(es[j], k)
    ensures Cameras(l, es, k, lit) == Done(l)
    decreases |es|
  {
    if |es| > 0 {
      CamerasNone(l, es[1..], k, lit);
    }
  }

  /** With one matching camera element, the rung's cameras are that element's axes. */
  lemma {:induction false} CamerasOnly(l: Level, es: seq<Element>, k: nat, p: nat, lit: Literals)
    requires Shaped(l, k) && p < |es| && IsCamera(es[p], k)
    requires forall j :: 0 <= j < |es| && j != p ==> !IsCamera(es[j], k)
    requires CameraAxes(l, es[p], k, 0, lit).Done?
    ensures Cameras(l, es, k, lit) == CameraAxes(l, es[p], k, 0, lit)
    decreases |es|
  {
    if p > 0 {
      CamerasOnly(l, es[1..], k, p - 1, lit);
    } else {
      CamerasNone(CameraAxes(l, es[0], k, 0, lit).value, es[1..], k, lit);
    }
  }

  lemma {:induction false} CellElementsNone(m: seq<seq<Num>>, es: seq<Element>, k: nat, lit: Literals)
    requires Square(m, k + 1)
    requires forall j :: 0 <= j < |es| ==> es[j].name != "transformation"
    ensures CellElements(m, es, k, lit) == Done(m)
    decreases |es|
  {
    if |es| > 0 {
      CellElementsNone(m, es[1..], k, lit);
    }
  }

  /** Elements before position c that do not answer `//name/@a` can be dropped. */
  lemma {:induction false} FirstAttrDrop(es: seq<Element>, c: nat, name: string, a: string)
    requires c <= |es|
    requires forall j :: 0 <= j < c ==> !(es[j].name == name && HasAttr(es[j], a))
    ensures FirstAttr(es, name, a) == FirstAttr(es[c..], name, a)
    decreases c
  {
    if c > 0 {
      assert !(es[0].name == name && HasAttr(es[0], a));
      assert FirstAttr(es, name, a) == FirstAttr(es[1..], name, a);
      FirstAttrDrop(es[1..], c - 1, name, a);
      assert es[1..][c - 1..] == es[c..];
    }
  }

  /** Elements before position c that are not model declarations can be dropped. */
  lemma {:induction false} FirstModelDrop(es: seq<Element>, c: nat)
    requires c <= |es|
    requires forall j :: 0 <= j < c ==> !IsModel(es[j])
    ensures FirstModel(es) == FirstModel(es[c..])
    decreases c
  {
    if c > 0 {
      assert !IsModel(es[0]);
      FirstModelDrop(es[1..], c - 1);
      assert es[1..][c - 1..] == es[c..];
    }
  }

  lemma {:induction false} AttrFound(attrs: seq<(string, string)>, a: string)
    requires AttrIn(attrs, a) != ""
    ensures exists i :: 0 <= i < |attrs| && attrs[i].0 == a
    decreases |attrs|
  {
    if attrs[0].0 != a {
      AttrFound(attrs[1..], a);
      var i :| 0 <= i < |attrs[1..]| && attrs[1..][i].0 == a;
      assert attrs[i + 1].0 == a;
    }
  }

  /** The first element of a name, if it gives the attribute a non-empty value, is where the path leads. */
  lemma FirstAttrHead(e: Element, rest: seq<Element>, a: string)
    requires Attr(e, a) != ""
    ensures FirstAttr([e] + rest, e.name, a) == Attr(e, a)
  {
    AttrFound(e.attrs, a);
  }

  // ------------------------------------------------------- the document

  /** The base tier's elements: one one-attribute camera, no transformations. */
  lemma BaseShape(b: Base, lit: Literals)
    ensures var bs := BaseElements(b, lit);
      forall j :: 0 <= j < |bs| ==>
        && bs[j].name != "transformation" && bs[j].name != "ifs" && bs[j].name != "flame"
        && bs[j].name != "coordinates"
        && (bs[j].name == "model" <==> b.model.Some? && j == 1)
        && (bs[j].name == "camera" ==> |bs[j].attrs| == 1)
        && (bs[j].name == "camera" <==> j == 0)
  {
  }

  /** No attribute of a rung's camera is called `mode`. */
  lemma CameraHasNoMode(l: Level, k: nat, polar: bool, lit: Literals)
    requires 1 <= k && Shaped(l, k)
    ensures !HasAttr(CameraElement(l, k, polar, lit), "mode")
  {
    var attrs := CameraAttrs(l, k, polar, lit);
    forall i | 0 <= i < k
      ensures attrs[i].0 != "mode"
    {
      if polar {
        if i > 0 {
          assert ThetaName(i)[0] == 't';
        }
      } else {
        if i >= 52 {
          assert AxisName(i)[0] == 'd';
        }
      }
    }
  }

  /** The document `metadata()` writes: rung cameras top first, then the base tier's elements. */
  lemma MetadataShape(s: State, lit: Literals)
    requires Valid(s)
    ensures var es := Metadata.Metadata(s, s.top, lit);
      && (forall j :: 0 <= j < s.top - 2 ==> es[j] == CameraElement(s.levels[s.top - j], s.top - j, s.base.polarCoordinates, lit))
      && (forall j :: s.top - 2 <= j < |es| ==> es[j] == BaseElements(s.base, lit)[j - (s.top - 2)])
  {
    SuffixAt(Metadata.Metadata(s, s.top, lit), s.top - 2, BaseElements(s.base, lit));
  }

  lemma SuffixAt(es: seq<Element>, c: nat, bs: seq<Element>)
    requires c <= |es| && es[c..] == bs
    ensures forall j :: c <= j < |es| ==> es[j] == bs[j - c]
  {
    forall j | c <= j < |es|
      ensures es[j] == bs[j - c]
    {
      assert es[c..][j - c] == es[j];
    }
  }

  /** The document of a scene holds no transformation element. */
  lemma MetadataNoTransformation(s: State, lit: Literals)
    requires Valid(s)
    ensures var es := Metadata.Metadata(s, s.top, lit);
      forall j :: 0 <= j < |es| ==> es[j].name != "transformation"
  {
    MetadataShape(s, lit);
    BaseShape(s.base, lit);
  }

  /** In the document of a scene, the camera with k attributes is rung k's, and there is none for k = 2. */
  lemma MetadataCameraOf(s: State, k: nat, lit: Literals)
    requires Valid(s) && 2 <= k <= s.top
    ensures var es := Metadata.Metadata(s, s.top, lit);
      forall j :: 0 <= j < |es| && IsCamera(es[j], k) ==> k >= 3 && j == s.top - k
  {
    var es := Metadata.Metadata(s, s.top, lit);
    MetadataShape(s, lit);
    BaseShape(s.base, lit);
    forall j | 0 <= j < |es| && IsCamera(es[j], k)
      ensures k >= 3 && j == s.top - k
    {
      if j < s.top - 2 {
        assert |es[j].attrs| == s.top - j;
      }
    }
  }

  /** The first element of a name that carries the attribute is where `//name/@a` leads. */
  lemma {:induction false} FirstAttrAt(es: seq<Element>, p: nat, a: string)
    requires p < |es| && Attr(es[p], a) != ""
    requires forall j :: 0 <= j < p ==> !(es[j].name == es[p].name && HasAttr(es[j], a))
    ensures FirstAttr(es, es[p].name, a) == Attr(es[p], a)
    decreases p
  {
    if p == 0 {
      AttrFound(es[0].attrs, a);
    } else {
      FirstAttrAt(es[1..], p - 1, a);
    }
  }

  /** The camera element of one rung does not answer a path the fix point asks. */
  lemma RungCameraSilent(s: State, j: nat, lit: Literals, name: string, a: string)
    requires Valid(s) && j < s.top - 2
    requires name != "camera" || a == "mode"
    ensures var es := Metadata.Metadata(s, s.top, lit);
      !(es[j].name == name && HasAttr(es[j], a))
  {
    var es := Metadata.Metadata(s, s.top, lit);
    assert es[j] == CameraElement(s.levels[s.top - j], s.top - j, s.base.polarCoordinates, lit);
    if name == "camera" {
      CameraHasNoMode(s.levels[s.top - j], s.top - j, s.base.polarCoordinates, lit);
    }
  }

  /** In the document of a scene, the rung cameras never answer a path the fix point asks. */
  lemma MetadataFirstAttr(s: State, lit: Literals, name: string, a: string)
    requires Valid(s)
    requires name != "camera" || a == "mode"
    ensures FirstAttr(Metadata.Metadata(s, s.top, lit), name, a) == FirstAttr(BaseElements(s.base, lit), name, a)
  {
    var es := Metadata.Metadata(s, s.top, lit);
    var c := s.top - 2;
    forall j | 0 <= j < c
      ensures !(es[j].name == name && HasAttr(es[j], a))
    {
      RungCameraSilent(s, j, lit, name, a);
    }
    FirstAttrDrop(es, c, name, a);
  }

  /** What the fix point finds in the base tier's elements: the values written from the base tier. */
  lemma BaseScalars(b: Base, lit: Literals)
    requires lit.show(b.parameter.radius) != "" && lit.show(b.parameter.precision) != ""
    ensures var bs := BaseElements(b, lit);
      && FirstAttr(bs, "camera", "mode") == (if b.polarCoordinates then "polar" else "cartesian")
      && FirstAttr(bs, "options", "radius") == lit.show(b.parameter.radius)
      && FirstAttr(bs, "precision", "polar") == lit.show(b.parameter.precision)
  {
    var bs := BaseElements(b, lit);
    var m := |ModelElements(b.model)|;
    FirstAttrAt(bs, 0, "mode");
    FirstAttrAt(bs, 1 + m, "radius");
    FirstAttrAt(bs, 2 + m, "polar");
  }

  lemma ColourAttrs(name: string, c: Colour, lit: Literals)
    ensures var e := ColourElement(name, c, lit);
      && Attr(e, "red") == lit.show(c.red) && Attr(e, "green") == lit.show(c.green)
      && Attr(e, "blue") == lit.show(c.blue) && Attr(e, "alpha") == lit.show(c.alpha)
  {
    var attrs := ColourElement(name, c, lit).attrs;
    AttrAt(attrs, 0, "red");
    AttrAt(attrs, 1, "green");
    AttrAt(attrs, 2, "blue");
    AttrAt(attrs, 3, "alpha");
  }

  /** Where a colour element sits in the base tier's elements, with no earlier element of its name. */
  lemma ColourPosition(b: Base, slot: Slot, lit: Literals) returns (p: nat)
    ensures var bs := BaseElements(b, lit);
      && p < |bs| && bs[p] == ColourElement(SlotElement(slot), GetColour(b, slot), lit)
      && forall j :: 0 <= j < p ==> bs[j].name != SlotElement(slot)
  {
    var bs := BaseElements(b, lit);
    var m := |ModelElements(b.model)|;
    p := match slot case Background => 3 + m case Wireframe => 4 + m case Surface => 5 + m;
    assert bs[p] == ColourElement(SlotElement(slot), GetColour(b, slot), lit);
  }

  lemma BaseColour(b: Base, slot: Slot, lit: Literals)
    requires ShowsColour(lit, GetColour(b, slot))
    ensures var bs := BaseElements(b, lit);
      && FirstAttr(bs, SlotElement(slot), "red") == lit.show(GetColour(b, slot).red)
      && FirstAttr(bs, SlotElement(slot), "green") == lit.show(GetColour(b, slot).green)
      && FirstAttr(bs, SlotElement(slot), "blue") == lit.show(GetColour(b, slot).blue)
      && FirstAttr(bs, SlotElement(slot), "alpha") == lit.show(GetColour(b, slot).alpha)
  {
    var bs := BaseElements(b, lit);
    var col := GetColour(b, slot);
    var p := ColourPosition(b, slot, lit);
    ColourAttrs(SlotElement(slot), col, lit);
    FirstAttrAt(bs, p, "red");
    FirstAttrAt(bs, p, "green");
    FirstAttrAt(bs, p, "blue");
    FirstAttrAt(bs, p, "alpha");
  }

  // ------------------------------------------------------------ fix point

  lemma ColourStepRestores(b: Base, es: seq<Element>, slot: Slot, col: Colour, lit: Literals)
    requires ColourReadsBack(lit, col)
    requires FirstAttr(es, SlotElement(slot), "red") == lit.show(col.red)
    requires FirstAttr(es, SlotElement(slot), "green") == lit.show(col.green)
    requires FirstAttr(es, SlotElement(slot), "blue") == lit.show(col.blue)
    requires FirstAttr(es, SlotElement(slot), "alpha") == lit.show(col.alpha)
    ensures ColourStep(Done(b), es, slot, lit) == Done(SetColour(b, slot, col))
  {
    assert ColourRead(GetColour(b, slot), es, SlotElement(slot), lit) == Done(col);
  }

  /** A document giving the encoder's texts for the precision, radius and mode. */
  ghost predicate CarriesOptions(es: seq<Element>, src: Base, lit: Literals) {
    && FirstAttr(es, "camera", "mode") == (if src.polarCoordinates then "polar" else "cartesian")
    && FirstAttr(es, "options", "radius") == lit.show(src.parameter.radius)
    && FirstAttr(es, "precision", "polar") == lit.show(src.parameter.precision)
  }

  /** A document giving the encoder's texts for one colour. */
  ghost predicate CarriesColour(es: seq<Element>, slot: Slot, col: Colour, lit: Literals) {
    && FirstAttr(es, SlotElement(slot), "red") == lit.show(col.red)
    && FirstAttr(es, SlotElement(slot), "green") == lit.show(col.green)
    && FirstAttr(es, SlotElement(slot), "blue") == lit.show(col.blue)
    && FirstAttr(es, SlotElement(slot), "alpha") == lit.show(col.alpha)
  }

  /** A document with no IFS or flame settings. */
  ghost predicate CarriesNoIfs(es: seq<Element>) {
    forall a :: FirstAttr(es, "ifs", a) == "" && FirstAttr(es, "flame", a) == ""
  }

  lemma OptionsRestore(b: Base, es: seq<Element>, src: Base, lit: Literals)
    requires ReadsBack(lit, src.parameter.radius) && ReadsBack(lit, src.parameter.precision)
    requires CarriesOptions(es, src, lit)
    ensures Options(Done(b), es, lit) ==
      Done(b.(polarCoordinates := src.polarCoordinates,
              parameter := b.parameter.(radius := src.parameter.radius, precision := src.parameter.precision)))
  {
  }

  lemma ColoursRestore(b: Base, es: seq<Element>, src: Base, lit: Literals)
    requires ColourReadsBack(lit, src.background) && ColourReadsBack(lit, src.wireframe) && ColourReadsBack(lit, src.surface)
    requires CarriesColour(es, Background, src.background, lit)
    requires CarriesColour(es, Wireframe, src.wireframe, lit)
    requires CarriesColour(es, Surface, src.surface, lit)
    ensures Colours(Done(b), es, lit) ==
      Done(b.(background := src.background, wireframe := src.wireframe, surface := src.surface))
  {
    ColourStepRestores(b, es, Background, src.background, lit);
    var b1 := b.(background := src.background);
    ColourStepRestores(b1, es, Wireframe, src.wireframe, lit);
    var b2 := b1.(wireframe := src.wireframe);
    ColourStepRestores(b2, es, Surface, src.surface, lit);
  }

  lemma IfsUntouched(b: Base, es: seq<Element>, lit: Literals)
    requires CarriesNoIfs(es)
    ensures Ifs(Done(b), es, lit) == Done(b)
  {
    assert FirstAttr(es, "ifs", "iterations") == "";
    assert FirstAttr(es, "ifs", "seed") == "";
    assert FirstAttr(es, "ifs", "functions") == "";
    assert FirstAttr(es, "ifs", "pre-rotate") == "";
    assert FirstAttr(es, "ifs", "post-rotate") == "";
    assert FirstAttr(es, "flame", "coefficients") == "";
  }

  /** The fix point over such a document sets exactly the written scalars. */
  lemma ScalarsRestore(b: Base, es: seq<Element>, src: Base, lit: Literals)
    requires BaseReadsBack(lit, src) && CarriesOptions(es, src, lit) && CarriesNoIfs(es)
    requires CarriesColour(es, Background, src.background, lit)
    requires CarriesColour(es, Wireframe, src.wireframe, lit)
    requires CarriesColour(es, Surface, src.surface, lit)
    ensures Scalars(b, es, lit) == Done(RestoredBase(b, src))
  {
    OptionsRestore(b, es, src, lit);
    var b1 := Options(Done(b), es, lit).value;
    ColoursRestore(b1, es, src, lit);
    var b2 := Colours(Done(b1), es, lit).value;
    IfsUntouched(b2, es, lit);
  }

  /** The document of a scene carries its mode, radius and precision. */
  lemma MetadataCarriesOptions(s: State, lit: Literals)
    requires Valid(s) && lit.show(s.base.parameter.radius) != "" && lit.show(s.base.parameter.precision) != ""
    ensures CarriesOptions(Metadata.Metadata(s, s.top, lit), s.base, lit)
  {
    BaseScalars(s.base, lit);
    MetadataFirstAttr(s, lit, "camera", "mode");
    MetadataFirstAttr(s, lit, "options", "radius");
    MetadataFirstAttr(s, lit, "precision", "polar");
  }

  /** The document of a scene carries each of its colours. */
  lemma MetadataCarriesColour(s: State, slot: Slot, lit: Literals)
    requires Valid(s) && ShowsColour(lit, GetColour(s.base, slot))
    ensures CarriesColour(Metadata.Metadata(s, s.top, lit), slot, GetColour(s.base, slot), lit)
  {
    BaseColour(s.base, slot, lit);
    MetadataFirstAttr(s, lit, SlotElement(slot), "red");
    MetadataFirstAttr(s, lit, SlotElement(slot), "green");
    MetadataFirstAttr(s, lit, SlotElement(slot), "blue");
    MetadataFirstAttr(s, lit, SlotElement(slot), "alpha");
  }

  /** The document of a scene has no IFS or flame settings. */
  lemma MetadataCarriesNoIfs(s: State, lit: Literals)
    requires Valid(s)
    ensures CarriesNoIfs(Metadata.Metadata(s, s.top, lit))
  {
    var bs := BaseElements(s.base, lit);
    BaseShape(s.base, lit);
    forall a
      ensures FirstAttr(Metadata.Metadata(s, s.top, lit), "ifs", a) == ""
      ensures FirstAttr(Metadata.Metadata(s, s.top, lit), "flame", a) == ""
    {
      MetadataFirstAttr(s, lit, "ifs", a);
      MetadataFirstAttr(s, lit, "flame", a);
      FirstAttrOfOthers(bs, "ifs", a);
      FirstAttrOfOthers(bs, "flame", a);
    }
  }

  // ------------------------------------------------------------- the rungs

  /** A rung of a document without transformations keeps its matrix: only its cameras change it. */
  lemma RungWithoutTransformations(l: Level, es: seq<Element>, k: nat, lit: Literals, g: Geometry)
    requires Shaped(l, k) && Sound(g) && Cameras(l, es, k, lit).Done?
    requires forall j :: 0 <= j < |es| ==> es[j].name != "transformation"
    ensures ParseRung(l, es, k, lit, g) == Cameras(l, es, k, lit)
  {
    var l1 := Cameras(l, es, k, lit).value;
    assert IdentityResets(l1.matrix, es, k, g) == l1.matrix;
    CellElementsNone(l1.matrix, es, k, lit);
  }

  lemma CamerasRestore(s: State, l: Level, k: nat, lit: Literals)
    requires Valid(s) && FaithfulFor(lit, s) && 2 <= k <= s.top && Shaped(l, k)
    ensures Cameras(l, Metadata.Metadata(s, s.top, lit), k, lit) ==
      Done(if k >= 3 then Restored(l, s.levels[k], s.base.polarCoordinates) else l)
  {
    var es := Metadata.Metadata(s, s.top, lit);
    MetadataCameraOf(s, k, lit);
    if k >= 3 {
      CameraOfRung(s, k, lit);
      var p := s.top - k;
      var e := CameraElement(s.levels[k], k, s.base.polarCoordinates, lit);
      CameraRestores(l, s.levels[k], k, s.base.polarCoordinates, lit);
      assert es[p] == e && IsCamera(e, k);
      CamerasOnly(l, es, k, p, lit);
    } else {
      CamerasNone(l, es, k, lit);
    }
  }

  lemma CameraOfRung(s: State, k: nat, lit: Literals)
    requires Valid(s) && 3 <= k <= s.top
    ensures Metadata.Metadata(s, s.top, lit)[s.top - k] == CameraElement(s.levels[k], k, s.base.polarCoordinates, lit)
  {
    MetadataShape(s, lit);
  }

  /**
   * Rung k of a target reading a scene's document: from dimension 3 up, the
   * camera vector of the scene's mode is the scene's; rung 2, which the
   * encoder never writes, is left alone; the matrix is never touched.
   */
  lemma RungRestore(s: State, t: State, k: nat, lit: Literals, g: Geometry)
    requires Valid(s) && Valid(t) && s.top == t.top && FaithfulFor(lit, s) && Sound(g) && 2 <= k <= s.top
    ensures ParseRung(t.levels[k], Metadata.Metadata(s, s.top, lit), k, lit, g) ==
      Done(if k >= 3 then Restored(t.levels[k], s.levels[k], s.base.polarCoordinates) else t.levels[k])
  {
    CamerasRestore(s, t.levels[k], k, lit);
    MetadataNoTransformation(s, lit);
    RungWithoutTransformations(t.levels[k], Metadata.Metadata(s, s.top, lit), k, lit, g);
  }

  // --------------------------------------------------------------- theorem

  /**
   * Decoding a scene's document into any scene of the same height returns
   * true; every rung from 3 up gets the camera vector of the written mode,
   * the base tier gets the mode, radius, precision and colours, and nothing
   * else changes.
   */
  lemma XmlRoundTrip(s: State, t: State, lit: Literals, g: Geometry)
    requires Valid(s) && Valid(t) && s.top == t.top && FaithfulFor(lit, s) && Sound(g)
    ensures var o := Decode(t, Document(true, Metadata.Metadata(s, s.top, lit)), lit, g);
      && o.Returned? && o.ok && o.state.top == t.top
      && o.state.levels[2] == t.levels[2]
      && (forall k :: 3 <= k <= s.top ==>
            o.state.levels[k] == Restored(t.levels[k], s.levels[k], s.base.polarCoordinates))
      && o.state.base == RestoredBase(t.base, s.base)
  {
    var es := Metadata.Metadata(s, s.top, lit);
    var doc := Document(true, es);
    forall k | 2 <= k <= t.top
      ensures ParseRung(t.levels[k], es, k, lit, g).Done?
      ensures ParseRung(t.levels[k], es, k, lit, g).value ==
        (if k >= 3 then Restored(t.levels[k], s.levels[k], s.base.polarCoordinates) else t.levels[k])
    {
      RungRestore(s, t, k, lit, g);
    }
    ScalarsOfMetadata(s, t.base, lit);
    ParseByRung(t, doc, t.top, lit, g);
  }

  /** The fix point over a scene's document restores the scalars it wrote. */
  lemma ScalarsOfMetadata(s: State, b: Base, lit: Literals)
    requires Valid(s) && BaseReadsBack(lit, s.base)
    ensures Scalars(b, Metadata.Metadata(s, s.top, lit), lit) == Done(RestoredBase(b, s.base))
  {
    MetadataCarriesOptions(s, lit);
    MetadataCarriesNoIfs(s, lit);
    MetadataCarriesColour(s, Background, lit);
    MetadataCarriesColour(s, Wireframe, lit);
    MetadataCarriesColour(s, Surface, lit);
    ScalarsRestore(b, Metadata.Metadata(s, s.top, lit), s.base, lit);
  }

  /** An outcome that restored a scene's own camera vectors and scalars into it is that scene. */
  lemma RestoredIntoItself(s: State, o: Outcome)
    requires Valid(s) && Valid(o.state) && o.Returned? && o.ok && o.state.top == s.top
    requires o.state.levels[2] == s.levels[2]
    requires forall k :: 3 <= k <= s.top ==>
      o.state.levels[k] == Restored(s.levels[k], s.levels[k], s.base.polarCoordinates)
    requires o.state.base == RestoredBase(s.base, s.base)
    ensures o == Returned(true, s)
  {
    forall k | 2 <= k <= s.top
      ensures o.state.levels[k] == s.levels[k]
    {
      if k >= 3 {
        var l := s.levels[k];
        assert Restored(l, l, s.base.polarCoordinates) == l;
      }
    }
    assert o.state.levels == s.levels;
  }

  /** A scene reading its own document back is unchanged. */
  lemma XmlSelfRoundTrip(s: State, lit: Literals, g: Geometry)
    requires Valid(s) && FaithfulFor(lit, s) && Sound(g)
    ensures Decode(s, Document(true, Metadata.Metadata(s, s.top, lit)), lit, g) == Returned(true, s)
  {
    XmlRoundTrip(s, s, lit, g);
    RestoredIntoItself(s, Decode(s, Document(true, Metadata.Metadata(s, s.top, lit)), lit, g));
  }

  // ----------------------------------------------------------- model request

  lemma {:induction false} FirstModelAt(es: seq<Element>, p: nat)
    requires p < |es| && IsModel(es[p])
    requires forall j :: 0 <= j < p ==> !IsModel(es[j])
    ensures FirstModel(es) == Some(es[p])
    decreases p
  {
    if p > 0 {
      FirstModelAt(es[1..], p - 1);
    }
  }

  /** The document of a scene has no coordinate format. */
  lemma MetadataNoFormat(s: State, lit: Literals)
    requires Valid(s)
    ensures FirstAttr(Metadata.Metadata(s, s.top, lit), "coordinates", "format") == ""
  {
    MetadataShape(s, lit);
    BaseShape(s.base, lit);
    FirstAttrOfOthers(Metadata.Metadata(s, s.top, lit), "coordinates", "format");
  }

  /** The first model element of the base tier's elements is the bound renderer's, if any. */
  lemma BaseFirstModel(b: Base, lit: Literals)
    ensures FirstModel(BaseElements(b, lit)) ==
      (match b.model case None => None case Some(r) => Some(ModelElement(r)))
  {
    var bs := BaseElements(b, lit);
    BaseShape(b, lit);
    if b.model.Some? {
      var e := ModelElement(b.model.value);
      assert e.attrs[0].0 == "type" && e.attrs[1].0 == "depth";
      assert bs[1] == e;
      FirstModelAt(bs, 1);
    }
  }

  /** The first model element of a scene's document is the bound renderer's, if any. */
  lemma MetadataModel(s: State, lit: Literals)
    requires Valid(s)
    ensures FirstModel(Metadata.Metadata(s, s.top, lit)) ==
      (match s.base.model case None => None case Some(r) => Some(ModelElement(r)))
  {
    var es := Metadata.Metadata(s, s.top, lit);
    var c := s.top - 2;
    MetadataShape(s, lit);
    forall j | 0 <= j < c
      ensures !IsModel(es[j])
    {
      assert es[j].name == "camera";
    }
    FirstModelDrop(es, c);
    BaseFirstModel(s.base, lit);
  }

  /** What `parseModel` reads from the element of a bound renderer. */
  lemma ModelElementRead(r: Renderer)
    requires r.depth <= IntMax && r.renderDepth <= IntMax
    ensures var e := ModelElement(r);
      && Attr(e, "type") == r.id
      && Stoi(Attr(e, "depth")) == Some(r.depth)
      && Attr(e, "render-depth") != ""
      && Stoi(Attr(e, "render-depth")) == Some(r.renderDepth)
  {
    var e := ModelElement(r);
    AttrAt(e.attrs, 0, "type");
    AttrAt(e.attrs, 1, "depth");
    AttrAt(e.attrs, 2, "render-depth");
    StoiOfShowNat(r.depth, "D");
    StoiOfShowNat(r.renderDepth, "D");
  }

  /**
   * The document of a scene asks `parseModel` for exactly its bound
   * renderer, in the cartesian format; a render depth of 0 is read back by
   * the render-depth rule. With no renderer bound it asks for nothing.
   */
  lemma ModelRoundTrip(s: State, lit: Literals)
    requires Valid(s)
    requires s.base.model.Some? ==> s.base.model.value.depth <= IntMax && s.base.model.value.renderDepth <= IntMax
    ensures var q := ModelRequest(Metadata.Metadata(s, s.top, lit));
      && (s.base.model.None? ==> q == NoModel)
      && (s.base.model.Some? ==>
            var r := s.base.model.value;
            q == Read(Request("cartesian", r.id, r.depth, AdjustRenderDepth(r.id, r.depth, r.renderDepth))))
  {
    MetadataNoFormat(s, lit);
    MetadataModel(s, lit);
    if s.base.model.Some? {
      ModelElementRead(s.base.model.value);
    }
  }
}
