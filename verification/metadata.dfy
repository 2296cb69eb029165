/**
 * The attribute document and `metadata()`: the encoder that writes one
 * camera element per rung, top rung first, then the base tier's elements.
 * Elements are the ones in Topologic's XML namespace, each a local name and
 * its attributes in the order they are written.
 */
module Metadata {
  import opened Wrappers
  import opened Text
  import opened Scene

  datatype Element = Element(name: string, attrs: seq<(string, string)>)

  /** The value of attribute `a` of `e`, or "" when there is none (XPath's string cast). */
  function Attr(e: Element, a: string): string {
    AttrIn(e.attrs, a)
  }

  function AttrIn(attrs: seq<(string, string)>, a: string): string {
    if |attrs| == 0 then ""
    else if attrs[0].0 == a then attrs[0].1
    else AttrIn(attrs[1..], a)
  }

  predicate HasAttr(e: Element, a: string) {
    exists i :: 0 <= i < |e.attrs| && e.attrs[i].0 == a
  }

  /** The attribute that carries a name is found, as long as no earlier one has that name. */
  lemma {:induction false} AttrAt(attrs: seq<(string, string)>, i: nat, a: string)
    requires i < |attrs| && attrs[i].0 == a
    requires forall j :: 0 <= j < i ==> attrs[j].0 != a
    ensures AttrIn(attrs, a) == attrs[i].1
  {
    if i > 0 {
      AttrAt(attrs[1..], i - 1, a);
    }
  }

  lemma {:induction false} AttrAbsent(attrs: seq<(string, string)>, a: string)
    requires forall j :: 0 <= j < |attrs| ==> attrs[j].0 != a
    ensures AttrIn(attrs, a) == ""
  {
    if |attrs| > 0 {
      AttrAbsent(attrs[1..], a);
    }
  }


  /** The C array as laid out in memory: `sizeof` counts the terminating NUL as a 53rd entry. */
  const CartesianDimensions: string := Alphabet + ['\0']

  /** Position of a letter in the alphabet, -1 for anything else. */
  function LetterIndex(c: char): int {
    if 'x' <= c <= 'z' then c as int - 'x' as int
    else if 'a' <= c <= 'w' then 3 + ('w' as int - c as int)
    else if 'A' <= c <= 'Z' then 26 + ('Z' as int - c as int)
    else -1
  }

  /** The alphabet in four runs of 13, small enough for the verifier to index. */
  const Run1: string := "xyzwvutsrqpon"
  const Run2: string := "mlkjihgfedcba"
  const Run3: string := "ZYXWVUTSRQPON"
  const Run4: string := "MLKJIHGFEDCBA"

  /**
   * The 52 axis letters of `cartesianDimensions`, without the string's
   * terminator: "xyzwvutsrqponmlkjihgfedcbaZYXWVUTSRQPONMLKJIHGFEDCBA".
   */
  const Alphabet: string := Run1 + Run2 + Run3 + Run4

  lemma RunsIndexed()
    ensures forall i :: 0 <= i < 13 ==> LetterIndex(Run1[i]) == i && LetterIndex(Run2[i]) == 13 + i
    ensures forall i :: 0 <= i < 13 ==> LetterIndex(Run3[i]) == 26 + i && LetterIndex(Run4[i]) == 39 + i
  {
    assert forall i :: 0 <= i < 13 ==> LetterIndex(Run1[i]) == i;
    assert forall i :: 0 <= i < 13 ==> LetterIndex(Run2[i]) == 13 + i;
    assert forall i :: 0 <= i < 13 ==> LetterIndex(Run3[i]) == 26 + i;
    assert forall i :: 0 <= i < 13 ==> LetterIndex(Run4[i]) == 39 + i;
  }

  /** Every letter sits at the position `LetterIndex` gives it, so the 52 letters are pairwise distinct. */
  lemma AlphabetIndexed()
    ensures |Alphabet| == 52
    ensures forall i :: 0 <= i < |Alphabet| ==> LetterIndex(Alphabet[i]) == i
  {
    RunsIndexed();
    forall i | 0 <= i < 52
      ensures LetterIndex(Alphabet[i]) == i
    {
      if i < 13 { assert Alphabet[i] == Run1[i]; }
      else if i < 26 { assert Alphabet[i] == Run2[i - 13]; }
      else if i < 39 { assert Alphabet[i] == Run3[i - 26]; }
      else { assert Alphabet[i] == Run4[i - 39]; }
    }
  }

  /**
   * Axis naming as the program writes it: an index below `sizeof` of the
   * alphabet array takes the character there, anything larger is `d-<i>`.
   */
  function AxisNameAsWritten(i: nat): string {
    if i < |CartesianDimensions| then [CartesianDimensions[i]] else "d-" + ShowNat(i)
  }

  /**
   * Index 52 falls inside `sizeof` but reads the terminator: the 53rd axis
   * is named by a NUL character instead of `d-52`.
   */
  lemma AxisNameAsWrittenAt52()
    ensures AxisNameAsWritten(52) == ['\0']
    ensures AxisNameAsWritten(52) != "d-" + ShowNat(52)
    ensures LetterIndex(AxisNameAsWritten(52)[0]) == -1
  {
    AlphabetIndexed();
  }

  /** Axis naming with the bound the alphabet evidently intends: 52 letters, then `d-<i>`. */
  function AxisName(i: nat): (n: string)
    ensures 1 <= |n| && '\0' !in n
    ensures i < 52 ==> |n| == 1 && LetterIndex(n[0]) == i
    ensures i >= 52 ==> |n| > 2 && n[..2] == "d-"
  {
    AlphabetIndexed();
    if i < |Alphabet| then [Alphabet[i]]
    else
      assert forall j :: 0 <= j < |ShowNat(i)| ==> IsDigit(ShowNat(i)[j]);
      "d-" + ShowNat(i)
  }

  /** Distinct axes get distinct names, and only index 52 is named differently from the program. */
  lemma AxisNameCorrected(i: nat, j: nat)
    ensures i != j ==> AxisName(i) != AxisName(j)
    ensures i != 52 ==> AxisName(i) == AxisNameAsWritten(i)
  {
    AlphabetIndexed();
    if i != j && AxisName(i) == AxisName(j) {
      if i >= 52 && j >= 52 {
        assert ShowNat(i) == AxisName(i)[2..];
        ShowNatInjective(i, j);
      }
    }
  }

  /** `theta-<i>`, the name of the i-th polar angle. */
  function ThetaName(i: nat): string {
    "theta-" + ShowNat(i)
  }

  /** The camera attributes of polar mode: the radius first, then one angle per further axis. */
  function PolarAttrs(l: Level, k: nat, lit: Literals): (attrs: seq<(string, string)>)
    requires 1 <= k && Shaped(l, k)
    ensures |attrs| == k && attrs[0] == ("radius", lit.show(l.fromp[0]))
    ensures forall i :: 1 <= i < k ==> attrs[i] == (ThetaName(i), lit.show(l.fromp[i]))
  {
    [("radius", lit.show(l.fromp[0]))] + seq(k - 1, i requires 0 <= i < k - 1 => (ThetaName(i + 1), lit.show(l.fromp[i + 1])))
  }

  /** The camera attributes of cartesian mode: one coordinate per axis. */
  function CartesianAttrs(l: Level, k: nat, lit: Literals): (attrs: seq<(string, string)>)
    requires Shaped(l, k)
    ensures |attrs| == k
    ensures forall i :: 0 <= i < k ==> attrs[i] == (AxisName(i), lit.show(l.from[i]))
  {
    seq(k, i requires 0 <= i < k => (AxisName(i), lit.show(l.from[i])))
  }

  /** The attributes of rung k's camera: the radius and k-1 angles, or k coordinates. */
  function CameraAttrs(l: Level, k: nat, polar: bool, lit: Literals): (attrs: seq<(string, string)>)
    requires 1 <= k && Shaped(l, k)
    ensures |attrs| == k
  {
    if polar then PolarAttrs(l, k, lit) else CartesianAttrs(l, k, lit)
  }

  lemma ThetaNamesDistinct(i: nat, j: nat)
    ensures i != j ==> ThetaName(i) != ThetaName(j)
    ensures ThetaName(i) != "radius"
  {
    if i != j && ThetaName(i) == ThetaName(j) {
      assert ShowNat(i) == ThetaName(i)[6..];
      assert ShowNat(j) == ThetaName(j)[6..];
      ShowNatInjective(i, j);
    }
    assert ThetaName(i)[0] == 't';
  }

  lemma AxisNameNotPolar(i: nat, j: nat)
    ensures AxisName(i) != "radius" && AxisName(i) != ThetaName(j)
  {
    if i >= 52 {
      assert AxisName(i)[0] == 'd';
      assert ThetaName(j)[0] == 't';
    }
  }

  /**
   * What a decoder finds in a polar camera element: the radius and every
   * angle, under pairwise distinct names.
   */
  lemma PolarCameraRead(l: Level, k: nat, lit: Literals)
    requires 1 <= k && Shaped(l, k)
    ensures var attrs := PolarAttrs(l, k, lit);
      && (forall i, j :: 0 <= i < j < k ==> attrs[i].0 != attrs[j].0)
      && AttrIn(attrs, "radius") == lit.show(l.fromp[0])
      && (forall i :: 1 <= i < k ==> AttrIn(attrs, ThetaName(i)) == lit.show(l.fromp[i]))
  {
    var attrs := PolarAttrs(l, k, lit);
    forall i, j | 0 <= i < j < k
      ensures attrs[i].0 != attrs[j].0
    {
      ThetaNamesDistinct(i, j);
      ThetaNamesDistinct(j, i);
    }
    AttrAt(attrs, 0, "radius");
    forall i | 1 <= i < k
      ensures AttrIn(attrs, ThetaName(i)) == lit.show(l.fromp[i])
    {
      AttrAt(attrs, i, ThetaName(i));
    }
  }

  /**
   * What a decoder finds in a cartesian camera element: every axis under its
   * own name, and neither a radius nor an angle.
   */
  lemma CartesianCameraRead(l: Level, k: nat, lit: Literals)
    requires Shaped(l, k)
    ensures var attrs := CartesianAttrs(l, k, lit);
      && (forall i, j :: 0 <= i < j < k ==> attrs[i].0 != attrs[j].0)
      && AttrIn(attrs, "radius") == ""
      && (forall i: nat :: AttrIn(attrs, ThetaName(i)) == "")
      && (forall i :: 0 <= i < k ==> AttrIn(attrs, AxisName(i)) == lit.show(l.from[i]))
  {
    var attrs := CartesianAttrs(l, k, lit);
    forall i, j | 0 <= i < j < k
      ensures attrs[i].0 != attrs[j].0
    {
      AxisNameCorrected(i, j);
    }
    forall j | 0 <= j < k
      ensures attrs[j].0 != "radius"
    {
      AxisNameNotPolar(j, 0);
    }
    AttrAbsent(attrs, "radius");
    forall i: nat
      ensures AttrIn(attrs, ThetaName(i)) == ""
    {
      forall j | 0 <= j < k
        ensures attrs[j].0 != ThetaName(i)
      {
        AxisNameNotPolar(j, i);
      }
      AttrAbsent(attrs, ThetaName(i));
    }
    forall i | 0 <= i < k
      ensures AttrIn(attrs, AxisName(i)) == lit.show(l.from[i])
    {
      forall j | 0 <= j < i
        ensures attrs[j].0 != AxisName(i)
      {
        AxisNameCorrected(j, i);
      }
      AttrAt(attrs, i, AxisName(i));
    }
  }

  function CameraElement(l: Level, k: nat, polar: bool, lit: Literals): Element
    requires 1 <= k && Shaped(l, k)
  {
    Element("camera", CameraAttrs(l, k, polar, lit))
  }

  function ColourElement(name: string, c: Colour, lit: Literals): Element {
    Element(name, [("red", lit.show(c.red)), ("green", lit.show(c.green)),
                   ("blue", lit.show(c.blue)), ("alpha", lit.show(c.alpha))])
  }

  /** The element `metadata()` writes for a bound renderer: counts carry a `D` suffix. */
  function ModelElement(r: Renderer): Element {
    Element("model", [("type", r.id), ("depth", ShowNat(r.depth) + "D"),
                      ("render-depth", ShowNat(r.renderDepth) + "D")])
  }

  /** The `model` declaration, written only while a renderer is bound. */
  function ModelElements(model: Option<Renderer>): seq<Element> {
    match model
    case None => []
    case Some(r) => [ModelElement(r)]
  }

  /** The base tier's `metadata()`. */
  function BaseElements(b: Base, lit: Literals): seq<Element> {
    [Element("camera", [("mode", if b.polarCoordinates then "polar" else "cartesian")])]
    + ModelElements(b.model)
    + [Element("options", [("radius", lit.show(b.parameter.radius)), ("id-prefix", b.idPrefix)]),
       Element("precision", [("polar", lit.show(b.parameter.precision)),
                             ("export-multiplier", lit.show(b.exportMultiplier))]),
       ColourElement("colour-background", b.background, lit),
       ColourElement("colour-wireframe", b.wireframe, lit),
       ColourElement("colour-surface", b.surface, lit)]
  }

  /**
   * `metadata()` of rung k: its own camera element, then everything the rung
   * below writes. Rung 2 is the base tier and writes no camera of dimension 2.
   */
  function Metadata(s: State, k: nat, lit: Literals): (es: seq<Element>)
    requires Valid(s) && 2 <= k <= s.top
    ensures |es| == k - 2 + |BaseElements(s.base, lit)|
    ensures es[k - 2..] == BaseElements(s.base, lit)
    ensures forall j :: 0 <= j < k - 2 ==>
      es[j] == CameraElement(s.levels[k - j], k - j, s.base.polarCoordinates, lit)
    decreases k
  {
    if k == 2 then BaseElements(s.base, lit)
    else [CameraElement(s.levels[k], k, s.base.polarCoordinates, lit)] + Metadata(s, k - 1, lit)
  }

  /** The text of one element, `<t:name a='v' …/>`. */
  function RenderElement(e: Element): string {
    "<t:" + e.name + RenderAttrs(e.attrs) + "/>"
  }

  function RenderAttrs(attrs: seq<(string, string)>): string {
    if |attrs| == 0 then "" else " " + attrs[0].0 + "='" + attrs[0].1 + "'" + RenderAttrs(attrs[1..])
  }

  function RenderAll(es: seq<Element>): string {
    if |es| == 0 then "" else RenderElement(es[0]) + RenderAll(es[1..])
  }

  /** The string `metadata()` returns at rung k. */
  function MetadataText(s: State, k: nat, lit: Literals): string
    requires Valid(s) && 2 <= k <= s.top
  {
    RenderAll(Metadata(s, k, lit))
  }
}
