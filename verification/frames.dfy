/**
 * The two frame producers as traces of output steps. A frame optionally
 * refreshes the ladder from the renderer's render depth, clears the output
 * buffer, and then writes (vector output) or issues (GL) its steps in a
 * fixed order. Geometry output itself is one step per pass.
 */
module Frames {
  import opened Wrappers
  import opened Scene
  import opened Ladder
  import opened Metadata

  datatype Event =
    | Refreshed(rungs: seq<nat>)
    | OutputCleared
    | Header
    | Title(name: string)
    | MetadataBlock(text: string)
    | Style(background: Colour, wireframeSelector: string, wireframe: Colour, surface: Colour)
    | SolidPass
    | PathOpen(id: string)
    | WireframePass
    | PathClose
    | ClearColour(colour: Colour)
    | ClearBuffers
    | PushMatrix
    | EnableDepthTest
    | LookAt(eye: seq<Num>, target: seq<Num>)
    | DepthMask(on: bool)
    | SetColour(colour: Colour)
    | Material(property: string)
    | PopMatrix
    | Flush
    | SwapBuffers

  /** The optional refresh that opens a frame, and the scene the rest of the frame sees. */
  function Prelude(s: State, r: Renderer, update: bool, g: Geometry): (p: (State, seq<Event>))
    requires Valid(s) && Sound(g) && 3 <= r.renderDepth <= s.top
    ensures Valid(p.0) && p.0.top == s.top && p.0.base == s.base
    ensures update ==> p == (Refresh(s, r.renderDepth, g).0, [Refreshed(Refresh(s, r.renderDepth, g).1)])
    ensures !update ==> p == (s, [])
    ensures p.1 == [] || (|p.1| == 1 && p.1[0].Refreshed?)
  {
    if update then
      var (s1, rungs) := Refresh(s, r.renderDepth, g);
      (s1, [Refreshed(rungs)])
    else (s, [])
  }

  /** One frame of vector output for renderer r. */
  function SvgFrame(s: State, r: Renderer, update: bool, lit: Literals, g: Geometry): (f: (State, seq<Event>))
    requires Valid(s) && Sound(g) && 3 <= r.renderDepth <= s.top
  {
    var (s1, pre) := Prelude(s, r, update, g);
    (s1, pre + SvgSteps(s1, r, lit))
  }

  /** One frame of GL output for renderer r; `gl3d` is the build that looks at rung 3's camera. */
  function GlFrame(s: State, r: Renderer, update: bool, gl3d: bool, g: Geometry): (f: (State, seq<Event>))
    requires Valid(s) && Sound(g) && 3 <= r.renderDepth <= s.top
  {
    var (s1, pre) := Prelude(s, r, update, g);
    (s1, pre + GlSteps(s1.base, GlCamera(s1, gl3d)))
  }

  /** The 3D build's camera steps: depth testing on, then a look from rung 3's eye at its target. */
  function GlCamera(s: State, gl3d: bool): (c: seq<Event>)
    requires Valid(s) && 3 <= s.top
    ensures c == [] || (|c| == 2 && c[0] == EnableDepthTest && c[1].LookAt?)
  {
    if gl3d then [EnableDepthTest, LookAt(s.levels[3].from, s.levels[3].to)] else []
  }

  /** Event a occurs strictly before event b. */
  predicate Before(es: seq<Event>, a: Event, b: Event) {
    exists i, j :: 0 <= i < j < |es| && es[i] == a && es[j] == b
  }

  /** The depth mask in force at the end of a prefix: the last one set. */
  function MaskInForce(es: seq<Event>): Option<bool>
    decreases |es|
  {
    if |es| == 0 then None
    else if es[|es| - 1].DepthMask? then Some(es[|es| - 1].on)
    else MaskInForce(es[..|es| - 1])
  }

  /** The drawing colour in force at the end of a prefix: the last one set. */
  function ColourInForce(es: seq<Event>): Option<Colour>
    decreases |es|
  {
    if |es| == 0 then None
    else if es[|es| - 1].SetColour? then Some(es[|es| - 1].colour)
    else ColourInForce(es[..|es| - 1])
  }


  lemma MaskSkip(p: seq<Event>, e: Event)
    requires !e.DepthMask?
    ensures MaskInForce(p + [e]) == MaskInForce(p)
  {
    assert (p + [e])[..|p|] == p;
  }

  /**
   * A pass is issued exactly once, and when it is, the depth mask and the
   * drawing colour last set are `mask` and `colour`.
   */
  ghost predicate DrawnOnceWith(es: seq<Event>, pass: Event, mask: bool, colour: Colour) {
    exists i :: 0 <= i < |es| && es[i] == pass && pass !in es[..i] && pass !in es[i + 1..]
      && MaskInForce(es[..i]) == Some(mask) && ColourInForce(es[..i]) == Some(colour)
  }

  /** The drawing steps of a GL frame, after the clear, push and camera steps in `head`. */
  function GlDraw(head: seq<Event>, b: Base): seq<Event> {
    head + [DepthMask(true), SetColour(b.wireframe), WireframePass,
            DepthMask(b.surface.alpha < 1.0),
            Material("specular"), Material("shininess"), Material("emission"),
            SetColour(b.surface), SolidPass, PopMatrix, Flush, SwapBuffers]
  }

  /** The events after the optional refresh of a GL frame; `camera` holds the 3D build's camera steps. */
  function GlSteps(b: Base, camera: seq<Event>): seq<Event> {
    GlDraw([OutputCleared, ClearColour(b.background), ClearBuffers, PushMatrix] + camera, b)
  }

  lemma GlWireframe(head: seq<Event>, b: Base)
    requires WireframePass !in head && SolidPass !in head
    ensures DrawnOnceWith(GlDraw(head, b), WireframePass, true, b.wireframe)
  {
    var es := GlDraw(head, b);
    var a := head + [DepthMask(true), SetColour(b.wireframe)];
    var i := |a|;
    assert es[..i] == a;
    assert es[i] == WireframePass;
    assert es[i + 1..] == [DepthMask(b.surface.alpha < 1.0),
      Material("specular"), Material("shininess"), Material("emission"),
      SetColour(b.surface), SolidPass, PopMatrix, Flush, SwapBuffers];
    assert a[..|a| - 1] == head + [DepthMask(true)];
    assert MaskInForce(a) == Some(true);
    assert ColourInForce(a) == Some(b.wireframe);
    assert WireframePass !in es[i + 1..];
    assert es[i] == WireframePass && WireframePass !in es[..i];
  }

  lemma GlSolid(head: seq<Event>, b: Base)
    requires WireframePass !in head && SolidPass !in head
    ensures DrawnOnceWith(GlDraw(head, b), SolidPass, b.surface.alpha < 1.0, b.surface)
    ensures Before(GlDraw(head, b), WireframePass, SolidPass)
  {
    var es := GlDraw(head, b);
    var m4 := head + [DepthMask(true), SetColour(b.wireframe), WireframePass, DepthMask(b.surface.alpha < 1.0)];
    var m5 := m4 + [Material("specular")];
    var m6 := m5 + [Material("shininess")];
    var m7 := m6 + [Material("emission")];
    var m := m7 + [SetColour(b.surface)];
    var tail := [PopMatrix, Flush, SwapBuffers];
    var i := |m|;
    assert es == m + [SolidPass] + tail;
    assert es[..i] == m;
    assert es[i] == SolidPass;
    assert es[i + 1..] == tail;
    assert SolidPass !in m4;
    assert SolidPass !in m;
    assert SolidPass !in tail;
    assert m4[..|m4| - 1] == head + [DepthMask(true), SetColour(b.wireframe), WireframePass];
    assert MaskInForce(m4) == Some(b.surface.alpha < 1.0);
    MaskSkip(m4, Material("specular"));
    MaskSkip(m5, Material("shininess"));
    MaskSkip(m6, Material("emission"));
    MaskSkip(m7, SetColour(b.surface));
    assert MaskInForce(m) == Some(b.surface.alpha < 1.0);
    assert m[..|m| - 1] == m7;
    assert ColourInForce(m) == Some(b.surface);
    assert es[i] == SolidPass && SolidPass !in es[..i] && SolidPass !in es[i + 1..];
    assert es[|head| + 2] == WireframePass;
  }

  /** The material steps of a GL draw sit between the two passes, in their fixed order. */
  lemma GlMaterials(head: seq<Event>, b: Base)
    ensures MaterialsBetween(GlDraw(head, b))
  {
    var es := GlDraw(head, b);
    var h := |head|;
    assert es[h + 2] == WireframePass && es[h + 4] == Material("specular");
    assert es[h + 5] == Material("shininess") && es[h + 6] == Material("emission") && es[h + 8] == SolidPass;
    BeforeAt(es, h + 2, h + 4);
    BeforeAt(es, h + 4, h + 5);
    BeforeAt(es, h + 5, h + 6);
    BeforeAt(es, h + 6, h + 8);
  }

  /** The material steps follow the wireframe pass in the fixed order specular, shininess, emission, and precede the solid pass. */
  predicate MaterialsBetween(es: seq<Event>) {
    && Before(es, WireframePass, Material("specular"))
    && Before(es, Material("specular"), Material("shininess"))
    && Before(es, Material("shininess"), Material("emission"))
    && Before(es, Material("emission"), SolidPass)
  }

  /**
   * A GL frame draws the wireframe once with depth writes on and the
   * wireframe colour, then sets the specular, shininess and emission
   * materials, then draws the solid once with depth writes on exactly when
   * the surface is translucent and the surface colour.
   */
  lemma GlDrawState(s: State, r: Renderer, update: bool, gl3d: bool, g: Geometry)
    requires Valid(s) && Sound(g) && 3 <= r.renderDepth <= s.top
    ensures var es := GlFrame(s, r, update, gl3d, g).1;
      && DrawnOnceWith(es, WireframePass, true, s.base.wireframe)
      && DrawnOnceWith(es, SolidPass, s.base.surface.alpha < 1.0, s.base.surface)
      && Before(es, WireframePass, SolidPass)
      && MaterialsBetween(es)
  {
    var (s1, pre) := Prelude(s, r, update, g);
    var camera := GlCamera(s1, gl3d);
    GlTraceDraws(pre, s1.base, camera);
  }

  /** The two passes of a GL frame behind the optional refresh event. */
  lemma GlTraceDraws(pre: seq<Event>, b: Base, camera: seq<Event>)
    requires camera == [] || (|camera| == 2 && camera[0] == EnableDepthTest && camera[1].LookAt?)
    requires pre == [] || (|pre| == 1 && pre[0].Refreshed?)
    ensures var es := pre + GlSteps(b, camera);
      && DrawnOnceWith(es, WireframePass, true, b.wireframe)
      && DrawnOnceWith(es, SolidPass, b.surface.alpha < 1.0, b.surface)
      && Before(es, WireframePass, SolidPass)
      && MaterialsBetween(es)
  {
    var head := pre + [OutputCleared, ClearColour(b.background), ClearBuffers, PushMatrix] + camera;
    assert pre + GlSteps(b, camera) == GlDraw(head, b);
    assert WireframePass !in head && SolidPass !in head;
    GlWireframe(head, b);
    GlSolid(head, b);
    GlMaterials(head, b);
  }

  /** Two positions of a trace, in order, witness that their events occur in that order. */
  lemma BeforeAt(es: seq<Event>, i: nat, j: nat)
    requires i < j < |es|
    ensures Before(es, es[i], es[j])
  {
  }

  /** Events of a trace keep their order behind a prefix, and the trace still starts right after it and ends last. */
  lemma AfterPrefix(pre: seq<Event>, es: seq<Event>)
    ensures |es| > 0 ==> (pre + es)[|pre|] == es[0] && (pre + es)[|pre + es| - 1] == es[|es| - 1]
    ensures forall a, b :: Before(es, a, b) ==> Before(pre + es, a, b)
  {
    forall a, b | Before(es, a, b)
      ensures Before(pre + es, a, b)
    {
      var i, j :| 0 <= i < j < |es| && es[i] == a && es[j] == b;
      assert (pre + es)[|pre| + i] == a && (pre + es)[|pre| + j] == b;
    }
  }

  /** A trace without refresh events, and optionally without camera steps, keeps that behind a prefix. */
  lemma QuietAfter(pre: seq<Event>, es: seq<Event>, noCamera: bool)
    requires forall i :: 0 <= i < |es| ==> !es[i].Refreshed?
    requires noCamera ==> forall i :: 0 <= i < |es| ==> !es[i].EnableDepthTest? && !es[i].LookAt?
    ensures forall i :: |pre| <= i < |pre + es| ==> !(pre + es)[i].Refreshed?
    ensures noCamera ==> forall i :: |pre| <= i < |pre + es| ==> !(pre + es)[i].EnableDepthTest? && !(pre + es)[i].LookAt?
  {
    forall i | |pre| <= i < |pre + es|
      ensures (pre + es)[i] == es[i - |pre|]
    {
    }
  }

  /** Where each step of a GL frame sits after its optional refresh; `c` camera steps come after the push. */
  lemma GlStepsAt(b: Base, camera: seq<Event>)
    requires camera == [] || (|camera| == 2 && camera[0] == EnableDepthTest && camera[1].LookAt?)
    ensures var es := GlSteps(b, camera); var c := |camera|;
      && |es| == 16 + c
      && es[0] == OutputCleared && es[1] == ClearColour(b.background) && es[2] == ClearBuffers && es[3] == PushMatrix
      && (c == 2 ==> es[4] == camera[0] && es[5] == camera[1])
      && es[c + 6] == WireframePass && es[c + 12] == SolidPass
      && es[c + 13] == PopMatrix && es[c + 14] == Flush && es[c + 15] == SwapBuffers
      && (forall i :: 0 <= i < |es| ==> !es[i].Refreshed? && ((!es[i].EnableDepthTest? && !es[i].LookAt?) || 4 <= i < 4 + c))
  {
    var draw := [DepthMask(true), SetColour(b.wireframe), WireframePass,
                 DepthMask(b.surface.alpha < 1.0),
                 Material("specular"), Material("shininess"), Material("emission"),
                 SetColour(b.surface), SolidPass, PopMatrix, Flush, SwapBuffers];
    var head := [OutputCleared, ClearColour(b.background), ClearBuffers, PushMatrix] + camera;
    assert GlSteps(b, camera) == head + draw;
  }

  /** A GL frame's steps up to the wireframe pass: clear, clear colour, clear buffers, push, then any camera steps. */
  lemma GlOpenOrder(b: Base, camera: seq<Event>)
    requires camera == [] || (|camera| == 2 && camera[0] == EnableDepthTest && camera[1].LookAt?)
    ensures var es := GlSteps(b, camera);
      && es[0] == OutputCleared
      && Before(es, OutputCleared, ClearColour(b.background)) && Before(es, ClearColour(b.background), ClearBuffers)
      && Before(es, ClearBuffers, PushMatrix) && Before(es, PushMatrix, WireframePass)
      && (camera != [] ==>
            Before(es, PushMatrix, EnableDepthTest) && Before(es, EnableDepthTest, camera[1])
            && Before(es, camera[1], WireframePass))
  {
    var es := GlSteps(b, camera);
    var c := |camera|;
    GlStepsAt(b, camera);
    if c == 2 {
      BeforeAt(es, 3, 4);
      BeforeAt(es, 4, 5);
      BeforeAt(es, 5, 8);
    }
    BeforeAt(es, 0, 1);
    BeforeAt(es, 1, 2);
    BeforeAt(es, 2, 3);
    BeforeAt(es, 3, c + 6);
  }

  /** A GL frame's steps from the solid pass on: pop, flush, swap last; no refresh, and no camera step without the 3D build. */
  lemma GlCloseOrder(b: Base, camera: seq<Event>)
    requires camera == [] || (|camera| == 2 && camera[0] == EnableDepthTest && camera[1].LookAt?)
    ensures var es := GlSteps(b, camera);
      && es[|es| - 1] == SwapBuffers
      && (forall i :: 0 <= i < |es| ==> !es[i].Refreshed?)
      && (camera == [] ==> forall i :: 0 <= i < |es| ==> !es[i].EnableDepthTest? && !es[i].LookAt?)
      && Before(es, SolidPass, PopMatrix) && Before(es, PopMatrix, Flush) && Before(es, Flush, SwapBuffers)
  {
    var es := GlSteps(b, camera);
    var c := |camera|;
    GlStepsAt(b, camera);
    BeforeAt(es, c + 12, c + 13);
    BeforeAt(es, c + 13, c + 14);
    BeforeAt(es, c + 14, c + 15);
  }

  /**
   * A GL frame refreshes the ladder only when asked; then it clears the
   * output, clears the buffers to the background colour and pushes the
   * matrix before drawing; the 3D build turns on depth testing and looks
   * from rung 3's eye at its target before drawing.
   */
  lemma GlFrameOpens(s: State, r: Renderer, update: bool, gl3d: bool, g: Geometry)
    requires Valid(s) && Sound(g) && 3 <= r.renderDepth <= s.top
    ensures var (s1, es) := GlFrame(s, r, update, gl3d, g);
      var look := LookAt(s1.levels[3].from, s1.levels[3].to);
      && s1 == (if update then Refresh(s, r.renderDepth, g).0 else s)
      && (update <==> es[0].Refreshed?)
      && es[if update then 1 else 0] == OutputCleared
      && Before(es, OutputCleared, ClearColour(s.base.background))
      && Before(es, ClearColour(s.base.background), ClearBuffers)
      && Before(es, ClearBuffers, PushMatrix) && Before(es, PushMatrix, WireframePass)
      && (gl3d ==> Before(es, PushMatrix, EnableDepthTest) && Before(es, EnableDepthTest, look) && Before(es, look, WireframePass))
  {
    var (s1, pre) := Prelude(s, r, update, g);
    var camera := GlCamera(s1, gl3d);
    GlTraceOpens(pre, s1.base, camera);
  }

  /** The opening steps of a GL frame behind the optional refresh event. */
  lemma GlTraceOpens(pre: seq<Event>, b: Base, camera: seq<Event>)
    requires camera == [] || (|camera| == 2 && camera[0] == EnableDepthTest && camera[1].LookAt?)
    ensures var es := pre + GlSteps(b, camera);
      && es[|pre|] == OutputCleared
      && Before(es, OutputCleared, ClearColour(b.background)) && Before(es, ClearColour(b.background), ClearBuffers)
      && Before(es, ClearBuffers, PushMatrix) && Before(es, PushMatrix, WireframePass)
      && (camera != [] ==>
            Before(es, PushMatrix, EnableDepthTest) && Before(es, EnableDepthTest, camera[1])
            && Before(es, camera[1], WireframePass))
  {
    GlOpenOrder(b, camera);
    AfterPrefix(pre, GlSteps(b, camera));
  }

  /**
   * After both passes a GL frame pops the matrix, flushes and swaps the
   * buffers, which ends the frame; nothing after its first step is a
   * refresh, and the build without 3D issues no depth test and no camera.
   */
  lemma GlFrameCloses(s: State, r: Renderer, update: bool, gl3d: bool, g: Geometry)
    requires Valid(s) && Sound(g) && 3 <= r.renderDepth <= s.top
    ensures var es := GlFrame(s, r, update, gl3d, g).1;
      && es[|es| - 1] == SwapBuffers
      && (forall i :: 0 < i < |es| ==> !es[i].Refreshed?)
      && (!gl3d ==> forall i :: 0 <= i < |es| ==> !es[i].EnableDepthTest? && !es[i].LookAt?)
      && Before(es, SolidPass, PopMatrix) && Before(es, PopMatrix, Flush) && Before(es, Flush, SwapBuffers)
  {
    var (s1, pre) := Prelude(s, r, update, g);
    var camera := GlCamera(s1, gl3d);
    GlTraceCloses(pre, s1.base, camera);
  }

  /** The closing steps of a GL frame behind the optional refresh event. */
  lemma GlTraceCloses(pre: seq<Event>, b: Base, camera: seq<Event>)
    requires camera == [] || (|camera| == 2 && camera[0] == EnableDepthTest && camera[1].LookAt?)
    requires pre == [] || (|pre| == 1 && pre[0].Refreshed?)
    ensures var es := pre + GlSteps(b, camera);
      && es[|es| - 1] == SwapBuffers
      && (forall i :: 0 < i < |es| ==> !es[i].Refreshed?)
      && (camera == [] ==> forall i :: 0 <= i < |es| ==> !es[i].EnableDepthTest? && !es[i].LookAt?)
      && Before(es, SolidPass, PopMatrix) && Before(es, PopMatrix, Flush) && Before(es, Flush, SwapBuffers)
  {
    var steps := GlSteps(b, camera);
    GlCloseOrder(b, camera);
    AfterPrefix(pre, steps);
    QuietAfter(pre, steps, camera == []);
    QuietPrefix(pre, steps, camera == []);
  }

  /** Behind at most one refresh event, a quiet trace leaves only the first event a refresh, and brings no camera step. */
  lemma QuietPrefix(pre: seq<Event>, es: seq<Event>, noCamera: bool)
    requires pre == [] || (|pre| == 1 && pre[0].Refreshed?)
    requires forall i :: |pre| <= i < |pre + es| ==> !(pre + es)[i].Refreshed?
    requires noCamera ==> forall i :: |pre| <= i < |pre + es| ==> !(pre + es)[i].EnableDepthTest? && !(pre + es)[i].LookAt?
    ensures forall i :: 0 < i < |pre + es| ==> !(pre + es)[i].Refreshed?
    ensures noCamera ==> forall i :: 0 <= i < |pre + es| ==> !(pre + es)[i].EnableDepthTest? && !(pre + es)[i].LookAt?
  {
    if noCamera {
      forall i | 0 <= i < |pre|
        ensures (pre + es)[i].Refreshed?
      {
      }
    }
  }

  /** The events after the optional refresh of a vector frame. */
  function SvgSteps(s1: State, r: Renderer, lit: Literals): seq<Event>
    requires Valid(s1) && 3 <= r.renderDepth <= s1.top
  {
    var b := s1.base;
    [OutputCleared, Header, Title(Name(r)), MetadataBlock(MetadataText(s1, r.renderDepth, lit)),
     Style(b.background, b.idPrefix + "wireframe", b.wireframe, b.surface),
     SolidPass, PathOpen(b.idPrefix + "wireframe"), WireframePass, PathClose]
  }

  /** The order of the steps a vector frame writes after `pre`, whatever the contents of its blocks. */
  lemma SvgStepsOrder(pre: seq<Event>, title: string, meta: Event, style: Event, id: string)
    requires meta.MetadataBlock? && style.Style? && style.wireframeSelector == id
    ensures var es := pre + [OutputCleared, Header, Title(title), meta, style,
                             SolidPass, PathOpen(id), WireframePass, PathClose];
      && es[|pre|] == OutputCleared
      && (forall i :: |pre| <= i < |es| ==> !es[i].Refreshed?)
      && Before(es, Title(title), meta) && Before(es, meta, style)
      && Before(es, SolidPass, PathOpen(id)) && Before(es, PathOpen(id), WireframePass)
      && Before(es, WireframePass, PathClose)
  {
    var steps := [OutputCleared, Header, Title(title), meta, style,
                  SolidPass, PathOpen(id), WireframePass, PathClose];
    SvgStepsIn(steps);
    AfterPrefix(pre, steps);
    QuietAfter(pre, steps, false);
  }

  /** The order of a vector frame's steps on their own. */
  lemma SvgStepsIn(steps: seq<Event>)
    requires |steps| == 9 && steps[0] == OutputCleared && steps[1] == Header && steps[2].Title?
    requires steps[3].MetadataBlock? && steps[4].Style? && steps[5] == SolidPass && steps[6].PathOpen?
    requires steps[7] == WireframePass && steps[8] == PathClose
    ensures forall i :: 0 <= i < |steps| ==> !steps[i].Refreshed?
    ensures Before(steps, steps[2], steps[3]) && Before(steps, steps[3], steps[4])
    ensures Before(steps, SolidPass, steps[6]) && Before(steps, steps[6], WireframePass)
    ensures Before(steps, WireframePass, PathClose)
  {
    BeforeAt(steps, 2, 3);
    BeforeAt(steps, 3, 4);
    BeforeAt(steps, 5, 6);
    BeforeAt(steps, 6, 7);
    BeforeAt(steps, 7, 8);
  }

  /**
   * A vector frame refreshes the ladder from the render depth only when asked,
   * clears the output before writing, titles the document with the
   * renderer's name, writes the metadata of the scene it draws before the
   * style, and draws the solid before the wireframe path, whose id is the
   * selector the style gives the wireframe.
   */
  lemma SvgFrameOrder(s: State, r: Renderer, update: bool, lit: Literals, g: Geometry)
    requires Valid(s) && Sound(g) && 3 <= r.renderDepth <= s.top
    ensures var (s1, es) := SvgFrame(s, r, update, lit, g);
      var meta := MetadataBlock(MetadataText(s1, r.renderDepth, lit));
      var id := s.base.idPrefix + "wireframe";
      && s1 == (if update then Refresh(s, r.renderDepth, g).0 else s)
      && es[if update then 1 else 0] == OutputCleared
      && (update <==> es[0].Refreshed?)
      && (update ==> es[0] == Refreshed(Refresh(s, r.renderDepth, g).1))
      && (forall i :: 0 < i < |es| ==> !es[i].Refreshed?)
      && Before(es, Title(Name(r)), meta)
      && Before(es, meta, Style(s.base.background, id, s.base.wireframe, s.base.surface))
      && Before(es, SolidPass, PathOpen(id)) && Before(es, PathOpen(id), WireframePass)
      && Before(es, WireframePass, PathClose)
  {
    var (s1, pre) := Prelude(s, r, update, g);
    var meta := MetadataBlock(MetadataText(s1, r.renderDepth, lit));
    var id := s.base.idPrefix + "wireframe";
    SvgStepsOrder(pre, Name(r), meta, Style(s.base.background, id, s.base.wireframe, s.base.surface), id);
  }
}
