/** The pure half of the video matte renderer (app/components/TransparentVideo.tsx):
    the fragment shader's key rule, the component's prop defaults and the
    pipeline that `initGL` builds (its null result and its quad layout).

    Channels are integers 0..255. The component divides colours and the
    threshold by 255 before upload and the shader compares normalised floats;
    `c / 255 < t / 255` is modelled as `c < t`. */
module Matte {
  import opened Wrappers

  type Channel = c: int | 0 <= c <= 255

  datatype Rgb = Rgb(r: Channel, g: Channel, b: Channel)

  /** A texel sampled from the video texture, or a fragment written by the shader. */
  datatype Rgba = Rgba(r: Channel, g: Channel, b: Channel, a: Channel)

  const TransparentBlack := Rgba(0, 0, 0, 0)

  /** The three uniforms `draw` uploads every frame. */
  datatype Uniforms = Uniforms(bgColor: Rgb, threshold: int, transparent: bool)

  // ---------------------------------------------------------------------------
  // Key rule (FRAG_SHADER)
  // ---------------------------------------------------------------------------

  /** The shader's background test: every one of R, G, B strictly below the threshold. */
  predicate IsKey(c: Rgba, threshold: int)
  {
    c.r < threshold && c.g < threshold && c.b < threshold
  }

  /** The fragment shader: a keyed texel becomes transparent black or the opaque
      background colour; every other texel is written unchanged. */
  function Shade(c: Rgba, u: Uniforms): (out: Rgba)
    ensures out == c || IsKey(c, u.threshold)
    ensures IsKey(c, u.threshold) ==> out.a == (if u.transparent then 0 else 255)
    ensures IsKey(c, u.threshold) && !u.transparent ==>
              out.r == u.bgColor.r && out.g == u.bgColor.g && out.b == u.bgColor.b
    ensures IsKey(c, u.threshold) && u.transparent ==> out == TransparentBlack
  {
    if IsKey(c, u.threshold) then
      if u.transparent then TransparentBlack else Rgba(u.bgColor.r, u.bgColor.g, u.bgColor.b, 255)
    else
      c
  }

  /** The brightest of the three colour channels. */
  function Brightest(c: Rgba): (m: Channel)
    ensures c.r <= m && c.g <= m && c.b <= m
    ensures m == c.r || m == c.g || m == c.b
  {
    if c.r >= c.g && c.r >= c.b then c.r else if c.g >= c.b then c.g else c.b
  }

  /** An independent reading of the key rule: a texel is background exactly when
      its brightest channel is below the threshold. So one channel at or above
      the threshold is enough to keep the texel. */
  lemma KeyIsBrightestBelow(c: Rgba, threshold: int)
    ensures IsKey(c, threshold) <==> Brightest(c) < threshold
    ensures !IsKey(c, threshold) <==> (c.r >= threshold || c.g >= threshold || c.b >= threshold)
  {
  }

  /** The background colour is an output colour only: two sets of uniforms that
      differ in nothing but `bgColor` key exactly the same texels, and agree on
      every texel they keep. */
  lemma BgColorNeverDecidesTheMatch(c: Rgba, u: Uniforms, bg: Rgb)
    ensures var u' := u.(bgColor := bg);
            (Shade(c, u) == c && !IsKey(c, u.threshold)) <==> (Shade(c, u') == c && !IsKey(c, u'.threshold))
    ensures !IsKey(c, u.threshold) ==> Shade(c, u.(bgColor := bg)) == Shade(c, u)
    ensures u.transparent ==> Shade(c, u.(bgColor := bg)) == Shade(c, u)
  {
  }

  /** Raising the threshold never un-keys a texel; a threshold of 0 or below keys
      nothing and one above 255 keys everything. */
  lemma ThresholdIsMonotone(c: Rgba, t1: int, t2: int)
    requires t1 <= t2
    ensures IsKey(c, t1) ==> IsKey(c, t2)
    ensures t2 <= 0 ==> !IsKey(c, t2)
    ensures t1 > 255 ==> IsKey(c, t1)
  {
  }

  // ---------------------------------------------------------------------------
  // A whole frame through the shader
  // ---------------------------------------------------------------------------

  /** The draw call over a full-viewport quad whose texture has the viewport's
      size: every texel of the frame goes through the shader once, in place. */
  function ShadeFrame(frame: seq<Rgba>, u: Uniforms): (out: seq<Rgba>)
    ensures |out| == |frame|
    ensures forall i :: 0 <= i < |frame| ==> out[i] == Shade(frame[i], u)
  {
    if frame == [] then [] else [Shade(frame[0], u)] + ShadeFrame(frame[1..], u)
  }

  /** An opaque video frame matted in transparent mode has alpha 0 exactly at the
      keyed texels, and is unchanged everywhere else. */
  lemma TransparentMatteMasksExactlyTheKey(frame: seq<Rgba>, u: Uniforms, i: int)
    requires u.transparent
    requires 0 <= i < |frame| && frame[i].a == 255
    ensures ShadeFrame(frame, u)[i].a == 0 <==> IsKey(frame[i], u.threshold)
    ensures !IsKey(frame[i], u.threshold) ==> ShadeFrame(frame, u)[i] == frame[i]
  {
  }

  /** With transparency off, an opaque frame stays opaque: keyed texels take the
      background colour at full opacity. */
  lemma SubstituteMatteStaysOpaque(frame: seq<Rgba>, u: Uniforms)
    requires !u.transparent
    requires forall i :: 0 <= i < |frame| ==> frame[i].a == 255
    ensures forall i :: 0 <= i < |frame| ==> ShadeFrame(frame, u)[i].a == 255
  {
  }

  /** Worked example: background colour (34,34,34), threshold 30, not
      transparent; a (20,20,20) texel becomes the opaque background colour and a
      (200,50,50) texel is kept. */
  lemma SubstituteExample()
    ensures ShadeFrame([Rgba(20, 20, 20, 255), Rgba(200, 50, 50, 255)], Uniforms(Rgb(34, 34, 34), 30, false))
         == [Rgba(34, 34, 34, 255), Rgba(200, 50, 50, 255)]
  {
  }

  // ---------------------------------------------------------------------------
  // Blending over the cleared canvas
  // ---------------------------------------------------------------------------

  /** One channel of `blendFunc(SRC_ALPHA, ONE_MINUS_SRC_ALPHA)` over a cleared
      (zero) destination: the source channel scaled by the fragment's alpha,
      rounded to the nearest of 0..255. */
  function BlendChannel(x: Channel, alpha: Channel): (y: Channel)
    ensures y <= x && y <= alpha
    ensures alpha == 255 ==> y == x
    ensures alpha == 0 ==> y == 0
  {
    ProductBelow(x, alpha);
    ProductBelow(alpha, x);
    (x * alpha + 127) / 255
  }

  lemma ProductBelow(x: Channel, y: Channel)
    ensures 0 <= x * y <= 255 * x
  {
  }

  /** The framebuffer pixel a fragment leaves once blended over the transparent
      black the canvas is cleared to before each draw. The blend function is
      applied to all four channels, alpha included. */
  function BlendOverClear(c: Rgba): (out: Rgba)
    ensures c.a == 255 ==> out == c
    ensures c.a == 0 ==> out == TransparentBlack
    ensures out.r <= c.r && out.g <= c.g && out.b <= c.b && out.a <= c.a
  {
    Rgba(BlendChannel(c.r, c.a), BlendChannel(c.g, c.a), BlendChannel(c.b, c.a), BlendChannel(c.a, c.a))
  }

  /** What the canvas holds after drawing a frame's fragments. */
  function BlendFrame(fragments: seq<Rgba>): (canvas: seq<Rgba>)
    ensures |canvas| == |fragments|
    ensures forall i :: 0 <= i < |fragments| ==> canvas[i] == BlendOverClear(fragments[i])
  {
    if fragments == [] then [] else [BlendOverClear(fragments[0])] + BlendFrame(fragments[1..])
  }

  /** For an opaque video the blend changes nothing: every fragment the shader
      writes is either opaque or transparent black, and the blend leaves both
      as they are. */
  lemma {:induction false} OpaqueVideoBlendsToTheShade(frame: seq<Rgba>, u: Uniforms)
    requires forall i :: 0 <= i < |frame| ==> frame[i].a == 255
    ensures BlendFrame(ShadeFrame(frame, u)) == ShadeFrame(frame, u)
  {
    if frame != [] {
      var head := Shade(frame[0], u);
      var tail := ShadeFrame(frame[1..], u);
      OpaqueVideoBlendsToTheShade(frame[1..], u);
      OpaqueTexelBlendsToItsShade(frame[0], u);
      assert ShadeFrame(frame, u) == [head] + tail;
      assert ([head] + tail)[1..] == tail;
    }
  }

  /** One opaque texel: blending its shader output over the cleared buffer
      leaves that output as it is. */
  lemma OpaqueTexelBlendsToItsShade(c: Rgba, u: Uniforms)
    requires c.a == 255
    ensures BlendOverClear(Shade(c, u)) == Shade(c, u)
  {
    OpaqueTexelShadesOpaqueOrClear(c, u);
  }

  /** The shader turns an opaque texel into an opaque one or into transparent black. */
  lemma OpaqueTexelShadesOpaqueOrClear(c: Rgba, u: Uniforms)
    requires c.a == 255
    ensures Shade(c, u).a == 255 || Shade(c, u) == TransparentBlack
  {
  }

  /** A translucent texel the shader keeps does not reach the canvas as it is:
      (100,100,100) at alpha 128 lands as (50,50,50) at alpha 64. */
  lemma TranslucentTexelIsDarkened()
    ensures var u := Uniforms(DefaultBgColor, DefaultThreshold, false);
            && ShadeFrame([Rgba(100, 100, 100, 128)], u) == [Rgba(100, 100, 100, 128)]
            && BlendFrame(ShadeFrame([Rgba(100, 100, 100, 128)], u)) == [Rgba(50, 50, 50, 64)]
  {
  }

  // ---------------------------------------------------------------------------
  // Prop defaults
  // ---------------------------------------------------------------------------

  const DefaultBgColor := Rgb(50, 50, 50)
  const DefaultThreshold := 30

  /** The uniforms a `<TransparentVideo>` uploads: each of `bgColor`, `threshold`
      and `transparent` as passed, or its default when the prop is undefined. */
  function ResolveUniforms(bgColor: Option<Rgb>, threshold: Option<int>, transparent: Option<bool>): (u: Uniforms)
    ensures u.bgColor == (if bgColor.Some? then bgColor.value else Rgb(50, 50, 50))
    ensures u.threshold == (if threshold.Some? then threshold.value else 30)
    ensures u.transparent <==> transparent == Some(true)
  {
    Uniforms(
      if bgColor.Some? then bgColor.value else DefaultBgColor,
      if threshold.Some? then threshold.value else DefaultThreshold,
      if transparent.Some? then transparent.value else false)
  }

  // ---------------------------------------------------------------------------
  // The pipeline initGL builds
  // ---------------------------------------------------------------------------

  datatype Wrap = ClampToEdge
  datatype Filter = Linear
  datatype BlendFactor = SrcAlpha | OneMinusSrcAlpha

  /** A `vertexAttribPointer`: two floats per vertex, read at a byte offset with a byte stride. */
  datatype Attrib = Attrib(size: nat, stride: nat, offset: nat)

  /** What `initGL` returns, with the fixed state it leaves behind: blending,
      the static quad buffer and its two attributes, and the texture parameters. */
  datatype Pipeline = Pipeline(
    blendSrc: BlendFactor, blendDst: BlendFactor,
    vertexData: seq<int>, aPos: Attrib, aTex: Attrib,
    wrapS: Wrap, wrapT: Wrap, minFilter: Filter, magFilter: Filter)

  /** The Float32Array uploaded with STATIC_DRAW: x, y, u, v for four vertices. */
  const QuadData: seq<int> := [-1, -1, 0, 1,
                                1, -1, 1, 1,
                               -1,  1, 0, 0,
                                1,  1, 1, 0]

  const FloatBytes := 4

  /** `initGL(canvas)`: no WebGL context means no pipeline; otherwise the pipeline. */
  function InitGL(contextAvailable: bool): (r: Option<Pipeline>)
    ensures r.Some? <==> contextAvailable
    ensures r.Some? ==> r.value.blendSrc == SrcAlpha && r.value.blendDst == OneMinusSrcAlpha
    ensures r.Some? ==> r.value.wrapS == ClampToEdge && r.value.wrapT == ClampToEdge
  {
    if !contextAvailable then None
    else Some(Pipeline(SrcAlpha, OneMinusSrcAlpha, QuadData,
                       Attrib(2, 16, 0), Attrib(2, 16, 8),
                       ClampToEdge, ClampToEdge, Linear, Linear))
  }

  /** The two floats an attribute reads for vertex `v`. */
  function AttribAt(data: seq<int>, a: Attrib, v: nat): (xy: (int, int))
    requires a.size == 2 && a.stride % FloatBytes == 0 && a.offset % FloatBytes == 0
    requires (v * a.stride + a.offset) / FloatBytes + 1 < |data|
  {
    var k := (v * a.stride + a.offset) / FloatBytes;
    (data[k], data[k + 1])
  }

  /** The pipeline's two attribute pointers (2 floats each, 16-byte stride,
      offsets 0 and 8) read vertex `v` of the quad buffer. */
  lemma PipelineAttributes(contextAvailable: bool)
    requires contextAvailable
    ensures var p := InitGL(contextAvailable).value;
      && p.vertexData == QuadData
      && p.aPos == Attrib(2, 4 * FloatBytes, 0)
      && p.aTex == Attrib(2, 4 * FloatBytes, 2 * FloatBytes)
  {
  }

  /** The quad layout, vertex by vertex: read through the two attribute
      pointers, the buffer holds four vertices drawn as a triangle strip; their
      positions are corners of clip space, and each texture coordinate maps
      [-1,1] to [0,1] horizontally and is flipped vertically. */
  lemma QuadVertex(v: nat)
    requires v < 4
    ensures (v * 16 + 8) / FloatBytes + 1 < |QuadData|
    ensures var pos := AttribAt(QuadData, Attrib(2, 16, 0), v);
            var tex := AttribAt(QuadData, Attrib(2, 16, 8), v);
            && (pos.0 == -1 || pos.0 == 1) && (pos.1 == -1 || pos.1 == 1)
            && 2 * tex.0 == pos.0 + 1
            && 2 * tex.1 == 1 - pos.1
  {
    if v == 0 {
    } else if v == 1 {
    } else if v == 2 {
    } else {
    }
  }

  /** Position of vertex `v` of the strip, as a point of clip space. */
  function Corner(v: nat): (real, real)
    requires v < 4
  {
    var p := AttribAt(QuadData, Attrib(2, 16, 0), v);
    (p.0 as real, p.1 as real)
  }

  /** The point with weights 1 - a - b, a and b on the vertices t, t + 1 and
      t + 2 of the strip, that is, on its triangle number t. */
  function TrianglePoint(t: nat, a: real, b: real): (real, real)
    requires t < 2
  {
    var p, q, r := Corner(t), Corner(t + 1), Corner(t + 2);
    ((1.0 - a - b) * p.0 + a * q.0 + b * r.0, (1.0 - a - b) * p.1 + a * q.1 + b * r.1)
  }

  /** (x, y) lies in triangle t of the strip. */
  ghost predicate InTriangle(t: nat, x: real, y: real)
    requires t < 2
  {
    exists a: real, b: real :: 0.0 <= a && 0.0 <= b && a + b <= 1.0 && TrianglePoint(t, a, b) == (x, y)
  }

  /** The strip's first and last vertices are opposite corners and the middle
      two are the remaining corners, so its two triangles, split along the
      diagonal x + y = 0, cover the whole of clip space [-1,1] x [-1,1]. */
  lemma {:induction false} QuadCoversClipSpace(x: real, y: real)
    requires -1.0 <= x <= 1.0 && -1.0 <= y <= 1.0
    ensures Corner(0) == (-1.0, -1.0) && Corner(1) == (1.0, -1.0)
    ensures Corner(2) == (-1.0, 1.0) && Corner(3) == (1.0, 1.0)
    ensures x + y <= 0.0 ==> InTriangle(0, x, y)
    ensures x + y >= 0.0 ==> InTriangle(1, x, y)
  {
    assert Corner(0) == (-1.0, -1.0) && Corner(1) == (1.0, -1.0);
    assert Corner(2) == (-1.0, 1.0) && Corner(3) == (1.0, 1.0);
    if x + y <= 0.0 {
      var a, b := (1.0 + x) / 2.0, (1.0 + y) / 2.0;
      assert TrianglePoint(0, a, b) == (x, y);
    }
    if x + y >= 0.0 {
      var a, b := (1.0 - x) / 2.0, (x + y) / 2.0;
      assert TrianglePoint(1, a, b) == (x, y);
    }
  }
}
