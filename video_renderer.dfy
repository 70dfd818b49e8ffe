/** The imperative half of the video matte renderer
    (app/components/TransparentVideo.tsx): the per-frame `draw` step with its
    chain of early exits, `start`, and the effect that mounts and tears down the
    loop. The browser objects are abstract state: the video element's decoded
    size, paused flag and current frame; the canvas's backing-store size and
    its context's viewport; the refs; the set of animation frames the browser
    has scheduled; the observer and listener registrations; and a log of the
    actions the component performs on the video and on WebGL. */
module VideoRenderer {
  import opened Wrappers
  import opened Matte

  /** Where `draw`'s chain of early exits leaves a frame (before `initGL`). */
  datatype FrameExit =
    | NotLoaded      // videoWidth === 0
    | HeldPaused     // playingRef.current === false
    | PlayRequested  // the video is paused: play() is requested
    | Offscreen      // visibleRef.current is false
    | Eligible       // go on to initGL, resize and draw

  /** What the component does to the outside world. */
  datatype Action =
    | Pause                          // video.pause()
    | PlayRequest                    // video.play(), its rejection swallowed
    | ContextInit(ok: bool)          // initGL(canvas): ok when a WebGL context was obtained
    | Resize(width: nat, height: nat)  // canvas.width/height and gl.viewport set to the video's size
    | DrawQuad(texWidth: nat, texHeight: nat, viewportWidth: nat, viewportHeight: nat, output: seq<Rgba>)
                                     // clear, texImage2D, uniforms, drawArrays; output is
                                     // the canvas after blending the shaded frame

  /** The early-exit chain of `draw`, in source order. */
  function Gate(videoWidth: nat, playing: Option<bool>, paused: bool, visible: bool): (e: FrameExit)
    ensures e == NotLoaded <==> videoWidth == 0
    ensures e == HeldPaused <==> videoWidth != 0 && playing == Some(false)
    ensures e == PlayRequested <==> videoWidth != 0 && playing != Some(false) && paused
    ensures e == Offscreen <==> videoWidth != 0 && playing != Some(false) && !paused && !visible
    ensures e == Eligible <==> videoWidth != 0 && playing != Some(false) && !paused && visible
  {
    if videoWidth == 0 then NotLoaded
    else if playing == Some(false) then HeldPaused
    else if paused then PlayRequested
    else if !visible then Offscreen
    else Eligible
  }

  /** An explicit `playing === false` wins over visibility: a loaded video is held
      paused whether or not it is on screen, and only `undefined` or `true` can
      lead to a play request or a draw. */
  lemma HoldOverridesVisibility(videoWidth: nat, paused: bool, visible: bool, playing: Option<bool>)
    requires videoWidth != 0
    ensures Gate(videoWidth, Some(false), paused, visible) == HeldPaused
    ensures Gate(videoWidth, playing, paused, visible) in {PlayRequested, Eligible} ==> playing != Some(false)
  {
  }

  /** The pipeline an eligible frame works with: glRef's, or a fresh initGL's. */
  function PipelineFor(gl: Option<Pipeline>, webgl: bool): (r: Option<Pipeline>)
    ensures gl.Some? ==> r == gl
    ensures r.Some? <==> gl.Some? || webgl
  {
    if gl.Some? then gl else InitGL(webgl)
  }

  /** The actions one call of `draw` performs, given where its exit chain stops
      and the state it starts from. */
  function FrameActions(e: FrameExit, paused: bool, gl: Option<Pipeline>, webgl: bool,
                        canvasWidth: nat, canvasHeight: nat,
                        videoWidth: nat, videoHeight: nat, frame: seq<Rgba>, u: Uniforms): seq<Action>
  {
    match e
    case NotLoaded => []
    case HeldPaused => if paused then [] else [Pause]
    case PlayRequested => [PlayRequest]
    case Offscreen => []
    case Eligible =>
      var p := PipelineFor(gl, webgl);
      InitActions(gl, p) + (if p.None? then [] else FitActions(canvasWidth, canvasHeight, videoWidth, videoHeight, frame, u))
  }

  /** The context creation an eligible frame logs: one attempt, only while there is no pipeline. */
  function InitActions(gl: Option<Pipeline>, p: Option<Pipeline>): seq<Action>
  {
    if gl.None? then [ContextInit(p.Some?)] else []
  }

  /** What an eligible frame with a pipeline logs: a resize when the canvas
      differs from the video, then the draw, which leaves the shaded frame
      blended over the cleared canvas. */
  function FitActions(canvasWidth: nat, canvasHeight: nat, videoWidth: nat, videoHeight: nat,
                      frame: seq<Rgba>, u: Uniforms): seq<Action>
  {
    (if canvasWidth != videoWidth || canvasHeight != videoHeight then [Resize(videoWidth, videoHeight)] else [])
    + [DrawQuad(videoWidth, videoHeight, videoWidth, videoHeight, BlendFrame(ShadeFrame(frame, u)))]
  }

  /** The number of successful `initGL` calls in a log. */
  function SuccessfulInits(log: seq<Action>): nat
  {
    if log == [] then 0
    else (if log[0] == ContextInit(true) then 1 else 0) + SuccessfulInits(log[1..])
  }

  lemma {:induction false} SuccessfulInitsAppend(a: seq<Action>, b: seq<Action>)
    ensures SuccessfulInits(a + b) == SuccessfulInits(a) + SuccessfulInits(b)
  {
    if a == [] {
      assert a + b == b;
    } else {
      assert (a + b)[1..] == a[1..] + b;
      SuccessfulInitsAppend(a[1..], b);
    }
  }

  const CanvasDefaultWidth := 300
  const CanvasDefaultHeight := 150

  /** One mounted `<TransparentVideo>`. */
  class RenderSession {
    // The configuration the current effect run closed over.
    var uniforms: Uniforms
    // The <video> element.
    var videoWidth: nat
    var videoHeight: nat
    var paused: bool
    var frame: seq<Rgba>
    // The <canvas> element and, once created, its context's viewport.
    const webglAvailable: bool
    var canvasWidth: nat
    var canvasHeight: nat
    var viewportWidth: nat
    var viewportHeight: nat
    // The refs: glRef, visibleRef, playingRef, animRef.
    var gl: Option<Pipeline>
    var visible: bool
    var playing: Option<bool>
    var anim: nat
    // The browser: scheduled animation frames, the observer and the listeners.
    var pending: set<nat>
    var nextHandle: nat
    var observing: bool
    var listening: bool
    var log: seq<Action>

    ghost predicate Valid()
      reads this
    {
      // at most one animation frame is ever scheduled, and it is animRef's
      && pending <= {anim}
      && anim < nextHandle
      // a pipeline exists only with a context, and the viewport follows the canvas
      && (gl.Some? ==> webglAvailable && viewportWidth == canvasWidth && viewportHeight == canvasHeight)
      // initGL succeeds at most once, and it has succeeded iff glRef holds a pipeline
      && SuccessfulInits(log) == (if gl.Some? then 1 else 0)
      // nothing is drawn without a pipeline, and never into a viewport of another size
      && (forall i :: 0 <= i < |log| && log[i].DrawQuad? ==> gl.Some?)
      && (forall i :: 0 <= i < |log| && log[i].DrawQuad? ==>
            log[i].texWidth == log[i].viewportWidth && log[i].texHeight == log[i].viewportHeight)
    }

    /** Where `draw` would stop if it ran now. */
    function Exit(): FrameExit
      reads this
    {
      Gate(videoWidth, playing, paused, visible)
    }

    /** Observer disconnected, listeners removed, no frame scheduled. */
    predicate TornDown()
      reads this
    {
      !observing && !listening && pending == {}
    }

    /** Mount: the refs start as in the component (visible, no pipeline, the
        host's `playing`), the canvas at its default size; then the effect
        observes the container, adds the two listeners and starts the loop at
        once if the video already has data (`readyState >= 2`). */
    constructor Mount(u: Uniforms, webgl: bool, host: Option<bool>,
                      width: nat, height: nat, videoPaused: bool, pixels: seq<Rgba>, readyState: nat)
      ensures Valid()
      ensures uniforms == u && webglAvailable == webgl && playing == host
      ensures videoWidth == width && videoHeight == height && paused == videoPaused && frame == pixels
      ensures canvasWidth == CanvasDefaultWidth && canvasHeight == CanvasDefaultHeight
      ensures gl == None && visible && log == []
      ensures observing && listening
      ensures pending == (if readyState >= 2 then {anim} else {})
    {
      uniforms := u;
      webglAvailable := webgl;
      playing := host;
      videoWidth, videoHeight, paused, frame := width, height, videoPaused, pixels;
      canvasWidth, canvasHeight := CanvasDefaultWidth, CanvasDefaultHeight;
      viewportWidth, viewportHeight := CanvasDefaultWidth, CanvasDefaultHeight;
      gl := None;
      visible := true;
      anim := 0;
      pending := {};
      nextHandle := 1;
      log := [];
      observing := true;
      listening := true;
      new;
      if readyState >= 2 {
        Start();
      }
    }

    /** `start`: cancel the scheduled frame, then schedule a new one. */
    method Start()
      requires Valid()
      modifies this`anim, this`nextHandle, this`pending
      ensures Valid()
      ensures anim == old(nextHandle) && nextHandle == old(nextHandle) + 1 && pending == {anim}
    {
      pending := pending - {anim};
      anim := nextHandle;
      nextHandle := nextHandle + 1;
      pending := pending + {anim};
    }

    /** `draw`: one animation-frame callback. It runs only as the callback of
        the frame the browser has just taken off its schedule. */
    method Draw()
      requires Valid() && pending == {}
      modifies this`anim, this`nextHandle, this`pending, this`paused, this`log, this`gl
      modifies this`canvasWidth, this`canvasHeight, this`viewportWidth, this`viewportHeight
      ensures Valid()
      // the next frame is scheduled first, whatever exit the frame takes
      ensures anim == old(nextHandle) && nextHandle == old(nextHandle) + 1 && pending == {anim}
      // the video is paused by a held frame and by nothing else
      ensures paused == (old(paused) || old(Exit()) == HeldPaused)
      // only an eligible frame touches the pipeline and the canvas
      ensures gl == (if old(Exit()) == Eligible then PipelineFor(old(gl), webglAvailable) else old(gl))
      ensures old(Exit()) == Eligible && gl.Some? ==> canvasWidth == videoWidth && canvasHeight == videoHeight
      ensures old(Exit()) != Eligible || gl.None? ==>
                canvasWidth == old(canvasWidth) && canvasHeight == old(canvasHeight)
      ensures log == old(log) + FrameActions(old(Exit()), old(paused), old(gl), webglAvailable,
                                             old(canvasWidth), old(canvasHeight),
                                             videoWidth, videoHeight, frame, uniforms)
    {
      ghost var e := Exit();
      ghost var log0 := log;
      ghost var actions := FrameActions(e, paused, gl, webglAvailable, canvasWidth, canvasHeight,
                                        videoWidth, videoHeight, frame, uniforms);
      ScheduleNext();
      if videoWidth == 0 {
        assert actions == [];
      } else if playing == Some(false) {
        Hold();
      } else if paused {
        Record(PlayRequest);
        assert log == log0 + actions;
      } else if !visible {
        assert actions == [];
      } else {
        DrawEligible();
      }
    }

    /** The rest of `draw` once every early exit has been passed. */
    method DrawEligible()
      requires Valid() && Exit() == Eligible
      modifies this`gl, this`log, this`canvasWidth, this`canvasHeight, this`viewportWidth, this`viewportHeight
      ensures Valid()
      ensures gl == PipelineFor(old(gl), webglAvailable)
      ensures gl.Some? ==> canvasWidth == videoWidth && canvasHeight == videoHeight
      ensures gl.None? ==> canvasWidth == old(canvasWidth) && canvasHeight == old(canvasHeight)
      ensures log == old(log) + FrameActions(Eligible, paused, old(gl), webglAvailable,
                                             old(canvasWidth), old(canvasHeight),
                                             videoWidth, videoHeight, frame, uniforms)
    {
      ghost var log0, gl0, cw0, ch0 := log, gl, canvasWidth, canvasHeight;
      EnsurePipeline();
      ghost var log1 := log;
      if gl.Some? {
        FitAndDraw();
        ghost var fit := FitActions(cw0, ch0, videoWidth, videoHeight, frame, uniforms);
        assert log == log1 + fit;
        assert log == log0 + (InitActions(gl0, gl) + fit);
      } else {
        assert log == log0 + (InitActions(gl0, gl) + []);
      }
    }

    /** `animRef.current = requestAnimationFrame(draw)`. */
    method ScheduleNext()
      requires Valid() && pending == {}
      modifies this`anim, this`nextHandle, this`pending
      ensures Valid()
      ensures anim == old(nextHandle) && nextHandle == old(nextHandle) + 1 && pending == {anim}
    {
      anim := nextHandle;
      nextHandle := nextHandle + 1;
      pending := pending + {anim};
    }

    /** `if (!video.paused) video.pause()`. */
    method Hold()
      requires Valid()
      modifies this`paused, this`log
      ensures Valid() && paused
      ensures log == old(log) + (if old(paused) then [] else [Pause])
    {
      if !paused {
        paused := true;
        Record(Pause);
      }
    }

    /** Append one action that is not a successful init; a draw must have a
        pipeline and fill the viewport. */
    method Record(a: Action)
      requires Valid()
      requires a != ContextInit(true)
      requires a.DrawQuad? ==> gl.Some? && a.texWidth == a.viewportWidth && a.texHeight == a.viewportHeight
      modifies this`log
      ensures Valid() && log == old(log) + [a]
    {
      SuccessfulInitsAppend(log, [a]);
      log := log + [a];
    }

    /** `if (!glRef.current) glRef.current = initGL(canvas)`. */
    method EnsurePipeline()
      requires Valid()
      modifies this`gl, this`log, this`viewportWidth, this`viewportHeight
      ensures Valid()
      ensures gl == (if old(gl).Some? then old(gl) else InitGL(webglAvailable))
      ensures log == old(log) + InitActions(old(gl), gl)
    {
      if gl.None? {
        gl := InitGL(webglAvailable);
        SuccessfulInitsAppend(log, [ContextInit(gl.Some?)]);
        log := log + [ContextInit(gl.Some?)];
        if gl.Some? {
          viewportWidth, viewportHeight := canvasWidth, canvasHeight;
        }
      }
    }

    /** Size the canvas and the viewport to the video when they differ, then clear,
        upload the frame and the uniforms, and draw the quad; the canvas ends up
        holding the shaded frame blended over the cleared buffer. */
    method FitAndDraw()
      requires Valid() && gl.Some?
      modifies this`canvasWidth, this`canvasHeight, this`viewportWidth, this`viewportHeight, this`log
      ensures Valid()
      ensures canvasWidth == videoWidth && canvasHeight == videoHeight
      ensures log == old(log) + FitActions(old(canvasWidth), old(canvasHeight), videoWidth, videoHeight, frame, uniforms)
    {
      if canvasWidth != videoWidth || canvasHeight != videoHeight {
        canvasWidth, canvasHeight := videoWidth, videoHeight;
        viewportWidth, viewportHeight := canvasWidth, canvasHeight;
        Record(Resize(videoWidth, videoHeight));
      }
      Record(DrawQuad(videoWidth, videoHeight, viewportWidth, viewportHeight, BlendFrame(ShadeFrame(frame, uniforms))));
    }

    /** The browser runs the scheduled animation frame, if there is one. */
    method AnimationFrame()
      requires Valid()
      modifies this`anim, this`nextHandle, this`pending, this`paused, this`log, this`gl
      modifies this`canvasWidth, this`canvasHeight, this`viewportWidth, this`viewportHeight
      ensures Valid()
      ensures old(pending) == {} ==> unchanged(this)
      ensures old(pending) != {} ==>
                && anim == old(nextHandle) && nextHandle == old(nextHandle) + 1 && pending == {anim}
                && paused == (old(paused) || old(Exit()) == HeldPaused)
                && log == old(log) + FrameActions(old(Exit()), old(paused), old(gl), webglAvailable,
                                                  old(canvasWidth), old(canvasHeight),
                                                  videoWidth, videoHeight, frame, uniforms)
      ensures old(pending) != {} ==>
                && gl == (if old(Exit()) == Eligible then PipelineFor(old(gl), webglAvailable) else old(gl))
                && (old(Exit()) == Eligible && gl.Some? ==> canvasWidth == videoWidth && canvasHeight == videoHeight)
                && (old(Exit()) != Eligible || gl.None? ==>
                      canvasWidth == old(canvasWidth) && canvasHeight == old(canvasHeight))
      ensures old(TornDown()) ==> TornDown()
    {
      if pending != {} {
        pending := {};
        Draw();
      }
    }

    /** The video's "loadeddata" event. */
    method LoadedData()
      requires Valid()
      modifies this`anim, this`nextHandle, this`pending
      ensures Valid()
      ensures listening ==> anim == old(nextHandle) && nextHandle == old(nextHandle) + 1 && pending == {anim}
      ensures !listening ==> unchanged(this)
    {
      if listening {
        Start();
      }
    }

    /** Playback begins (autoplay, or a play request the browser honours): the
        video leaves the paused state and fires "play", which restarts the loop
        while the listener is attached. */
    method PlaybackBegins()
      requires Valid()
      modifies this`paused, this`anim, this`nextHandle, this`pending
      ensures Valid()
      ensures !paused
      ensures old(paused) && listening ==>
                anim == old(nextHandle) && nextHandle == old(nextHandle) + 1 && pending == {anim}
      ensures !old(paused) || !listening ==>
                anim == old(anim) && nextHandle == old(nextHandle) && pending == old(pending)
    {
      if paused {
        paused := false;
        if listening {
          Start();
        }
      }
    }

    /** The intersection observer's callback. */
    method Intersection(isIntersecting: bool)
      requires Valid()
      modifies this`visible
      ensures Valid()
      ensures visible == (if observing then isIntersecting else old(visible))
    {
      if observing {
        visible := isIntersecting;
      }
    }

    /** A render of the host: `playingRef.current = playing`, seen by the very next frame. */
    method HostRender(host: Option<bool>)
      requires Valid()
      modifies this`playing
      ensures Valid()
      ensures playing == host
    {
      playing := host;
    }

    /** The decoder delivers a frame, possibly of a new size. */
    method DecodedFrame(width: nat, height: nat, pixels: seq<Rgba>)
      requires Valid()
      modifies this`videoWidth, this`videoHeight, this`frame
      ensures Valid()
      ensures videoWidth == width && videoHeight == height && frame == pixels
    {
      videoWidth, videoHeight, frame := width, height, pixels;
    }

    /** The effect's cleanup: disconnect the observer, remove both listeners and
        cancel the scheduled frame. */
    method Cleanup()
      requires Valid()
      modifies this`observing, this`listening, this`pending
      ensures Valid() && TornDown()
    {
      observing := false;
      listening := false;
      pending := pending - {anim};
    }

    /** A change of `bgColor`, `threshold` or `transparent` re-runs the effect:
        cleanup, then a fresh observer, listeners and start. `glRef` survives,
        so the pipeline is not rebuilt. */
    method Reconfigure(u: Uniforms, readyState: nat)
      requires Valid()
      modifies this`uniforms, this`observing, this`listening, this`pending, this`anim, this`nextHandle
      ensures Valid()
      ensures uniforms == u && observing && listening
      ensures readyState >= 2 ==> anim == old(nextHandle) && nextHandle == old(nextHandle) + 1 && pending == {anim}
      ensures readyState < 2 ==> anim == old(anim) && nextHandle == old(nextHandle) && pending == {}
    {
      Cleanup();
      uniforms := u;
      observing := true;
      listening := true;
      if readyState >= 2 {
        Start();
      }
    }
  }

  /** A host that says `playing === false` pauses a playing video once: over
      any number of frames, the first pauses it and every later one finds it
      paused and does nothing. A video that was already paused is never paused
      again. */
  method HeldVideoPausesOnce(u: Uniforms, webgl: bool, width: nat, height: nat,
                             videoPaused: bool, pixels: seq<Rgba>, frames: nat)
    returns (log: seq<Action>)
    requires width != 0
    ensures log == (if videoPaused || frames == 0 then [] else [Pause])
  {
    var s := new RenderSession.Mount(u, webgl, Some(false), width, height, videoPaused, pixels, 2);
    var i := 0;
    while i < frames
      invariant i <= frames
      invariant s.Valid() && s.playing == Some(false) && s.videoWidth == width && s.pending != {}
      invariant s.paused == (videoPaused || i > 0)
      invariant s.log == (if videoPaused || i == 0 then [] else [Pause])
    {
      s.AnimationFrame();
      i := i + 1;
    }
    log := s.log;
  }

  /** Without a WebGL context no frame draws: over any number of frames of a
      playing, visible video, every frame tries to create the context again and
      logs the failure, and nothing else. */
  method NoContextNeverDraws(u: Uniforms, width: nat, height: nat, pixels: seq<Rgba>, frames: nat)
    returns (log: seq<Action>)
    requires width != 0
    ensures |log| == frames
    ensures forall i :: 0 <= i < |log| ==> log[i] == ContextInit(false)
  {
    var s := new RenderSession.Mount(u, false, None, width, height, false, pixels, 2);
    var i := 0;
    while i < frames
      invariant i <= frames
      invariant s.Valid() && s.Exit() == Eligible && !s.webglAvailable && s.gl == None && s.pending != {}
      invariant |s.log| == i
      invariant forall k :: 0 <= k < |s.log| ==> s.log[k] == ContextInit(false)
    {
      s.AnimationFrame();
      i := i + 1;
    }
    log := s.log;
  }

  /** With a context, the first eligible frame creates the pipeline, sizes the
      300x150 canvas to the video and draws. */
  method FirstFrameOnScreen(u: Uniforms, width: nat, height: nat, pixels: seq<Rgba>)
    returns (log: seq<Action>, fitted: bool)
    requires width != 0
    ensures log == [ContextInit(true)]
                   + (if width != CanvasDefaultWidth || height != CanvasDefaultHeight then [Resize(width, height)] else [])
                   + [DrawQuad(width, height, width, height, BlendFrame(ShadeFrame(pixels, u)))]
    ensures fitted
  {
    var s := new RenderSession.Mount(u, true, None, width, height, false, pixels, 2);
    assert s.Exit() == Eligible;
    ghost var fit := FitActions(CanvasDefaultWidth, CanvasDefaultHeight, width, height, pixels, u);
    assert FrameActions(Eligible, false, None, true, CanvasDefaultWidth, CanvasDefaultHeight,
                        width, height, pixels, u) == [ContextInit(true)] + fit;
    s.AnimationFrame();
    log := s.log;
    assert log == [] + ([ContextInit(true)] + fit);
    fitted := s.gl.Some? && s.canvasWidth == width && s.canvasHeight == height;
  }

  /** Once the pipeline exists and the canvas fits the video, an eligible frame
      neither creates a context nor resizes: it only draws. */
  lemma LaterFramesOnlyDraw(p: Pipeline, webgl: bool, width: nat, height: nat, frame: seq<Rgba>, u: Uniforms)
    ensures FrameActions(Eligible, false, Some(p), webgl, width, height, width, height, frame, u)
         == [DrawQuad(width, height, width, height, BlendFrame(ShadeFrame(frame, u)))]
  {
    assert FitActions(width, height, width, height, frame, u)
        == [] + [DrawQuad(width, height, width, height, BlendFrame(ShadeFrame(frame, u)))];
  }
}
