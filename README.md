# A Dafny model of the portfolio site's interactive core

The site is a Next.js portfolio. Most of it is static markup. This project
models the parts that make decisions, and proves what those decisions
guarantee:

- **The transparent video** (`app/components/TransparentVideo.tsx`), in two modules.
  - `Matte` is the fragment shader's key rule, the prop defaults, and the
    pipeline `initGL` builds (blend mode, quad buffer, attribute layout).
  - `VideoRenderer` is the per-frame `draw` step. It is a class over the
    video, the canvas, the refs and the browser's animation-frame schedule,
    with a log of the actions the frames perform (pause, play request,
    context creation, resize, draw).
- **The project card** (`ProjectCard`): the tag parser behind
  `^([↑↓]\s*\$?)([\d.]+)(%|k|M)(.*)$`, the fraction-digit count, the
  `AnimatedTag` latch and its count-up loops, the visible-tags rule and the
  choice of media.
- **The home page** (`HomePage`): the toolkit cycler, the list of pop
  effects, dragging and clicking the two bubbles, the intro phases with
  their session flags, and the `playing` value given to each highlight card.
- **The header** (`Navbar`): the hide-on-scroll state machine and the link views.
- **The carousels** (`Carousel`, `WalmartCaseStudy`): the arrow predicates,
  the scroll direction, and the `activeCard` index the case study's interval
  advances.

Timeouts, intervals, animation frames, observer callbacks and DOM events
are methods the environment calls in any order. `Date.now()`,
`window.scrollY`, `window.innerWidth` and element scroll metrics are
parameters; `scrollLeft` and the pointer's `clientX`/`clientY` are real
numbers, as they are fractional on zoomed displays. Pixels are integer
triples in 0..255. `sessionStorage` is a `map<string, string>`. JavaScript truthiness of an optional string is
`Wrappers.IsTruthy`: the empty string is falsy.

Behaviour of the source worth knowing:

- `Decimals` is the length of `match[2].split(".")[1]`. That is the text
  between the first dot and the second one, not everything after the first dot.
- The default `bgColor` of `<TransparentVideo>` is (50,50,50).
- When `initGL` returns null, `glRef` stays null. Every later eligible
  frame tries to create the context again (`NoContextNeverDraws`).
- The `bgColor={[34, 34, 34]}` that a card passes is a new array on every
  render. So the renderer's effect re-runs on every render of the card
  (`RenderSession.Reconfigure`).
- The case study's `activeCard` is never rendered: the competitor strip
  shows all seven cards alike. The interval's only effect is a re-render
  every 4 s.
- Nothing on the case-study page ever sets `paused`, so its interval
  always runs. Nothing on the home page ever sets a bubble's `returning`
  to true.

## Model

| member | source | states |
|---|---|---|
| Matte.Shade | app/components/TransparentVideo.tsx:32-43 | A texel passes through unchanged unless all three channels are below the threshold. A keyed texel becomes transparent black in transparent mode, and opaque `bgColor` otherwise. |
| Matte.KeyIsBrightestBelow | app/components/TransparentVideo.tsx:34 | A texel is keyed iff its brightest channel is below the threshold. Equivalently, it is kept iff some channel reaches the threshold. |
| Matte.BgColorNeverDecidesTheMatch | app/components/TransparentVideo.tsx:34-39 | The key test never reads `bgColor`. Changing it changes neither which texels are keyed, nor kept texels, nor the transparent output. |
| Matte.ThresholdIsMonotone | app/components/TransparentVideo.tsx:34 | Raising the threshold only adds keyed texels. Threshold 0 keys nothing, and a threshold above 255 keys everything. |
| Matte.ShadeFrame | app/components/TransparentVideo.tsx:25-44 | The shader runs on each texel of a frame independently. The output has the frame's length. |
| Matte.TransparentMatteMasksExactlyTheKey | app/components/TransparentVideo.tsx:34-42 | In transparent mode, an opaque texel comes out with alpha 0 exactly when it is keyed. Otherwise it is unchanged. |
| Matte.SubstituteMatteStaysOpaque | app/components/TransparentVideo.tsx:37-42 | In substitute mode, an opaque frame stays opaque everywhere. |
| Matte.SubstituteExample | app/components/TransparentVideo.tsx:34-42 | With (34,34,34) and threshold 30, a (20,20,20) texel becomes (34,34,34,255) and a (200,50,50) texel is kept. |
| Matte.ResolveUniforms | app/components/TransparentVideo.tsx:97-101 | Each prop is used as passed, or gets its default when undefined: `bgColor` (50,50,50), `threshold` 30, `transparent` false. |
| Matte.InitGL | app/components/TransparentVideo.tsx:46-95 | Yields a pipeline iff a WebGL context is available. The pipeline blends with SRC_ALPHA and ONE_MINUS_SRC_ALPHA and clamps the texture at its edges. |
| Matte.PipelineAttributes | app/components/TransparentVideo.tsx:66-80 | The pipeline holds the 16-value quad buffer. `a_pos` reads 2 floats at offset 0 and `a_tex` reads 2 floats at offset 8, both with stride 16. |
| Matte.QuadVertex | app/components/TransparentVideo.tsx:68-80 | Every vertex read through the attributes lies in the buffer. Its position is a clip-space corner, and its texture coordinate maps x from [-1,1] to [0,1] and flips y. |
| Matte.QuadCoversClipSpace | app/components/TransparentVideo.tsx:68-73 | The strip's four vertices are (-1,-1), (1,-1), (-1,1), (1,1). Every point of clip space [-1,1]x[-1,1] is a convex combination of the first triangle's vertices when x + y <= 0, and of the second's when x + y >= 0, so the two triangles cover the viewport. |
| Matte.BlendOverClear | app/components/TransparentVideo.tsx:50-51 | Blending a fragment over the cleared buffer scales every channel, alpha included, by the fragment's alpha. An opaque fragment is left as it is, an alpha-0 one becomes transparent black, and no channel grows. |
| Matte.BlendFrame | app/components/TransparentVideo.tsx:154-160 | The canvas after a draw holds each fragment blended over the cleared buffer, one pixel per fragment. |
| Matte.OpaqueVideoBlendsToTheShade | app/components/TransparentVideo.tsx:34-42 | For an opaque video the blend changes nothing: the canvas holds exactly the shader's output. |
| Matte.TranslucentTexelIsDarkened | app/components/TransparentVideo.tsx:50-51 | A kept texel (100,100,100) at alpha 128 reaches the canvas as (50,50,50) at alpha 64. |
| VideoRenderer.Gate | app/components/TransparentVideo.tsx:130-139 | The exit chain of a frame, in order: no decoded width, `playing === false`, paused, off-screen. Each exit holds iff its test holds and no earlier test does. |
| VideoRenderer.HoldOverridesVisibility | app/components/TransparentVideo.tsx:133-139 | `playing === false` holds a loaded video whether or not it is visible. Only `undefined` or `true` can lead to a play request or a draw. |
| VideoRenderer.PipelineFor | app/components/TransparentVideo.tsx:141-145 | An existing pipeline is reused. Without one, a frame has a pipeline iff the context can be created. |
| VideoRenderer.RenderSession.Mount | app/components/TransparentVideo.tsx:107-170 | The refs start visible, with no pipeline and with the host's `playing`. The canvas starts at 300x150 and the log is empty. The observer and both listeners are attached. A frame is scheduled iff `readyState >= 2`. |
| VideoRenderer.RenderSession.Start | app/components/TransparentVideo.tsx:163-166 | The old frame is cancelled and exactly one new frame is scheduled. Only `animRef` and the browser's frame schedule change. |
| VideoRenderer.RenderSession.Draw | app/components/TransparentVideo.tsx:128-161 | Scheduling comes first on every exit. The video is paused only by a held frame. Only an eligible frame touches the pipeline and the canvas. The log grows by exactly the actions of the exit the frame takes. The class invariant is kept: at most one successful `initGL`, no draw without a pipeline, every draw into a viewport of the texture's size. |
| VideoRenderer.RenderSession.DrawEligible | app/components/TransparentVideo.tsx:141-160 | After the exits: the pipeline is created lazily. With a pipeline, the canvas is sized to the video before the upload. Without one, the canvas is untouched. |
| VideoRenderer.RenderSession.ScheduleNext | app/components/TransparentVideo.tsx:129 | `animRef` takes a fresh handle, which becomes the only scheduled frame. |
| VideoRenderer.RenderSession.Hold | app/components/TransparentVideo.tsx:133-136 | The video ends up paused. A pause is logged only if it was playing. |
| VideoRenderer.RenderSession.EnsurePipeline | app/components/TransparentVideo.tsx:141-143 | `initGL` runs only while `glRef` is null, and each attempt is logged with its outcome. |
| VideoRenderer.RenderSession.FitAndDraw | app/components/TransparentVideo.tsx:148-160 | Canvas and viewport are resized only when they differ from the video. Then the frame is drawn at the video's size, and the canvas holds the shaded frame blended over the cleared buffer. |
| VideoRenderer.RenderSession.AnimationFrame | app/components/TransparentVideo.tsx:129 | A scheduled frame runs `draw`, with `Draw`'s effect on the log, `paused`, the pipeline and the canvas. Without a scheduled frame no field changes at all, so a torn-down session stays torn down. |
| VideoRenderer.RenderSession.LoadedData | app/components/TransparentVideo.tsx:168 | While the listeners are attached, "loadeddata" restarts the loop, changing only `animRef` and the frame schedule. Otherwise no field changes. |
| VideoRenderer.RenderSession.PlaybackBegins | app/components/TransparentVideo.tsx:169 | Playback clears `paused`. The "play" listener restarts the loop while attached; otherwise the schedule is kept. Nothing else changes. |
| VideoRenderer.RenderSession.Intersection | app/components/TransparentVideo.tsx:122-126 | While observed, `visibleRef` takes the entry's `isIntersecting`. Nothing else changes. |
| VideoRenderer.RenderSession.HostRender | app/components/TransparentVideo.tsx:113-114 | `playingRef` is overwritten with the prop on every render, and nothing else changes. |
| VideoRenderer.RenderSession.DecodedFrame | app/components/TransparentVideo.tsx:131 | The decoder changes the video's size and pixels, and nothing else: not the canvas, the refs or the schedule. |
| VideoRenderer.RenderSession.Cleanup | app/components/TransparentVideo.tsx:172-177 | The observer is disconnected, both listeners are removed and no frame is scheduled. Nothing else changes. |
| VideoRenderer.RenderSession.Reconfigure | app/components/TransparentVideo.tsx:116-178 | A change of `bgColor`, `threshold` or `transparent` runs the cleanup and then the effect with the new values, restarting the loop iff `readyState >= 2`. Only the uniforms, the registrations, `animRef` and the schedule change: `glRef`, the canvas and the log persist. |
| VideoRenderer.HeldVideoPausesOnce | app/components/TransparentVideo.tsx:133-136 | Over any number of frames with `playing === false`, a playing video is paused exactly once (if at least one frame runs) and a paused one never. |
| VideoRenderer.NoContextNeverDraws | app/components/TransparentVideo.tsx:141-145 | Without a WebGL context, over any number of frames of a playing, visible video, each frame logs one failed `initGL` and nothing else, so nothing is ever drawn. |
| VideoRenderer.FirstFrameOnScreen | app/components/TransparentVideo.tsx:141-160 | With a context, the first eligible frame creates the pipeline once, resizes the default 300x150 canvas to the video if they differ, and draws. |
| VideoRenderer.LaterFramesOnlyDraw | app/components/TransparentVideo.tsx:141-152 | Once the pipeline exists and the canvas fits the video, an eligible frame neither creates a context nor resizes: it only draws. |
| ProjectCard.ParseTag | app/components/ProjectCard.tsx:12 | A match returns four well-formed groups (prefix, number, unit, rest) whose concatenation is the text. |
| ProjectCard.ParseTagComplete | app/components/ProjectCard.tsx:12 | Every concatenation of well-formed groups matches and gives back exactly those groups, so the decomposition is unique. |
| ProjectCard.ParseTagMatchesIff | app/components/ProjectCard.tsx:12 | A text matches iff it is the concatenation of well-formed groups. |
| ProjectCard.Decimals | app/components/ProjectCard.tsx:25 | The fraction-digit count is 0 when the number has no dot. Otherwise it is shorter than the number. |
| ProjectCard.DecimalsIsSecondPiece | app/components/ProjectCard.tsx:25 | `Decimals` equals the length of the second piece of `split(".")`, or 0 when there is only one piece. |
| ProjectCard.DecimalsOfOneDot | app/components/ProjectCard.tsx:25 | For a number with one dot, the count is the number of characters after it. |
| ProjectCard.ZeroDisplayMatches | app/components/ProjectCard.tsx:16-19 | The hidden display (prefix, "0", unit, rest) matches again with the same groups and number "0", which has no fraction digits. |
| ProjectCard.CountUpDisplay | app/components/ProjectCard.tsx:34 | A tick shows the tag with its number replaced by the formatted value. That equals the zero display iff the value is "0". |
| ProjectCard.AnimatedTag.constructor | app/components/ProjectCard.tsx:8-10 | A new tag shows its own text, with the latch clear and no count-up started or running. |
| ProjectCard.AnimatedTag.Shown | app/components/ProjectCard.tsx:40-42 | A tag that does not match renders its text verbatim. |
| ProjectCard.AnimatedTag.VisibilityEffect | app/components/ProjectCard.tsx:14-38 | A non-matching tag is untouched. Hidden: the latch is cleared and the zero display shown, and running count-ups are not cancelled. Visible: the latch is set, and a count-up loop starts iff the latch was clear. |
| ProjectCard.AnimatedTag.VisibilityEffectWithCleanup | app/components/ProjectCard.tsx:14-38 | The effect with a cleanup that cancels the running count-up: the same latch and display, at most one loop running, and a hidden tag has no loop and shows its zero display. |
| ProjectCard.AnimatedTag.CountUpFrame | app/components/ProjectCard.tsx:29-36 | A tick shows its formatted value and keeps requesting frames until 1200 ms have elapsed since its start. It keeps the hidden-at-zero state, because while hidden with the cleanup no loop runs. |
| ProjectCard.UpFortyPercent | app/components/ProjectCard.tsx:12 | "↑40%" parses as arrow, "40", percent and an empty rest, with zero display "↑0%". |
| ProjectCard.HiddenTagKeepsCounting | app/components/ProjectCard.tsx:14-38 | Hiding "↑40%" 300 ms into its count-up shows "↑0%", and the next tick overwrites it with "↑24%" while hidden. Showing it again runs two loops at once. |
| ProjectCard.HiddenTagStaysAtZero | app/components/ProjectCard.tsx:14-38 | With the cleanup, the same sequence leaves the hidden tag at "↑0%", and showing it again runs one loop. |
| ProjectCard.TagsVisible | app/components/ProjectCard.tsx:76-83 | Tags show on highlight cards, on viewports narrower than 640, and otherwise exactly while hovered. |
| ProjectCard.ChooseMedia | app/components/ProjectCard.tsx:130-158 | Video iff `videoSrc` is truthy, else image iff `imageSrc` is, else the placeholder. A video gets (34,34,34), threshold 30, the host's `playing`, and `canvasBg` "rgb(34,34,34)" exactly when fit is contain. |
| ProjectCard.VideoCardMatteBlendsIntoCard | app/components/ProjectCard.tsx:133-134 | On a video card, keyed pixels become the card's opaque (34,34,34) and all others are shown as decoded. |
| HomePage.NextToolIndex | app/page.tsx:120 | The next index is in [0,4): one more, wrapping from 3 to 0. |
| HomePage.AdvanceToolsIsRotation | app/page.tsx:116-125 | After k cycles the cycler shows item (i + k) mod 4. |
| HomePage.EveryToolComesRound | app/page.tsx:102-125 | Four cycles return to the start, and every item comes round within four cycles. |
| HomePage.ToolkitCycler.constructor | app/page.tsx:113-117 | The cycler starts at item 0, not fading, with the first cycle timeout scheduled. |
| HomePage.ToolkitCycler.Current | app/page.tsx:102-107 | The item shown is always one of the four toolkit items. |
| HomePage.ToolkitCycler.CycleElapsed | app/page.tsx:117-118 | The cycle timeout starts the fade and schedules the switch. The index is unchanged. |
| HomePage.ToolkitCycler.FadeElapsed | app/page.tsx:119-124 | The fade timeout advances the index, ends the fade and schedules the next cycle. The invariant "fading iff a switch is pending" is kept. |
| HomePage.SpawnPop | app/page.tsx:251-255 | Exactly one effect `{id, x, y}` is appended, and the existing entries are unchanged. |
| HomePage.RemovePop | app/page.tsx:257-259 | No entry with the id remains, every other entry is kept, and nothing is added. |
| HomePage.RemovePopKeepsOrder | app/page.tsx:258 | Removal distributes over concatenation, so the kept entries stay in their original order. |
| HomePage.RemovePopAbsent | app/page.tsx:258 | Removing an id that is not in the list leaves the list as it is. |
| HomePage.RemoveUndoesSpawn | app/page.tsx:251-259 | Removing a freshly spawned effect's id gives back the list from before the spawn. |
| HomePage.RemoveTakesAllWithTheId | app/page.tsx:251-259 | Two effects spawned in the same millisecond share an id and are removed together. |
| HomePage.DragTo | app/page.tsx:280-286 | A move latches `moved` once dx or dy exceeds 3 px in absolute value (coordinates are real, so a 3.5 px move counts), and leaves the rest of the record unchanged. The offset is the start offset plus (dx, dy). |
| HomePage.MovedLatches | app/page.tsx:280-286 | After any run of moves, `moved` holds iff it held before or some move went more than 3 px on an axis. It never reverts. |
| HomePage.Home.constructor | app/page.tsx:261-267 | Both bubbles start at rest, there are no effects, and the last drag-pop time is 0. |
| HomePage.Home.MouseDown | app/page.tsx:269-307 | Pressing a bubble stops its return, records the drag from its current offset, and starts tracking. The other bubble is untouched. |
| HomePage.Home.MouseMove | app/page.tsx:280-286 | While tracking, the drag follows `DragTo`. Otherwise nothing changes. |
| HomePage.Home.MouseUp | app/page.tsx:288-304 | After a moved drag: the pop time is recorded, one effect is appended, and the bubble is popped and sent home. In every tracked case the drag record is cleared and tracking ends. |
| HomePage.Home.Click | app/page.tsx:310-322 | A click is ignored within 100 ms of the last drag-pop or while the drag has moved. Otherwise it appends one effect and pops the bubble. |
| HomePage.Home.PopTimeout | app/page.tsx:298-301 | After 1500 ms the bubble is un-popped. A drag-pop's timeout also clears `returning`. |
| HomePage.Home.PopDone | app/page.tsx:257-259 | A finished burst's id is removed from the effects. |
| HomePage.DragReleaseThenClick | app/page.tsx:269-322 | A drag released and followed by its click within 100 ms pops once and leaves the bubble at (0,0). |
| HomePage.PressThenClick | app/page.tsx:288-322 | A press and release without movement spawns nothing on release, and its click pops once. |
| HomePage.Intro.constructor | app/page.tsx:185-187 | The intro starts at phase -1, not crumbling, with no timers. |
| HomePage.Intro.Start | app/page.tsx:324-347 | The intro is skipped (phase 3, storage unchanged) iff `introPlayed` is set and `homeReload` is not. Otherwise it starts at phase 0 with its four timeouts, and a set `homeReload` is removed. |
| HomePage.Intro.TimerFires | app/page.tsx:345-348 | The timeouts fire in order. Crumbling starts first, then the phase steps 0 to 1 to 2 to 3. `introPlayed` is written by the last step only. |
| HomePage.Intro.Unmount | app/page.tsx:349 | The cleanup clears all pending timeouts. |
| HomePage.Intro.BeforeUnload | app/page.tsx:352-358 | Leaving the page sets `homeReload`. |
| HomePage.LoadAndWait | app/page.tsx:324-348 | A load that plays the intro opens at phase 0, ends at phase 3 and records `introPlayed`, consuming `homeReload`. |
| HomePage.LoadThenReload | app/page.tsx:324-358 | A load that skips the intro opens at phase 3. Leaving by reload sets `homeReload`. |
| HomePage.IntroAcrossVisits | app/page.tsx:324-358 | In one session, the first load plays the intro and a return visit skips it. A reload plays it again and consumes the flag. |
| HomePage.CardPlaying | app/page.tsx:743 | Every card gets `undefined` when none is hovered. Otherwise it gets `true` exactly for the hovered card. |
| HomePage.HoverHoldsTheOthers | app/page.tsx:743 | Hovering one card holds every other loaded card's video paused. The hovered card, and every card while none is hovered, is never held. |
| HomePage.AtMostOneCardPlays | app/page.tsx:743 | At most one card is told to play. |
| Navbar.Step | app/components/Navbar.tsx:21-26 | `hidden` iff y > 80 and y is past the last position. `scrolled` iff y > 20. `lastY` becomes y. `hidden` implies `scrolled`. |
| Navbar.ReplayRemembersTwo | app/components/Navbar.tsx:21-26 | After any run of scroll events, the state depends only on the last position and the one before it. |
| Navbar.ScrollingUpShows | app/components/Navbar.tsx:23 | Scrolling up, or staying put, never hides the bar. |
| Navbar.NavbarState.constructor | app/components/Navbar.tsx:16-18 | The bar starts shown, transparent, with `lastY` 0. |
| Navbar.NavbarState.OnScroll | app/components/Navbar.tsx:21-26 | The listener performs `Step` and keeps "hidden implies scrolled". |
| Navbar.ViewOf | app/components/Navbar.tsx:53-86 | A link is the active pill iff the pathname equals its href exactly. A plain link gets `_blank` and "noopener noreferrer" and the icon iff it is external. |
| Navbar.AtMostOneActive | app/components/Navbar.tsx:8-12 | No pathname makes two header links active. |
| Navbar.ResumeOpensNewTab | app/components/Navbar.tsx:73-74 | On any site path the resume link opens in a new tab without an opener. |
| Carousel.FittingContentHasNoArrows | app/components/HighlightsCarousel.tsx:13-14 | Content that fits hides the right arrow. Within 4 px of the start, the left arrow is hidden too. |
| Carousel.ArrowsVanishOnlyNearTheFit | app/components/HighlightsCarousel.tsx:13-14 | Overflowing content has a scroll position where neither arrow shows iff it overflows by at most 8 px (twice the slack). Beyond that, some arrow is always shown. |
| Carousel.ScrollDelta | app/components/HighlightsCarousel.tsx:29-34 | A click scrolls iff the element exists, by 0.6 times its client width, negative to the left. |
| Carousel.ArrowsAreOpposite | app/components/HighlightsCarousel.tsx:32-33 | Left and right deltas have equal magnitude and opposite sign, left negative for a non-empty viewport. |
| Carousel.ArrowFlags.constructor | app/components/HighlightsCarousel.tsx:7-8 | Before the first measurement there is no left arrow and there is a right arrow. |
| Carousel.ArrowFlags.UpdateArrows | app/components/HighlightsCarousel.tsx:10-15 | With an element, the flags become `scrollLeft > 4` and `scrollLeft < scrollWidth - clientWidth - 4`. Without one, nothing changes. |
| Carousel.ArrowFlags.Rendered | app/components/HighlightsCarousel.tsx:38-57 | Each arrow button is rendered iff its flag is set. |
| Carousel.MountOverFittingContent | app/components/HighlightsCarousel.tsx:17-20 | The first measurement of content that fits removes the initial right arrow. |
| WalmartCaseStudy.NextCard | app/projects/walmart-genai-comparison/page.tsx:157 | The next card is in [0,7): one more, wrapping from 6 to 0. |
| WalmartCaseStudy.AfterTicksIsRotation | app/projects/walmart-genai-comparison/page.tsx:154-160 | After k ticks, card (i + k) mod 7 is active. |
| WalmartCaseStudy.EveryCardComesRound | app/projects/walmart-genai-comparison/page.tsx:154-160 | Starting from the first card, card j is active after j ticks. |
| WalmartCaseStudy.CaseStudyPage.constructor | app/projects/walmart-genai-comparison/page.tsx:109-116 | The page starts at card 0, unpaused, with the interval installed. Both carousels start with no left arrow and a right arrow. |
| WalmartCaseStudy.CaseStudyPage.SetPaused | app/projects/walmart-genai-comparison/page.tsx:154-160 | Re-running the effect leaves an interval installed iff not paused. |
| WalmartCaseStudy.CaseStudyPage.IntervalTick | app/projects/walmart-genai-comparison/page.tsx:155-158 | Unpaused, a tick advances the card. Paused, nothing changes. |
| WalmartCaseStudy.CaseStudyPage.UpdateCompArrows | app/projects/walmart-genai-comparison/page.tsx:121-126 | The comparison flags follow the carousel predicates. Without an element, nothing changes. |
| WalmartCaseStudy.CaseStudyPage.UpdateResArrows | app/projects/walmart-genai-comparison/page.tsx:139-144 | The research flags follow the carousel predicates. Without an element, nothing changes. |
| WalmartCaseStudy.CaseStudyPage.Rendered | app/projects/walmart-genai-comparison/page.tsx:324-474 | Three arrows follow their flags. The research right arrow is rendered always. |
| WalmartCaseStudy.ArrowClick | app/projects/walmart-genai-comparison/page.tsx:326-474 | Each of the four arrows scrolls only its own strip, by 0.6 times that strip's client width, negative to the left, and does nothing without the element. |
| WalmartCaseStudy.ScrolledToTheEnd | app/projects/walmart-genai-comparison/page.tsx:472-474 | At the end of both carousels, the comparison right arrow is gone and the research right arrow is still shown. |

## Findings

| source | as written | input that shows it | evidently intended | confidence | as-written member | corrected member |
|---|---|---|---|---|---|---|
| app/components/ProjectCard.tsx:14-38 | The effect starts a `requestAnimationFrame` count-up loop and returns no cleanup. Hiding the tag sets the zero display, but the running loop keeps overwriting it until 1200 ms have passed, and showing it again starts a second loop beside the first. | "↑40%" shown at 0 ms and hidden at 300 ms; the tick at 316 ms writes "↑24%" (progress 316/1200, eased 1 − (1 − progress)³ ≈ 0.60, times 40) over "↑0%". | Hiding cancels the count-up, so a hidden tag shows its zero display and the next reveal counts up from zero with one loop. | medium, not executed | ProjectCard.HiddenTagKeepsCounting | ProjectCard.AnimatedTag.VisibilityEffectWithCleanup |

## Left out

- WebGL itself is an abstract pipeline and an action log. Shader compilation and linking, buffer and texture objects, uniform locations and `drawArrays` are not modelled.
- Float normalisation is left out. The `/255` uniforms and `mediump` precision become the integer test `c < threshold`.
- Matte.ResolveUniforms: colour channels are integers in 0..255. Values outside that range, which JavaScript would accept, are not modelled.
- `video.play()` only logs a play request. Whether the browser honours it is the separate event `PlaybackBegins`. The rejected promise is not modelled.
- `requestAnimationFrame`, `cancelAnimationFrame` and `IntersectionObserver` are a set of pending frame handles and a visibility flag.
- The effect's `if (!video || !canvas || !container) return` guards are left out, because the three elements always exist while mounted.
- Context loss, and recovering from it, is not modelled. `glRef` is never reset.
- ProjectCard.AnimatedTag.CountUpFrame: the formatted value is a parameter. The cubic easing, `parseFloat`, `toFixed` and `performance.now()` are not modelled, so the value a tick shows is not tied to the elapsed time. The intro's loader count is left out too.
- Matte.BlendOverClear rounds each blended channel to the nearest of 0..255. GPUs may round differently in the last unit. How the page composites the canvas is the browser's business and is not modelled.
- Smooth scrolling is left out. `ScrollDelta` returns the requested delta, not the browser's animation.
- Timer durations (3000, 200, 1300, 1900, 2700, 3300, 1500, 4000 ms) are left out. Timeouts fire as discrete events in their scheduled order. The 100 ms click guard is modelled, because it compares timestamps.
- HomePage.Home.MouseUp: the source reads `Date.now()` twice, once for the drag-pop time and once for the new effect's id. The model takes both from one `now`, so the two are equal.
- HomePage.Home.MouseDown: a second press without a release would stack a second pair of window listeners. The model keeps one tracking flag per bubble.
- The toolkit fade timeout is not cleared on unmount, and neither is the 1500 ms pop timeout. Timeouts that fire after unmount are not modelled.
- The pop sound, the random particles and messages, the clipboard copy and the custom cursor are left out. They are audio, randomness and DOM work with no decision logic.
- ProjectCard.TagsVisible takes `innerWidth` as a parameter. The `isMobile` state before the first check, and its resize listener, are not modelled.
- Characters are Unicode scalar values. The regular expression's UTF-16 code units agree with them for the arrows and the `\s` set.
- `Navbar.NavbarState.OnScroll` takes `scrollY` as a real number. Passive-listener timing is not modelled.
