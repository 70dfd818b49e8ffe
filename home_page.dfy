/** The interaction state of the home page (app/page.tsx): the toolkit cycler,
    the list of pop effects, dragging and clicking the two bubbles, the intro
    phases with their session flags, and the `playing` value handed to each
    highlight card. Timeouts are discrete events; `Date.now()` is a parameter. */
module HomePage {
  import opened Wrappers
  import VideoRenderer

  // ---------------------------------------------------------------------------
  // ToolkitCycler
  // ---------------------------------------------------------------------------

  datatype Tool = Tool(name: string, detail: string)

  const ToolkitItems: seq<Tool> := [
    Tool("Claude CoWork + ChatGPT", "Discovery"),
    Tool("Cursor + Claude", "Design prototyping"),
    Tool("Dscout + Usertest", "Research"),
    Tool("Figma", "Design & handoff")]

  /** `(prev + 1) % toolkitItems.length` */
  function NextToolIndex(i: int): (r: int)
    requires 0 <= i < |ToolkitItems|
    ensures 0 <= r < |ToolkitItems|
    ensures r == (if i == |ToolkitItems| - 1 then 0 else i + 1)
  {
    (i + 1) % |ToolkitItems|
  }

  /** The index after `k` complete cycles. */
  function AdvanceTools(i: int, k: nat): (r: int)
    requires 0 <= i < |ToolkitItems|
    ensures 0 <= r < |ToolkitItems|
  {
    if k == 0 then i else NextToolIndex(AdvanceTools(i, k - 1))
  }

  /** The cycler is a rotation: after k cycles it shows item (i + k) mod 4. */
  lemma {:induction false} AdvanceToolsIsRotation(i: int, k: nat)
    requires 0 <= i < |ToolkitItems|
    ensures AdvanceTools(i, k) == (i + k) % |ToolkitItems|
  {
    if k > 0 {
      AdvanceToolsIsRotation(i, k - 1);
      ToolCount();
      var prev := (i + k - 1) % 4;
      assert (i + k) % 4 == if prev == 3 then 0 else prev + 1;
    }
  }

  /** The cycler shows four items. */
  lemma ToolCount()
    ensures |ToolkitItems| == 4
  {
  }

  /** Every item comes round within four cycles, and four cycles return to the start. */
  lemma EveryToolComesRound(i: int, j: int)
    requires 0 <= i < |ToolkitItems| && 0 <= j < |ToolkitItems|
    ensures AdvanceTools(i, |ToolkitItems|) == i
    ensures AdvanceTools(i, if i <= j then j - i else j + 4 - i) == j
  {
    AdvanceToolsIsRotation(i, 4);
    AdvanceToolsIsRotation(i, if i <= j then j - i else j + 4 - i);
  }

  class ToolkitCycler {
    var activeIdx: int
    var fading: bool
    var cyclePending: bool  // the CYCLE_MS timeout of the current effect
    var fadePending: bool   // the FADE_MS timeout it started

    ghost predicate Valid()
      reads this
    {
      && 0 <= activeIdx < |ToolkitItems|
      && cyclePending != fadePending
      && (fading <==> fadePending)
    }

    /** Mount: item 0, not fading; the effect schedules the first cycle. */
    constructor ()
      ensures Valid() && activeIdx == 0 && !fading && cyclePending
    {
      activeIdx := 0;
      fading := false;
      cyclePending := true;
      fadePending := false;
    }

    /** The item on show. */
    function Current(): (t: Tool)
      requires Valid()
      reads this
      ensures t in ToolkitItems
    {
      ToolkitItems[activeIdx]
    }

    /** CYCLE_MS has elapsed: fade out and schedule the switch. */
    method CycleElapsed()
      requires Valid()
      modifies this
      ensures Valid()
      ensures old(cyclePending) ==> fading && fadePending && !cyclePending && activeIdx == old(activeIdx)
      ensures !old(cyclePending) ==> fading == old(fading) && fadePending == old(fadePending)
                                     && cyclePending == old(cyclePending) && activeIdx == old(activeIdx)
    {
      if cyclePending {
        cyclePending := false;
        fading := true;
        fadePending := true;
      }
    }

    /** FADE_MS has elapsed: show the next item, fade in; the index change re-runs
        the effect, which schedules the next cycle. */
    method FadeElapsed()
      requires Valid()
      modifies this
      ensures Valid()
      ensures old(fadePending) ==> activeIdx == NextToolIndex(old(activeIdx)) && !fading && cyclePending
      ensures !old(fadePending) ==> activeIdx == old(activeIdx) && fading == old(fading)
                                    && cyclePending == old(cyclePending) && fadePending == old(fadePending)
    {
      if fadePending {
        fadePending := false;
        activeIdx := (activeIdx + 1) % |ToolkitItems|;
        fading := false;
        cyclePending := true;
      }
    }
  }

  // ---------------------------------------------------------------------------
  // Pop effects
  // ---------------------------------------------------------------------------

  datatype PopEffect = PopEffect(id: int, x: real, y: real)

  /** `setPopEffects(prev => [...prev, { id, x, y }])` */
  function SpawnPop(effects: seq<PopEffect>, id: int, x: real, y: real): (r: seq<PopEffect>)
    ensures |r| == |effects| + 1
    ensures r[..|effects|] == effects
    ensures r[|effects|] == PopEffect(id, x, y)
  {
    effects + [PopEffect(id, x, y)]
  }

  /** `setPopEffects(prev => prev.filter(p => p.id !== id))` */
  function RemovePop(effects: seq<PopEffect>, id: int): (r: seq<PopEffect>)
    ensures |r| <= |effects|
    ensures forall k :: 0 <= k < |r| ==> r[k].id != id && r[k] in effects
    ensures forall e :: e in effects && e.id != id ==> e in r
  {
    if effects == [] then []
    else if effects[0].id == id then RemovePop(effects[1..], id)
    else [effects[0]] + RemovePop(effects[1..], id)
  }

  /** Removal keeps order: filtering a concatenation filters each part in place. */
  lemma {:induction false} RemovePopKeepsOrder(a: seq<PopEffect>, b: seq<PopEffect>, id: int)
    ensures RemovePop(a + b, id) == RemovePop(a, id) + RemovePop(b, id)
  {
    if a == [] {
      assert a + b == b;
    } else {
      assert (a + b)[0] == a[0];
      assert (a + b)[1..] == a[1..] + b;
      RemovePopKeepsOrder(a[1..], b, id);
    }
  }

  /** A list without the id is left exactly as it is. */
  lemma {:induction false} RemovePopAbsent(effects: seq<PopEffect>, id: int)
    requires forall k :: 0 <= k < |effects| ==> effects[k].id != id
    ensures RemovePop(effects, id) == effects
  {
    if effects != [] {
      RemovePopAbsent(effects[1..], id);
    }
  }

  /** Removing an effect undoes spawning it, when its id is new. */
  lemma RemoveUndoesSpawn(effects: seq<PopEffect>, id: int, x: real, y: real)
    requires forall k :: 0 <= k < |effects| ==> effects[k].id != id
    ensures RemovePop(SpawnPop(effects, id, x, y), id) == effects
  {
    RemovePopKeepsOrder(effects, [PopEffect(id, x, y)], id);
    RemovePopAbsent(effects, id);
    assert RemovePop([PopEffect(id, x, y)], id) == [];
  }

  /** Removing an effect removes every effect with its id: two pops spawned in
      the same millisecond share an id and leave together. */
  lemma RemoveTakesAllWithTheId(effects: seq<PopEffect>, id: int, x1: real, y1: real, x2: real, y2: real)
    requires forall k :: 0 <= k < |effects| ==> effects[k].id != id
    ensures RemovePop(SpawnPop(SpawnPop(effects, id, x1, y1), id, x2, y2), id) == effects
  {
    var once := SpawnPop(effects, id, x1, y1);
    RemovePopKeepsOrder(once, [PopEffect(id, x2, y2)], id);
    RemoveUndoesSpawn(effects, id, x1, y1);
    assert RemovePop([PopEffect(id, x2, y2)], id) == [];
  }

  // ---------------------------------------------------------------------------
  // Dragging and clicking the bubbles
  // ---------------------------------------------------------------------------

  /** A pointer position or a bubble offset, in CSS pixels; `clientX` and
      `clientY` are fractional on zoomed or high-density displays. */
  datatype Point = Point(x: real, y: real)

  /** The drag ref: where the pointer went down, the offset then, and whether
      the pointer has moved far enough to count as a drag. */
  datatype DragRecord = DragRecord(startX: real, startY: real, startOx: real, startOy: real, moved: bool)

  datatype BubbleState = BubbleState(offset: Point, popped: bool, returning: bool,
                                     drag: Option<DragRecord>, tracking: bool)

  datatype BubbleId = One | Two

  const MoveThreshold := 3.0
  const ClickGuardMs := 100

  const Resting := BubbleState(Point(0.0, 0.0), false, false, None, false)

  function Abs(x: real): real
  {
    if x < 0.0 then -x else x
  }

  /** One pointer position is far enough from the start to make a drag. */
  predicate FarFrom(d: DragRecord, p: Point)
  {
    Abs(p.x - d.startX) > MoveThreshold || Abs(p.y - d.startY) > MoveThreshold
  }

  /** The mousemove listener: latch `moved`, follow the pointer from the start offset. */
  function DragTo(d: DragRecord, p: Point): (r: (DragRecord, Point))
    ensures r.0 == d.(moved := r.0.moved)
    ensures r.0.moved <==> d.moved || FarFrom(d, p)
    ensures r.1.x - d.startOx == p.x - d.startX && r.1.y - d.startOy == p.y - d.startY
  {
    var dx := p.x - d.startX;
    var dy := p.y - d.startY;
    (d.(moved := d.moved || Abs(dx) > MoveThreshold || Abs(dy) > MoveThreshold),
     Point(d.startOx + dx, d.startOy + dy))
  }

  /** The drag record after a run of pointer moves. */
  function DragThrough(d: DragRecord, moves: seq<Point>): DragRecord
    decreases |moves|
  {
    if moves == [] then d else DragThrough(DragTo(d, moves[0]).0, moves[1..])
  }

  /** `moved` is set once any position strays more than 3 px on an axis, and
      never reverts: after a run of moves it holds exactly when it held before
      or some move went far. */
  lemma {:induction false} MovedLatches(d: DragRecord, moves: seq<Point>)
    ensures DragThrough(d, moves) == d.(moved := DragThrough(d, moves).moved)
    ensures DragThrough(d, moves).moved <==> d.moved || exists k :: 0 <= k < |moves| && FarFrom(d, moves[k])
    decreases |moves|
  {
    if moves != [] {
      var d1 := DragTo(d, moves[0]).0;
      MovedLatches(d1, moves[1..]);
      assert forall p :: FarFrom(d1, p) == FarFrom(d, p);
      if d1.moved == d.moved {
        assert !FarFrom(d, moves[0]) || d.moved;
      }
      forall k | 0 < k < |moves|
        ensures moves[k] == moves[1..][k - 1]
      {
      }
      if exists k :: 1 <= k < |moves| && FarFrom(d, moves[k]) {
        var k :| 1 <= k < |moves| && FarFrom(d, moves[k]);
        assert FarFrom(d1, moves[1..][k - 1]);
      }
    }
  }

  /** `handleBubbleClick`'s guard: too soon after a drag-pop, or the current drag moved. */
  predicate ClickIgnored(now: int, lastDragPop: int, drag: Option<DragRecord>)
  {
    now - lastDragPop < ClickGuardMs || (drag.Some? && drag.value.moved)
  }

  class Home {
    var bubble1: BubbleState
    var bubble2: BubbleState
    var popEffects: seq<PopEffect>
    var lastDragPop: int

    constructor ()
      ensures bubble1 == Resting && bubble2 == Resting && popEffects == [] && lastDragPop == 0
    {
      bubble1, bubble2 := Resting, Resting;
      popEffects := [];
      lastDragPop := 0;
    }

    function Bubble(b: BubbleId): BubbleState
      reads this
    {
      if b == One then bubble1 else bubble2
    }

    /** The other bubble's state is never touched by a handler of this one. */
    function Other(b: BubbleId): BubbleId
    {
      if b == One then Two else One
    }

    method SetBubble(b: BubbleId, s: BubbleState)
      modifies this`bubble1, this`bubble2
      ensures Bubble(b) == s && Bubble(Other(b)) == old(Bubble(Other(b)))
    {
      if b == One {
        bubble1 := s;
      } else {
        bubble2 := s;
      }
    }

    /** `handleBubbleDown`: stop returning, record the drag from the current
        offset, attach the window listeners. */
    method MouseDown(b: BubbleId, p: Point)
      modifies this`bubble1, this`bubble2
      ensures var s := old(Bubble(b));
              Bubble(b) == s.(returning := false,
                              drag := Some(DragRecord(p.x, p.y, s.offset.x, s.offset.y, false)),
                              tracking := true)
      ensures Bubble(Other(b)) == old(Bubble(Other(b)))
    {
      var s := Bubble(b);
      SetBubble(b, s.(returning := false,
                      drag := Some(DragRecord(p.x, p.y, s.offset.x, s.offset.y, false)),
                      tracking := true));
    }

    /** The window "mousemove" listener. */
    method MouseMove(b: BubbleId, p: Point)
      modifies this`bubble1, this`bubble2
      ensures var s := old(Bubble(b));
              Bubble(b) == if s.tracking && s.drag.Some?
                           then s.(drag := Some(DragTo(s.drag.value, p).0), offset := DragTo(s.drag.value, p).1)
                           else s
      ensures Bubble(Other(b)) == old(Bubble(Other(b)))
    {
      var s := Bubble(b);
      if s.tracking && s.drag.Some? {
        var r := DragTo(s.drag.value, p);
        SetBubble(b, s.(drag := Some(r.0), offset := r.1));
      }
    }

    /** The window "mouseup" listener: detach; after a real drag, record the pop
        time, spawn one effect, pop the bubble and snap it home; always clear the
        drag record. */
    method MouseUp(b: BubbleId, p: Point, now: int)
      modifies this
      ensures var s := old(Bubble(b));
              var dragged := s.tracking && s.drag.Some? && s.drag.value.moved;
              && Bubble(b) == (if !s.tracking then s
                               else if dragged then s.(popped := true, offset := Point(0.0, 0.0), drag := None, tracking := false)
                               else s.(drag := None, tracking := false))
              && popEffects == (if dragged then SpawnPop(old(popEffects), now, p.x, p.y) else old(popEffects))
              && lastDragPop == (if dragged then now else old(lastDragPop))
      ensures Bubble(Other(b)) == old(Bubble(Other(b)))
    {
      var s := Bubble(b);
      if !s.tracking {
        return;
      }
      if s.drag.Some? && s.drag.value.moved {
        lastDragPop := now;
        popEffects := SpawnPop(popEffects, now, p.x, p.y);
        SetBubble(b, s.(popped := true, offset := Point(0.0, 0.0), drag := None, tracking := false));
      } else {
        SetBubble(b, s.(drag := None, tracking := false));
      }
    }

    /** `handleBubbleClick`: unless the guard holds, spawn one effect and pop. */
    method Click(b: BubbleId, p: Point, now: int)
      modifies this
      ensures var s := old(Bubble(b));
              var ignored := ClickIgnored(now, old(lastDragPop), s.drag);
              && Bubble(b) == (if ignored then s else s.(popped := true))
              && popEffects == (if ignored then old(popEffects) else SpawnPop(old(popEffects), now, p.x, p.y))
              && lastDragPop == old(lastDragPop)
      ensures Bubble(Other(b)) == old(Bubble(Other(b)))
    {
      var s := Bubble(b);
      if now - lastDragPop < ClickGuardMs {
        return;
      }
      if s.drag.Some? && s.drag.value.moved {
        return;
      }
      popEffects := SpawnPop(popEffects, now, p.x, p.y);
      SetBubble(b, s.(popped := true));
    }

    /** The 1500 ms timeout after a pop: the bubble comes back (a drag-pop's
        timeout also clears `returning`). */
    method PopTimeout(b: BubbleId, afterDrag: bool)
      modifies this`bubble1, this`bubble2
      ensures Bubble(b) == if afterDrag then old(Bubble(b)).(popped := false, returning := false)
                           else old(Bubble(b)).(popped := false)
      ensures Bubble(Other(b)) == old(Bubble(Other(b)))
    {
      var s := Bubble(b);
      SetBubble(b, if afterDrag then s.(popped := false, returning := false) else s.(popped := false));
    }

    /** A particle burst's `onDone`: `removePop(p.id)`. */
    method PopDone(id: int)
      modifies this`popEffects
      ensures popEffects == RemovePop(old(popEffects), id)
    {
      popEffects := RemovePop(popEffects, id);
    }
  }

  /** A drag that ends in a release pops the bubble once: the click the browser
      sends after the mouseup comes within 100 ms of the drag-pop and is ignored. */
  method DragReleaseThenClick(b: BubbleId, down: Point, up: Point, t: int, clickDelay: int)
    returns (effects: nat, popped: bool, home: Point)
    requires FarFrom(DragRecord(down.x, down.y, 0.0, 0.0, false), up)
    requires 0 <= clickDelay < ClickGuardMs
    ensures effects == 1 && popped && home == Point(0.0, 0.0)
  {
    var h := new Home();
    h.MouseDown(b, down);
    h.MouseMove(b, up);
    h.MouseUp(b, up, t);
    h.Click(b, up, t + clickDelay);
    effects := |h.popEffects|;
    popped := h.Bubble(b).popped;
    home := h.Bubble(b).offset;
  }

  /** A press and release without moving is a click: the click pops the bubble
      once (at least 100 ms after the last drag-pop), and the release spawns nothing. */
  method PressThenClick(b: BubbleId, at: Point, now: int) returns (effects: nat, popped: bool)
    requires now >= ClickGuardMs
    ensures effects == 1 && popped
  {
    var h := new Home();
    h.MouseDown(b, at);
    h.MouseUp(b, at, now);
    h.Click(b, at, now);
    effects := |h.popEffects|;
    popped := h.Bubble(b).popped;
  }

  // ---------------------------------------------------------------------------
  // The intro
  // ---------------------------------------------------------------------------

  /** The intro's timeouts, in the order they fire (1300, 1900, 2700, 3300 ms). */
  datatype IntroTimer = Crumble | ToPhase1 | ToPhase2 | ToPhase3

  const IntroSchedule: seq<IntroTimer> := [Crumble, ToPhase1, ToPhase2, ToPhase3]

  function GetItem(storage: map<string, string>, key: string): Option<string>
  {
    if key in storage then Some(storage[key]) else None
  }

  /** The intro is skipped iff it has played this session and the page was not reloaded. */
  predicate SkipsIntro(storage: map<string, string>)
  {
    IsTruthy(GetItem(storage, "introPlayed")) && !IsTruthy(GetItem(storage, "homeReload"))
  }

  /** The phase while `pending` timers are still to fire. */
  function PhaseWhilePending(pending: nat): int
  {
    if pending >= 3 then 0 else 3 - pending
  }

  class Intro {
    var phase: int
    var crumbling: bool
    var storage: map<string, string>  // sessionStorage
    var timers: seq<IntroTimer>       // scheduled timeouts, in firing order

    ghost predicate Valid()
      reads this
    {
      && -1 <= phase <= 3
      && |timers| <= 4
      && timers == IntroSchedule[4 - |timers|..]
      && (timers != [] ==> phase == PhaseWhilePending(|timers|) && (crumbling <==> |timers| < 4))
    }

    constructor (session: map<string, string>)
      ensures Valid() && phase == -1 && !crumbling && storage == session && timers == []
    {
      phase := -1;
      crumbling := false;
      storage := session;
      timers := [];
    }

    /** The mount effect: skip straight to phase 3, or consume the reload flag
        and start the intro at phase 0 with all four timeouts scheduled. */
    method Start()
      requires Valid() && phase == -1 && !crumbling && timers == []
      modifies this`phase, this`storage, this`timers
      ensures Valid() && !crumbling
      ensures SkipsIntro(old(storage)) ==> phase == 3 && timers == [] && storage == old(storage)
      ensures !SkipsIntro(old(storage)) ==>
                && phase == 0 && timers == IntroSchedule
                && storage == (if IsTruthy(GetItem(old(storage), "homeReload"))
                               then old(storage) - {"homeReload"} else old(storage))
    {
      var played := GetItem(storage, "introPlayed");
      var reloadFlag := GetItem(storage, "homeReload");
      if IsTruthy(reloadFlag) {
        storage := storage - {"homeReload"};
      } else if IsTruthy(played) {
        phase := 3;
        return;
      }
      phase := 0;
      timers := IntroSchedule;
    }

    /** The next timeout fires. Phases only ever step forward by one, and
        "introPlayed" is written by the last step and by nothing else. */
    method TimerFires()
      requires Valid()
      modifies this
      ensures Valid()
      ensures old(timers) == [] ==> phase == old(phase) && storage == old(storage) && timers == []
      ensures old(timers) != [] ==> timers == old(timers)[1..]
      ensures old(timers) == [] || old(timers)[0] != Crumble ==> crumbling == old(crumbling)
      ensures old(timers) != [] && old(timers)[0] == Crumble ==>
                crumbling && phase == old(phase) && storage == old(storage)
      ensures old(timers) != [] && old(timers)[0] in {ToPhase1, ToPhase2} ==>
                phase == old(phase) + 1 && storage == old(storage)
      ensures old(timers) != [] && old(timers)[0] == ToPhase3 ==>
                phase == 3 && storage == old(storage)["introPlayed" := "1"]
    {
      if timers == [] {
        return;
      }
      var t := timers[0];
      timers := timers[1..];
      match t
      case Crumble => crumbling := true;
      case ToPhase1 => phase := 1;
      case ToPhase2 => phase := 2;
      case ToPhase3 =>
        phase := 3;
        storage := storage["introPlayed" := "1"];
    }

    /** Unmount: all four timeouts are cleared. */
    method Unmount()
      requires Valid()
      modifies this`timers
      ensures Valid() && timers == []
    {
      timers := [];
    }

    /** "beforeunload": mark the coming load as a reload. */
    method BeforeUnload()
      requires Valid()
      modifies this`storage
      ensures Valid() && storage == old(storage)["homeReload" := "1"]
    {
      storage := storage["homeReload" := "1"];
    }
  }

  /** A load whose intro runs to the end: it opens at phase 0 and ends at
      phase 3 having recorded "introPlayed". */
  method LoadAndWait(session: map<string, string>) returns (opening: int, phase: int, after: map<string, string>)
    requires !SkipsIntro(session)
    ensures opening == 0 && phase == 3
    ensures after == (if IsTruthy(GetItem(session, "homeReload")) then session - {"homeReload"} else session)["introPlayed" := "1"]
  {
    var visit := new Intro(session);
    visit.Start();
    opening := visit.phase;
    visit.TimerFires();
    visit.TimerFires();
    visit.TimerFires();
    visit.TimerFires();
    phase, after := visit.phase, visit.storage;
  }

  /** A load that skips the intro (it opens at phase 3), then leaves by a reload. */
  method LoadThenReload(session: map<string, string>) returns (phase: int, after: map<string, string>)
    requires SkipsIntro(session)
    ensures phase == 3 && after == session["homeReload" := "1"]
  {
    var visit := new Intro(session);
    visit.Start();
    visit.BeforeUnload();
    phase, after := visit.phase, visit.storage;
  }

  /** Three loads in one session: the first plays the intro and records it;
      coming back skips it; a reload plays it again and consumes the reload flag.
      Each result is the phase the load opens at. */
  method IntroAcrossVisits() returns (first: int, back: int, reloaded: int, flagLeft: bool)
    ensures first == 0 && back == 3 && reloaded == 0 && !flagLeft
  {
    var session, ended;
    first, ended, session := LoadAndWait(map[]);
    assert GetItem(session, "introPlayed") == Some("1");
    assert "homeReload" !in session;
    back, session := LoadThenReload(session);
    assert GetItem(session, "homeReload") == Some("1");
    reloaded, ended, session := LoadAndWait(session);
    flagLeft := "homeReload" in session;
  }

  // ---------------------------------------------------------------------------
  // The highlight cards' `playing`
  // ---------------------------------------------------------------------------

  /** `hoveredHighlight === null ? undefined : hoveredHighlight === i` */
  function CardPlaying(hovered: Option<int>, i: int): (p: Option<bool>)
    ensures p.None? <==> hovered.None?
    ensures p == Some(true) <==> hovered == Some(i)
  {
    if hovered.None? then None else Some(hovered.value == i)
  }

  /** Hovering one card holds every other loaded card's video paused, on screen
      or not; the hovered card may play; with nothing hovered no card is held. */
  lemma HoverHoldsTheOthers(hovered: Option<int>, i: int, width: nat, paused: bool, visible: bool)
    requires width != 0
    ensures hovered.Some? && hovered.value != i ==>
              VideoRenderer.Gate(width, CardPlaying(hovered, i), paused, visible) == VideoRenderer.HeldPaused
    ensures hovered.None? || hovered == Some(i) ==>
              VideoRenderer.Gate(width, CardPlaying(hovered, i), paused, visible) != VideoRenderer.HeldPaused
  {
  }

  /** At most one card is told to play. */
  lemma AtMostOneCardPlays(hovered: Option<int>, i: int, j: int)
    requires CardPlaying(hovered, i) == Some(true) && CardPlaying(hovered, j) == Some(true)
    ensures i == j
  {
  }
}
