/** The decision logic of a project card (app/components/ProjectCard.tsx): the
    metric-tag parser and its visibility latch, the tags-visible rule, and the
    choice between a matted video, an image and a placeholder. */
module ProjectCard {
  import opened Wrappers
  import opened Matte

  // ---------------------------------------------------------------------------
  // The tag pattern  ^([↑↓]\s*\$?)([\d.]+)(%|k|M)(.*)$
  // ---------------------------------------------------------------------------

  predicate IsArrow(c: char)
  {
    c == '\U{2191}' || c == '\U{2193}'
  }

  /** JavaScript's `\s`: white space and line terminators. */
  predicate IsSpace(c: char)
  {
    c == '\t' || c == '\n' || c == '\U{000B}' || c == '\U{000C}' || c == '\r' || c == ' '
    || c == '\U{00A0}' || c == '\U{1680}' || ('\U{2000}' <= c <= '\U{200A}')
    || c == '\U{2028}' || c == '\U{2029}' || c == '\U{202F}' || c == '\U{205F}'
    || c == '\U{3000}' || c == '\U{FEFF}'
  }

  /** `[\d.]` */
  predicate IsNumberChar(c: char)
  {
    ('0' <= c <= '9') || c == '.'
  }

  /** `(%|k|M)` */
  predicate IsUnit(c: char)
  {
    c == '%' || c == 'k' || c == 'M'
  }

  /** The characters `.` does not match. */
  predicate IsLineTerminator(c: char)
  {
    c == '\n' || c == '\r' || c == '\U{2028}' || c == '\U{2029}'
  }

  /** The four capture groups of a match. */
  datatype TagParts = TagParts(prefix: string, number: string, unit: char, rest: string)

  /** The text a match covers: its groups in order. */
  function Join(p: TagParts): string
  {
    p.prefix + p.number + [p.unit] + p.rest
  }

  predicate AllSpace(s: string)
  {
    forall i :: 0 <= i < |s| ==> IsSpace(s[i])
  }

  /** Group 1 after its arrow: `\s*\$?`. */
  predicate IsPrefixTail(t: string)
  {
    AllSpace(t) || (|t| >= 1 && t[|t| - 1] == '$' && AllSpace(t[..|t| - 1]))
  }

  /** The groups of a string the pattern matches, as the pattern describes them. */
  predicate WellFormed(p: TagParts)
  {
    && |p.prefix| >= 1 && IsArrow(p.prefix[0]) && IsPrefixTail(p.prefix[1..])
    && |p.number| >= 1 && (forall i :: 0 <= i < |p.number| ==> IsNumberChar(p.number[i]))
    && IsUnit(p.unit)
    && (forall i :: 0 <= i < |p.rest| ==> !IsLineTerminator(p.rest[i]))
  }

  /** The length of the longest run of white space at the start of `s` (`\s*`, greedy). */
  function SpaceRun(s: string): (n: nat)
    ensures n <= |s|
    ensures AllSpace(s[..n])
    ensures n < |s| ==> !IsSpace(s[n])
  {
    if s == [] || !IsSpace(s[0]) then 0
    else
      var n := 1 + SpaceRun(s[1..]);
      assert s[..n] == [s[0]] + s[1..][..n - 1];
      n
  }

  /** The length of the longest run of digits and dots at the start of `s` (`[\d.]+`, greedy). */
  function NumberRun(s: string): (n: nat)
    ensures n <= |s|
    ensures forall i :: 0 <= i < n ==> IsNumberChar(s[i])
    ensures n < |s| ==> !IsNumberChar(s[n])
  {
    if s == [] || !IsNumberChar(s[0]) then 0 else 1 + NumberRun(s[1..])
  }

  predicate NoLineTerminator(s: string)
  {
    forall i :: 0 <= i < |s| ==> !IsLineTerminator(s[i])
  }

  /** `text.match(...)`: the groups when the whole text matches, None otherwise.
      Every quantifier in the pattern is greedy, and no backtracking can change
      the outcome: what follows each group cannot start with a character the
      group could have consumed. */
  function ParseTag(s: string): (r: Option<TagParts>)
    ensures r.Some? ==> WellFormed(r.value) && Join(r.value) == s
  {
    if |s| == 0 || !IsArrow(s[0]) then None
    else
      var j := PrefixEnd(s);
      var n := NumberRun(s[j..]);
      if n == 0 || j + n >= |s| || !IsUnit(s[j + n]) then None
      else if !NoLineTerminator(s[j + n + 1..]) then None
      else
        JoinOfCuts(s, j, n);
        Some(Cut(s, j, n))
  }

  /** The groups obtained by cutting `s` after `j` and after `j + n` characters. */
  function Cut(s: string, j: nat, n: nat): TagParts
    requires j + n < |s|
  {
    TagParts(s[..j], s[j..j + n], s[j + n], s[j + n + 1..])
  }

  lemma JoinOfCuts(s: string, j: nat, n: nat)
    requires j + n < |s|
    ensures Join(Cut(s, j, n)) == s
  {
    assert s[..j] + s[j..j + n] == s[..j + n];
    assert s[..j + n] + [s[j + n]] == s[..j + n + 1];
    assert s[..j + n + 1] + s[j + n + 1..] == s;
  }

  /** Where group 1 ends: after the arrow, the greedy `\s*`, and a `$` if one follows. */
  function PrefixEnd(s: string): (j: nat)
    requires |s| >= 1
    ensures 1 <= j <= |s|
    ensures IsPrefixTail(s[1..j])
  {
    var i := 1 + SpaceRun(s[1..]);
    assert s[1..i] == s[1..][..i - 1];
    if i < |s| && s[i] == '$' then
      assert s[1..i + 1][..i - 1] == s[1..i];
      i + 1
    else i
  }

  /** Every string made of well-formed groups matches, and the match returns
      exactly those groups: the decomposition is unique. */
  lemma ParseTagComplete(p: TagParts)
    requires WellFormed(p)
    ensures ParseTag(Join(p)) == Some(p)
  {
    var s := Join(p);
    var j := |p.prefix|;
    var n := |p.number|;
    PrefixEndOfWellFormed(p);
    CutsOfJoin(p);
    // [\d.]+ stops at the unit
    NumberRunOfPrefix(p.number, [p.unit] + p.rest);
    assert NoLineTerminator(p.rest);
  }

  /** Cutting a join at the lengths of its groups gives the groups back. */
  lemma CutsOfJoin(p: TagParts)
    ensures var s := Join(p);
            var j := |p.prefix|;
            && s[j..] == p.number + ([p.unit] + p.rest)
            && Cut(s, j, |p.number|) == p
  {
    var s := Join(p);
    var j := |p.prefix|;
    var n := |p.number|;
    assert s == p.prefix + (p.number + ([p.unit] + p.rest));
    assert s[j..] == p.number + ([p.unit] + p.rest);
    assert s[..j] == p.prefix;
    assert s[j..j + n] == p.number;
    assert s[j + n + 1..] == p.rest;
  }

  /** Group 1 of a well-formed match ends exactly where its prefix does. */
  lemma PrefixEndOfWellFormed(p: TagParts)
    requires WellFormed(p)
    ensures PrefixEnd(Join(p)) == |p.prefix|
  {
    var s := Join(p);
    var t := p.prefix[1..];
    var k := if |t| >= 1 && t[|t| - 1] == '$' then |t| - 1 else |t|;
    assert s[..|p.prefix|] == p.prefix;
    assert s[|p.prefix|] == p.number[0];
    // \s* stops at the dollar sign or at the first digit
    assert s[1..] == t[..k] + s[1 + k..];
    assert s[1 + k] == (if k < |t| then '$' else p.number[0]);
    SpaceRunOfPrefix(t[..k], s[1 + k..]);
  }

  /** `\s*` consumes exactly a run of spaces that is followed by a non-space. */
  lemma {:induction false} SpaceRunOfPrefix(w: string, tail: string)
    requires AllSpace(w)
    requires tail == [] || !IsSpace(tail[0])
    ensures SpaceRun(w + tail) == |w|
  {
    if w != [] {
      assert (w + tail)[1..] == w[1..] + tail;
      SpaceRunOfPrefix(w[1..], tail);
    } else {
      assert w + tail == tail;
    }
  }

  /** `[\d.]+` consumes exactly a run of number characters followed by a unit. */
  lemma {:induction false} NumberRunOfPrefix(d: string, tail: string)
    requires forall i :: 0 <= i < |d| ==> IsNumberChar(d[i])
    requires tail != [] && IsUnit(tail[0])
    ensures NumberRun(d + tail) == |d|
  {
    if d != [] {
      assert (d + tail)[1..] == d[1..] + tail;
      NumberRunOfPrefix(d[1..], tail);
    } else {
      assert d + tail == tail;
    }
  }

  /** The pattern in both directions: a text matches iff it is the join of
      well-formed groups. */
  lemma ParseTagMatchesIff(s: string)
    ensures ParseTag(s).Some? <==> exists p :: WellFormed(p) && Join(p) == s
  {
    if exists p :: WellFormed(p) && Join(p) == s {
      var p :| WellFormed(p) && Join(p) == s;
      ParseTagComplete(p);
    }
  }

  // ---------------------------------------------------------------------------
  // Fraction digits:  match[2].split(".")[1]?.length || 0
  // ---------------------------------------------------------------------------

  predicate NoDot(s: string)
  {
    forall k :: 0 <= k < |s| ==> s[k] != '.'
  }

  /** The position of the first '.', or |s| when there is none. */
  function IndexOfDot(s: string): (i: nat)
    ensures i <= |s|
    ensures i < |s| ==> s[i] == '.'
    ensures NoDot(s[..i])
  {
    if s == [] then 0 else if s[0] == '.' then 0 else 1 + IndexOfDot(s[1..])
  }

  /** JavaScript's `s.split(".")`: the pieces between the dots, in order. */
  function Split(s: string): (pieces: seq<string>)
    ensures |pieces| >= 1
    decreases |s|
  {
    var i := IndexOfDot(s);
    if i == |s| then [s] else [s[..i]] + Split(s[i + 1..])
  }

  /** The number of fraction digits the count-up shows: the length of the text
      between the first dot and the next one (or the end); 0 without a dot. */
  function Decimals(number: string): (d: nat)
    ensures NoDot(number) ==> d == 0
    ensures !NoDot(number) ==> d < |number|
  {
    var i := IndexOfDot(number);
    if i == |number| then 0 else IndexOfDot(number[i + 1..])
  }

  /** Split's first piece ends at the first dot. */
  lemma SplitAtFirstDot(s: string, i: nat)
    requires i == IndexOfDot(s)
    ensures i == |s| ==> Split(s) == [s]
    ensures i < |s| ==> Split(s) == [s[..i]] + Split(s[i + 1..])
  {
    assert Split(s) == if i == |s| then [s] else [s[..i]] + Split(s[i + 1..]);
  }

  /** Decimals agrees with the source's definition through split. */
  lemma DecimalsIsSecondPiece(number: string)
    ensures Decimals(number) == if |Split(number)| >= 2 then |Split(number)[1]| else 0
  {
    var i := IndexOfDot(number);
    SplitAtFirstDot(number, i);
    if i < |number| {
      var t := number[i + 1..];
      SplitAtFirstDot(t, IndexOfDot(t));
      assert Split(number)[1] == Split(t)[0];
    }
  }

  /** A number with one dot: its fraction digits are the characters after it. */
  lemma DecimalsOfOneDot(whole: string, fraction: string)
    requires forall k :: 0 <= k < |whole| ==> whole[k] != '.'
    requires forall k :: 0 <= k < |fraction| ==> fraction[k] != '.'
    ensures Decimals(whole + "." + fraction) == |fraction|
  {
    var s := whole + "." + fraction;
    assert s[|whole|] == '.';
    assert IndexOfDot(s) == |whole|;
    assert s[|whole| + 1..] == fraction;
  }

  // ---------------------------------------------------------------------------
  // AnimatedTag: the display and the hasAnimated latch
  // ---------------------------------------------------------------------------

  /** What a matching tag shows while hidden: its number replaced by 0. */
  function ZeroDisplay(p: TagParts): string
  {
    p.prefix + "0" + [p.unit] + p.rest
  }

  /** The zero display of a match matches again, with the same prefix, unit and
      rest and the number "0"; it shows zero fraction digits. */
  lemma ZeroDisplayMatches(p: TagParts)
    requires WellFormed(p)
    ensures ParseTag(ZeroDisplay(p)) == Some(p.(number := "0"))
    ensures Decimals(ParseTag(ZeroDisplay(p)).value.number) == 0
  {
    var q := p.(number := "0");
    assert IsNumberChar(q.number[0]);
    ParseTagComplete(q);
    assert Join(q) == ZeroDisplay(p);
  }

  /** What a tick of a count-up shows: the number replaced by `digits`, the
      formatted current value. */
  function CountUpDisplay(p: TagParts, digits: string): (s: string)
    ensures s == ZeroDisplay(p) <==> digits == "0"
  {
    var s := p.prefix + digits + [p.unit] + p.rest;
    assert s[|p.prefix|..|p.prefix| + |digits|] == digits;
    assert ZeroDisplay(p)[|p.prefix|..|p.prefix| + 1] == "0";
    s
  }

  /** The count-up runs for this many milliseconds. */
  const CountUpDuration := 1200.0

  /** One `<AnimatedTag>`: the `visible` prop as its effect last saw it,
      `display` and `hasAnimated`, the number of count-ups started, and the
      start times of the count-up loops still requesting animation frames. */
  class AnimatedTag {
    const text: string
    var visible: bool
    var hasAnimated: bool
    var display: string
    var countUps: nat
    var ticking: seq<real>

    /** Only a matching tag ever starts a count-up. */
    ghost predicate Valid()
      reads this
    {
      ticking != [] ==> ParseTag(text).Some?
    }

    /** What hiding is meant to leave behind: no count-up running, and a
        matching tag showing its zero display. */
    ghost predicate Settled()
      reads this
    {
      !visible ==> ticking == [] && (ParseTag(text).Some? ==> display == ZeroDisplay(ParseTag(text).value))
    }

    /** A tag before its effect first runs. */
    constructor (text: string, visible: bool)
      ensures Valid()
      ensures this.text == text && this.visible == visible
      ensures !hasAnimated && display == text && countUps == 0 && ticking == []
    {
      this.text := text;
      this.visible := visible;
      hasAnimated := false;
      display := text;
      countUps := 0;
      ticking := [];
    }

    /** What the tag renders: the text itself unless it matches. */
    function Shown(): (s: string)
      reads this
      ensures ParseTag(text).None? ==> s == text
    {
      if ParseTag(text).None? then text else display
    }

    /** The effect that runs when `visible` changes. A tag that does not match is
        left alone. Hidden: reset the latch and show the zero display. Visible:
        start one count-up at `now` unless the latch is already set. The effect
        returns no cleanup, so count-ups already running go on ticking. */
    method VisibilityEffect(visible: bool, now: real)
      requires Valid()
      modifies this`visible, this`hasAnimated, this`display, this`countUps, this`ticking
      ensures Valid() && this.visible == visible
      ensures ParseTag(text).None? ==>
                hasAnimated == old(hasAnimated) && display == old(display) && countUps == old(countUps)
                && ticking == old(ticking)
      ensures ParseTag(text).Some? && !visible ==>
                !hasAnimated && display == ZeroDisplay(ParseTag(text).value) && countUps == old(countUps)
                && ticking == old(ticking)
      ensures ParseTag(text).Some? && visible ==>
                hasAnimated && display == old(display)
                && countUps == old(countUps) + (if old(hasAnimated) then 0 else 1)
                && ticking == old(ticking) + (if old(hasAnimated) then [] else [now])
    {
      this.visible := visible;
      var m := ParseTag(text);
      if m.None? {
        return;
      }
      if !visible {
        hasAnimated := false;
        display := ZeroDisplay(m.value);
        return;
      }
      if hasAnimated {
        return;
      }
      hasAnimated := true;
      countUps := countUps + 1;
      ticking := ticking + [now];
    }

    /** The effect as it is evidently meant to behave: its cleanup cancels the
        running count-up before the next run, so a hidden tag keeps its zero
        display and no two count-ups overlap. */
    method VisibilityEffectWithCleanup(visible: bool, now: real)
      requires Valid()
      modifies this`visible, this`hasAnimated, this`display, this`countUps, this`ticking
      ensures Valid() && Settled() && this.visible == visible
      ensures |ticking| <= 1
      ensures ParseTag(text).None? ==>
                hasAnimated == old(hasAnimated) && display == old(display) && countUps == old(countUps)
      ensures ParseTag(text).Some? && !visible ==>
                !hasAnimated && display == ZeroDisplay(ParseTag(text).value) && countUps == old(countUps)
      ensures ParseTag(text).Some? && visible ==>
                hasAnimated && display == old(display)
                && countUps == old(countUps) + (if old(hasAnimated) then 0 else 1)
      ensures ticking == (if ParseTag(text).Some? && visible && !old(hasAnimated) then [now] else [])
    {
      ticking := [];
      VisibilityEffect(visible, now);
    }

    /** The animation frame of the count-up loop `k` at time `now`: it shows the
        formatted current value `digits`, and requests another frame until the
        duration has elapsed. */
    method CountUpFrame(k: nat, now: real, digits: string)
      requires Valid() && k < |ticking|
      modifies this`display, this`ticking
      ensures Valid() && ParseTag(text).Some?
      ensures display == CountUpDisplay(ParseTag(text).value, digits)
      ensures ticking == if now - old(ticking[k]) < CountUpDuration then old(ticking)
                         else old(ticking[..k] + ticking[k + 1..])
      ensures old(Settled()) ==> Settled()
    {
      display := CountUpDisplay(ParseTag(text).value, digits);
      if now - ticking[k] >= CountUpDuration {
        ticking := ticking[..k] + ticking[k + 1..];
      }
    }
  }

  /** The tag "↑40%" parses as arrow, "40", percent, nothing. */
  lemma UpFortyPercent()
    ensures ParseTag("\U{2191}40%") == Some(TagParts("\U{2191}", "40", '%', ""))
    ensures ZeroDisplay(TagParts("\U{2191}", "40", '%', "")) == "\U{2191}0%"
    ensures CountUpDisplay(TagParts("\U{2191}", "40", '%', ""), "24") == "\U{2191}24%"
  {
    var p := TagParts("\U{2191}", "40", '%', "");
    assert IsNumberChar(p.number[0]) && IsNumberChar(p.number[1]);
    ParseTagComplete(p);
    assert Join(p) == "\U{2191}40%";
    assert ZeroDisplay(p) == ['\U{2191}', '0', '%'];
    assert CountUpDisplay(p, "24") == ['\U{2191}', '2', '4', '%'];
  }

  /** Hiding a tag in the middle of its count-up: the next tick overwrites the
      zero display, so the hidden tag shows a count again; showing it again
      starts a second loop beside the first. */
  method HiddenTagKeepsCounting() returns (hidden: bool, zero: string, shown: string, loops: nat)
    ensures hidden && zero == "\U{2191}0%" && shown == "\U{2191}24%" && shown != zero
    ensures loops == 2
  {
    UpFortyPercent();
    var tag := new AnimatedTag("\U{2191}40%", true);
    ghost var p := TagParts("\U{2191}", "40", '%', "");
    assert ParseTag(tag.text) == Some(p);
    tag.VisibilityEffect(true, 0.0);
    assert tag.ticking == [0.0];
    tag.VisibilityEffect(false, 300.0);
    zero := tag.display;
    assert zero == ZeroDisplay(p);
    tag.CountUpFrame(0, 316.0, "24");
    assert tag.ticking == [0.0];
    hidden, shown := !tag.visible, tag.display;
    assert shown == CountUpDisplay(p, "24");
    assert |shown| != |zero|;
    tag.VisibilityEffect(true, 600.0);
    loops := |tag.ticking|;
  }

  /** With the cleanup, the same sequence leaves the hidden tag at zero: the
      hide cancels the loop, so no tick is left to overwrite the display. */
  method HiddenTagStaysAtZero() returns (hidden: bool, shown: string, loops: nat)
    ensures hidden && shown == "\U{2191}0%" && loops == 1
  {
    UpFortyPercent();
    var tag := new AnimatedTag("\U{2191}40%", true);
    tag.VisibilityEffectWithCleanup(true, 0.0);
    tag.VisibilityEffectWithCleanup(false, 300.0);
    hidden, shown := !tag.visible, tag.display;
    tag.VisibilityEffectWithCleanup(true, 600.0);
    loops := |tag.ticking|;
  }

  // ---------------------------------------------------------------------------
  // The card
  // ---------------------------------------------------------------------------

  datatype Variant = Highlight | Featured
  datatype VideoFit = Cover | Contain

  const MobileBreakpoint := 640

  /** `isMobile || hovered || variant === "highlight"` with `isMobile` the viewport test. */
  function TagsVisible(variant: Variant, innerWidth: int, hovered: bool): (v: bool)
    ensures variant == Highlight ==> v
    ensures innerWidth >= 640 && variant == Featured ==> (v <==> hovered)
    ensures innerWidth < 640 ==> v
  {
    variant == Highlight || innerWidth < MobileBreakpoint || hovered
  }

  /** The props a card passes to `<TransparentVideo>`. */
  datatype VideoProps = VideoProps(src: string, uniforms: Uniforms, canvasBg: Option<string>,
                                   scale: Option<real>, playing: Option<bool>)

  datatype Media =
    | Video(props: VideoProps)
    | Picture(src: string, sizes: string)
    | Placeholder

  const CardGray := Rgb(34, 34, 34)

  /** The media slot: a video if `videoSrc` is truthy, else an image if `imageSrc`
      is, else the placeholder. A video always gets background colour
      (34,34,34) and threshold 30 (transparency left at its default), and a
      canvas background only when it is letterboxed. */
  function ChooseMedia(variant: Variant, videoSrc: Option<string>, imageSrc: Option<string>,
                       fit: VideoFit, videoScale: Option<real>, playing: Option<bool>): (m: Media)
    ensures m.Video? <==> IsTruthy(videoSrc)
    ensures m.Picture? <==> !IsTruthy(videoSrc) && IsTruthy(imageSrc)
    ensures m.Placeholder? <==> !IsTruthy(videoSrc) && !IsTruthy(imageSrc)
    ensures m.Video? ==> m.props.src == videoSrc.value && m.props.playing == playing
    ensures m.Video? ==> m.props.uniforms == Uniforms(Rgb(34, 34, 34), 30, false)
    ensures m.Video? ==> (m.props.canvasBg == Some("rgb(34,34,34)") <==> fit == Contain)
                         && (m.props.canvasBg.None? <==> fit == Cover)
    ensures m.Picture? ==> m.src == imageSrc.value
  {
    if IsTruthy(videoSrc) then
      Video(VideoProps(
        videoSrc.value,
        ResolveUniforms(Some(CardGray), Some(30), None),
        if fit == Contain then Some("rgb(34,34,34)") else None,
        if videoScale.Some? && videoScale.value != 0.0 then videoScale else None,
        playing))
    else if IsTruthy(imageSrc) then
      Picture(imageSrc.value, if variant == Highlight then "280px" else "(max-width: 768px) 100vw, 1200px")
    else
      Placeholder
  }

  /** On a video card, every keyed pixel becomes the card's own #222222 at full
      opacity, so the matte blends into the card; pixels with a channel of 30 or
      more are shown as decoded. */
  lemma VideoCardMatteBlendsIntoCard(variant: Variant, videoSrc: Option<string>, imageSrc: Option<string>,
                                     fit: VideoFit, videoScale: Option<real>, playing: Option<bool>, c: Rgba)
    requires IsTruthy(videoSrc)
    ensures var m := ChooseMedia(variant, videoSrc, imageSrc, fit, videoScale, playing);
            && (IsKey(c, 30) ==> Shade(c, m.props.uniforms) == Rgba(34, 34, 34, 255))
            && (!IsKey(c, 30) ==> Shade(c, m.props.uniforms) == c)
  {
  }
}
