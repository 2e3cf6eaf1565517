/// The script the page carries (src/App.tsx, lines 308-388): four script variables and
/// the observable state of the page's elements, changed by a click on the yes button,
/// a click on the no button and the timer the yes click starts.
module Interaction {
  import opened Phrases
  import opened Template

  /** `phraseIndex` (line 310): a number, which becomes NaN once it is taken modulo an
      empty list's length, and stays NaN. */
  datatype PhraseIndex = Index(i: nat) | NaN

  /** An element's inline `transform`. */
  datatype Transform =
    | Unset
    | Scale(factor: real)               // `scale(s)`, line 384
    | CenteredScale(factor: real)       // `translate(-50%, -50%) scale(s)`, line 345
    | Offset(dx: real, dy: real)        // `translate(calc(-50% + xpx), calc(-50% + ypx))`, line 381

  /** The yes button's inline `font-size`. */
  datatype FontSize = Inherited | Rem(size: real)

  /** The script variables (lines 310-313) and what the handlers change on the page. */
  datatype PageState = PageState(
    phraseIndex: PhraseIndex,
    yesScale: real,
    isTransitioning: bool,
    isFirstClick: bool,
    noText: string,          // the no button's textContent
    noMoving: bool,          // the no button has the class `moving`
    noCentered: bool,        // the no button's inline left and top are '50%'
    noTransform: Transform,
    yesGrowing: bool,        // the yes button has the class `growing`
    yesTransform: Transform,
    yesFontSize: FontSize,
    successVisible: bool,    // the success container has the class `visible`
    mainTransparent: bool,   // the main container's inline opacity is 0
    hideTimerPending: bool,  // the 500 ms timer of line 352 is set and has not fired
    mainHidden: bool,        // the main container has the class `hidden`
    yesHidden: bool)         // the yes button has the class `hidden`

  /** The page as loaded: the variables' initial values and the no button labelled "No". */
  const Initial := PageState(Index(0), 1.0, false, true, "No", false, false, Unset,
                             false, Unset, Inherited, false, false, false, false, false)

  /** `(phraseIndex + 1) % phrases.length` (line 376): the remainder of two non-negative
      integers, or NaN when the length is 0 or the index is already NaN. */
  function Advance(index: PhraseIndex, count: nat): (next: PhraseIndex)
    ensures next.Index? <==> index.Index? && count > 0
    ensures next.Index? ==> next.i < count
  {
    match index
    case NaN => NaN
    case Index(i) => if count == 0 then NaN else Index((i + 1) % count)
  }

  /** `noBtn.textContent = phrases[phraseIndex]` (line 377): an index outside the list,
      NaN included, reads `undefined`, which the nullable `textContent` turns into "". */
  function Shown(index: PhraseIndex, phrases: seq<string>): (text: string)
    ensures index.Index? && index.i < |phrases| ==> text == phrases[index.i]
    ensures !(index.Index? && index.i < |phrases|) ==> text == ""
  {
    if index.Index? && index.i < |phrases| then phrases[index.i] else ""
  }

  /** `yesScale` after `n` frames of `grow()` (line 344): multiplied by 1.5 each time. */
  function ScaleAfter(scale: real, n: nat): real {
    if n == 0 then scale else ScaleAfter(scale, n - 1) * 1.5
  }

  lemma {:induction false} ScaleAfterShift(scale: real, n: nat)
    ensures ScaleAfter(scale * 1.5, n) == ScaleAfter(scale, n + 1)
  {
    if n > 0 {
      ScaleAfterShift(scale, n - 1);
    }
  }

  /** The value `yesScale` has when `grow()` (lines 343-357) stops: it is multiplied by
      1.5 once per animation frame until it is at least 100. */
  function GrowScale(scale: real): (r: real)
    requires scale >= 1.0
    ensures r >= 100.0 && r >= scale * 1.5
    decreases 200.0 - 2.0 * scale
  {
    var next := scale * 1.5;
    if next < 100.0 then GrowScale(next) else next
  }

  /** How many frames `grow()` runs for. */
  function GrowSteps(scale: real): (n: nat)
    requires scale >= 1.0
    decreases 200.0 - 2.0 * scale
  {
    if scale * 1.5 < 100.0 then 1 + GrowSteps(scale * 1.5) else 1
  }

  /** The growth stops at the first frame whose scale reaches 100, after at least one
      frame. */
  lemma {:induction false} GrowScaleIsFirstCrossing(scale: real)
    requires scale >= 1.0
    ensures GrowSteps(scale) >= 1
    ensures GrowScale(scale) == ScaleAfter(scale, GrowSteps(scale))
    ensures forall m: nat :: 1 <= m < GrowSteps(scale) ==> ScaleAfter(scale, m) < 100.0
    decreases 200.0 - 2.0 * scale
  {
    var next := scale * 1.5;
    ScaleAfterShift(scale, 0);
    if next < 100.0 {
      GrowScaleIsFirstCrossing(next);
      var n := GrowSteps(next);
      ScaleAfterShift(scale, n);
      forall m: nat | 1 <= m < n + 1 ensures ScaleAfter(scale, m) < 100.0 {
        ScaleAfterShift(scale, m - 1);
      }
    }
  }

  /** The yes-click handler (lines 333-360) as a whole: ignored while a transition is
      under way; otherwise it starts one, grows the yes button to its final scale, shows
      the success scene, fades the main one out and sets the hide timer. */
  function OnYes(st: PageState): (next: PageState)
    requires st.yesScale >= 1.0
    ensures st.isTransitioning ==> next == st
    ensures next.isTransitioning && next.yesScale >= st.yesScale
    ensures !st.isTransitioning ==> next.yesScale >= 100.0 && next.hideTimerPending
    ensures next.phraseIndex == st.phraseIndex && next.noText == st.noText
    ensures next.isFirstClick == st.isFirstClick && next.noMoving == st.noMoving
    ensures next.noCentered == st.noCentered && next.noTransform == st.noTransform
  {
    if st.isTransitioning then st
    else ShowSuccess(GrowYes(StartTransition(st)))
  }

  /** Lines 336-341: the transition starts and the yes button gets its growing class. */
  function StartTransition(st: PageState): PageState {
    st.(isTransitioning := true, yesGrowing := true)
  }

  /** Lines 343-350: `grow()` runs until the scale reaches 100, leaving the yes button
      centred at that scale. */
  function GrowYes(st: PageState): PageState
    requires st.yesScale >= 1.0
  {
    var scale := GrowScale(st.yesScale);
    st.(yesScale := scale, yesTransform := CenteredScale(scale))
  }

  /** Lines 351-354: the success scene appears, the main one fades and the timer is set. */
  function ShowSuccess(st: PageState): PageState {
    st.(successVisible := true, mainTransparent := true, hideTimerPending := true)
  }

  /** The timer of lines 352-355: hides the main container and the yes button. */
  function OnHideTimer(st: PageState): (next: PageState)
    ensures !st.hideTimerPending ==> next == st
    ensures !next.hideTimerPending
    ensures next.isTransitioning == st.isTransitioning && next.yesScale == st.yesScale
    ensures next.phraseIndex == st.phraseIndex && next.noText == st.noText
    ensures next.isFirstClick == st.isFirstClick && next.noMoving == st.noMoving
    ensures next.noCentered == st.noCentered && next.noTransform == st.noTransform
  {
    if st.hideTimerPending then st.(hideTimerPending := false, mainHidden := true, yesHidden := true)
    else st
  }

  /** The no-click handler (lines 362-388). In random mode the first handled click puts
      the no button in absolute position, centred; every handled click advances the phrase
      and then either moves the no button by the offset `(dx, dy)` that getRandomPosition
      draws, or grows the yes button by 0.3. The script tests the mode's name, written
      into it by the generator, against 'random': that holds exactly in random mode. */
  function OnNo(st: PageState, phrases: seq<string>, mode: Animation, dx: real, dy: real): (next: PageState)
    ensures st.isTransitioning ==> next == st
    ensures next.isTransitioning == st.isTransitioning
    ensures !st.isTransitioning ==>
      next.phraseIndex == Advance(st.phraseIndex, |phrases|) && next.noText == Shown(next.phraseIndex, phrases)
    ensures next.yesScale == if st.isTransitioning || mode == Random then st.yesScale else st.yesScale + 0.3
    ensures mode == Random ==> next.yesTransform == st.yesTransform && next.yesFontSize == st.yesFontSize
    ensures mode == Grow ==> next.isFirstClick == st.isFirstClick && next.noMoving == st.noMoving
                             && next.noCentered == st.noCentered && next.noTransform == st.noTransform
    ensures !st.isFirstClick ==> !next.isFirstClick && next.noMoving == st.noMoving && next.noCentered == st.noCentered
  {
    if st.isTransitioning then st
    else MoveOrGrow(ShowNextPhrase(PlaceOnFirstClick(st, mode), phrases), mode, dx, dy)
  }

  /** Lines 367-374: on the first click in random mode the no button is taken out of the
      flow and centred, and the first-click flag is cleared. */
  function PlaceOnFirstClick(st: PageState, mode: Animation): PageState {
    if st.isFirstClick && mode == Random
    then st.(noMoving := true, noCentered := true, isFirstClick := false)
    else st
  }

  /** Lines 376-377: the index advances, then the button shows the phrase at it. */
  function ShowNextPhrase(st: PageState, phrases: seq<string>): PageState {
    var index := Advance(st.phraseIndex, |phrases|);
    st.(phraseIndex := index, noText := Shown(index, phrases))
  }

  /** Lines 379-387: random mode moves the no button by the drawn offset; grow mode adds
      0.3 to the yes button's scale and sets its font size from the new scale. */
  function MoveOrGrow(st: PageState, mode: Animation, dx: real, dy: real): PageState {
    if mode == Random then st.(noTransform := Offset(dx, dy))
    else
      var scale := st.yesScale + 0.3;
      st.(yesScale := scale, yesTransform := Scale(scale), yesFontSize := Rem(1.0 + scale * 0.2))
  }

  datatype Event = YesClick | NoClick(dx: real, dy: real) | HideTimer

  /** One event; `yesScale` never decreases. */
  function Step(st: PageState, phrases: seq<string>, mode: Animation, e: Event): (next: PageState)
    requires st.yesScale >= 1.0
    ensures next.yesScale >= st.yesScale
  {
    match e
    case YesClick => OnYes(st)
    case NoClick(dx, dy) => OnNo(st, phrases, mode, dx, dy)
    case HideTimer => OnHideTimer(st)
  }

  /** The events in order; `yesScale` never decreases along the way. */
  function Run(st: PageState, phrases: seq<string>, mode: Animation, events: seq<Event>): (last: PageState)
    requires st.yesScale >= 1.0
    ensures last.yesScale >= st.yesScale
    decreases |events|
  {
    if events == [] then st
    else Run(Step(st, phrases, mode, events[0]), phrases, mode, events[1..])
  }

  /** What holds of every page state the script can reach with the list `phrases` in
      mode `mode`. */
  ghost predicate Consistent(st: PageState, phrases: seq<string>, mode: Animation) {
    && st.yesScale >= 1.0
    && (match st.phraseIndex
        case Index(i) => i < |phrases| || i == 0
        case NaN => |phrases| == 0)
    && (st.successVisible <==> st.isTransitioning)
    && (st.mainTransparent <==> st.isTransitioning)
    && (st.hideTimerPending ==> st.isTransitioning)
    && (st.mainHidden <==> st.isTransitioning && !st.hideTimerPending)
    && (st.yesHidden <==> st.mainHidden)
    && (st.isTransitioning ==> st.yesScale >= 100.0)
    && (mode == Animation.Grow ==> st.isFirstClick && !st.noMoving && !st.noCentered && st.noTransform == Unset)
    && (mode == Animation.Random ==>
          (st.noMoving <==> !st.isFirstClick) && (st.noCentered <==> !st.isFirstClick)
          && (st.noTransform.Offset? <==> !st.isFirstClick) && (st.isTransitioning || st.yesScale == 1.0))
  }

  lemma InitialConsistent(phrases: seq<string>, mode: Animation)
    ensures Consistent(Initial, phrases, mode)
  {
  }

  lemma YesClickConsistent(st: PageState, phrases: seq<string>, mode: Animation)
    requires Consistent(st, phrases, mode)
    ensures Consistent(OnYes(st), phrases, mode)
  {
  }

  lemma NoClickConsistent(st: PageState, phrases: seq<string>, mode: Animation, dx: real, dy: real)
    requires Consistent(st, phrases, mode)
    ensures Consistent(OnNo(st, phrases, mode, dx, dy), phrases, mode)
  {
  }

  lemma HideTimerConsistent(st: PageState, phrases: seq<string>, mode: Animation)
    requires Consistent(st, phrases, mode)
    ensures Consistent(OnHideTimer(st), phrases, mode)
  {
  }

  /** Every event keeps the page consistent. */
  lemma StepConsistent(st: PageState, phrases: seq<string>, mode: Animation, e: Event)
    requires Consistent(st, phrases, mode)
    ensures Consistent(Step(st, phrases, mode, e), phrases, mode)
  {
    match e
    case YesClick =>
      YesClickConsistent(st, phrases, mode);
      assert Step(st, phrases, mode, e) == OnYes(st);
    case NoClick(dx, dy) =>
      NoClickConsistent(st, phrases, mode, dx, dy);
      assert Step(st, phrases, mode, e) == OnNo(st, phrases, mode, dx, dy);
    case HideTimer =>
      HideTimerConsistent(st, phrases, mode);
      assert Step(st, phrases, mode, e) == OnHideTimer(st);
  }

  /** Every run from the loaded page stays consistent. */
  lemma {:induction false} RunConsistent(st: PageState, phrases: seq<string>, mode: Animation, events: seq<Event>)
    requires Consistent(st, phrases, mode)
    ensures Consistent(Run(st, phrases, mode, events), phrases, mode)
    decreases |events|
  {
    if events != [] {
      StepConsistent(st, phrases, mode, events[0]);
      RunConsistent(Step(st, phrases, mode, events[0]), phrases, mode, events[1..]);
    }
  }

  /** A handled yes click ends with the yes button grown to the first scale of at least
      100, the success scene shown, the main scene transparent and the hide timer set;
      the timer then hides the main scene and the yes button. The phrase state is left
      as it was. */
  lemma YesClickOutcome(st: PageState)
    requires st.yesScale >= 1.0 && !st.isTransitioning
    ensures OnYes(st).isTransitioning && OnYes(st).yesGrowing
    ensures OnYes(st).yesScale == GrowScale(st.yesScale) >= 100.0
    ensures OnYes(st).yesTransform == CenteredScale(OnYes(st).yesScale)
    ensures OnYes(st).successVisible && OnYes(st).mainTransparent && OnYes(st).hideTimerPending
    ensures OnYes(st).phraseIndex == st.phraseIndex && OnYes(st).noText == st.noText
    ensures OnHideTimer(OnYes(st)).mainHidden && OnHideTimer(OnYes(st)).yesHidden
    ensures OnHideTimer(OnYes(st)).successVisible
  {
  }

  lemma TransitionStep(st: PageState, phrases: seq<string>, mode: Animation, e: Event)
    requires st.yesScale >= 1.0 && st.isTransitioning
    ensures Step(st, phrases, mode, e) == if e == HideTimer then OnHideTimer(st) else st
  {
    match e
    case YesClick =>
      assert Step(st, phrases, mode, e) == OnYes(st);
    case NoClick(dx, dy) =>
      assert Step(st, phrases, mode, e) == OnNo(st, phrases, mode, dx, dy);
    case HideTimer =>
      assert Step(st, phrases, mode, e) == OnHideTimer(st);
  }

  /** Once a transition has started, no click changes anything: the only change left is
      the one firing of the hide timer. */
  lemma {:induction false} TransitionIsFinal(st: PageState, phrases: seq<string>, mode: Animation, events: seq<Event>)
    requires st.yesScale >= 1.0 && st.isTransitioning
    ensures Run(st, phrases, mode, events) == if HideTimer in events then OnHideTimer(st) else st
    decreases |events|
  {
    if events != [] {
      var next := Step(st, phrases, mode, events[0]);
      TransitionStep(st, phrases, mode, events[0]);
      TransitionIsFinal(next, phrases, mode, events[1..]);
      assert events == [events[0]] + events[1..];
    }
  }

  /** A non-zero multiple of `n` is at least `n`; used below to rule out two remainders. */
  lemma MulAtLeast(d: int, n: int)
    requires d >= 1 && n > 0
    ensures d * n >= n
  {
  }

  /** The remainder is the only one in range. */
  lemma ModUnique(a: int, n: int, q: int, r: int)
    requires n > 0 && a == q * n + r && 0 <= r < n
    ensures a % n == r
  {
    var q', r' := a / n, a % n;
    assert (q - q') * n == r' - r;
    if q - q' >= 1 {
      MulAtLeast(q - q', n);
    } else if q' - q >= 1 {
      MulAtLeast(q' - q, n);
    }
  }

  /** Taking the remainder after one step and again after `k` more is taking it once. */
  lemma ModSucc(i: nat, k: nat, n: nat)
    requires n > 0
    ensures ((i + 1) % n + k) % n == (i + 1 + k) % n
  {
    var a := i + 1;
    var q, q2 := a / n, (a % n + k) / n;
    var r := (a % n + k) % n;
    assert a == q * n + a % n;
    assert a % n + k == q2 * n + r;
    assert q * n + q2 * n == (q + q2) * n;
    ModUnique(a + k, n, q + q2, r);
  }

  lemma NoClickAdvances(st: PageState, phrases: seq<string>, mode: Animation, e: Event, i: nat)
    requires st.yesScale >= 1.0 && !st.isTransitioning && e.NoClick?
    requires |phrases| > 0 && st.phraseIndex == Index(i)
    ensures Step(st, phrases, mode, e).phraseIndex == Index((i + 1) % |phrases|)
    ensures Step(st, phrases, mode, e).noText == phrases[(i + 1) % |phrases|]
    ensures !Step(st, phrases, mode, e).isTransitioning
  {
    assert Step(st, phrases, mode, e) == OnNo(st, phrases, mode, e.dx, e.dy);
  }

  /** Handled no clicks walk the phrase list cyclically: after `k` of them the index has
      moved `k` places modulo the length, and the button shows the phrase there. */
  lemma {:induction false} NoClicksCycle(st: PageState, phrases: seq<string>, mode: Animation,
                                         events: seq<Event>, i: nat)
    requires st.yesScale >= 1.0 && !st.isTransitioning
    requires i < |phrases| && st.phraseIndex == Index(i)
    requires forall k :: 0 <= k < |events| ==> events[k].NoClick?
    ensures Run(st, phrases, mode, events).phraseIndex == Index((i + |events|) % |phrases|)
    ensures |events| > 0 ==> Run(st, phrases, mode, events).noText == phrases[(i + |events|) % |phrases|]
    ensures !Run(st, phrases, mode, events).isTransitioning
    decreases |events|
  {
    var n := |phrases|;
    if events == [] {
      ModUnique(i, n, 0, i);
    } else {
      var next := Step(st, phrases, mode, events[0]);
      var rest := events[1..];
      var j := (i + 1) % n;
      NoClickAdvances(st, phrases, mode, events[0], i);
      assert forall k :: 0 <= k < |rest| ==> rest[k] == events[k + 1];
      NoClicksCycle(next, phrases, mode, rest, j);
      ModSucc(i, |rest|, n);
      assert i + 1 + |rest| == i + |events|;
      assert (j + |rest|) % n == (i + |events|) % n;
      assert Run(st, phrases, mode, events) == Run(next, phrases, mode, rest);
    }
  }

  /** With the phrases A, B and C, successive no clicks show B, C, A, B. */
  lemma ExampleCycle(mode: Animation, events: seq<Event>)
    requires |events| == 4 && forall k :: 0 <= k < 4 ==> events[k].NoClick?
    ensures Run(Initial, ["A", "B", "C"], mode, events[..1]).noText == "B"
    ensures Run(Initial, ["A", "B", "C"], mode, events[..2]).noText == "C"
    ensures Run(Initial, ["A", "B", "C"], mode, events[..3]).noText == "A"
    ensures Run(Initial, ["A", "B", "C"], mode, events).noText == "B"
  {
    var abc := ["A", "B", "C"];
    NoClicksCycle(Initial, abc, mode, events[..1], 0);
    NoClicksCycle(Initial, abc, mode, events[..2], 0);
    NoClicksCycle(Initial, abc, mode, events[..3], 0);
    NoClicksCycle(Initial, abc, mode, events, 0);
  }

  lemma EmptyListStep(st: PageState, mode: Animation, e: Event)
    requires st.yesScale >= 1.0 && st.phraseIndex == NaN && st.noText == ""
    ensures Step(st, [], mode, e).phraseIndex == NaN && Step(st, [], mode, e).noText == ""
  {
    match e
    case YesClick =>
      assert Step(st, [], mode, e) == OnYes(st);
    case NoClick(dx, dy) =>
      assert Step(st, [], mode, e) == OnNo(st, [], mode, dx, dy);
    case HideTimer =>
      assert Step(st, [], mode, e) == OnHideTimer(st);
  }

  /** With an empty phrase list the first handled no click makes the index NaN and
      blanks the button, and it stays so. */
  lemma {:induction false} EmptyListBlanks(st: PageState, mode: Animation, events: seq<Event>)
    requires st.yesScale >= 1.0 && st.phraseIndex == NaN && st.noText == ""
    ensures Run(st, [], mode, events).phraseIndex == NaN && Run(st, [], mode, events).noText == ""
    decreases |events|
  {
    if events != [] {
      EmptyListStep(st, mode, events[0]);
      EmptyListBlanks(Step(st, [], mode, events[0]), mode, events[1..]);
    }
  }

  lemma EmptyListFirstClick(st: PageState, mode: Animation, dx: real, dy: real)
    requires !st.isTransitioning
    ensures OnNo(st, [], mode, dx, dy).phraseIndex == NaN && OnNo(st, [], mode, dx, dy).noText == ""
  {
  }

  /** In grow mode every handled no click adds exactly 0.3 to the yes button's scale and
      sets its font size to 1 + 0.2 times the scale, in rem; the no button's position is
      never touched. */
  lemma {:induction false} GrowModeNoClicks(st: PageState, phrases: seq<string>, events: seq<Event>)
    requires st.yesScale >= 1.0 && !st.isTransitioning
    requires forall k :: 0 <= k < |events| ==> events[k].NoClick?
    ensures Run(st, phrases, Animation.Grow, events).yesScale == st.yesScale + 0.3 * |events| as real
    ensures |events| > 0 ==>
      Run(st, phrases, Animation.Grow, events).yesTransform == Scale(Run(st, phrases, Animation.Grow, events).yesScale)
      && Run(st, phrases, Animation.Grow, events).yesFontSize == Rem(1.0 + Run(st, phrases, Animation.Grow, events).yesScale * 0.2)
    decreases |events|
  {
    if events != [] {
      var next := Step(st, phrases, Animation.Grow, events[0]);
      assert next == OnNo(st, phrases, Animation.Grow, events[0].dx, events[0].dy);
      GrowModeNoClicks(next, phrases, events[1..]);
    }
  }

  lemma GrowModeStep(st: PageState, phrases: seq<string>, e: Event)
    requires st.yesScale >= 1.0
    ensures Step(st, phrases, Animation.Grow, e).isFirstClick == st.isFirstClick
    ensures Step(st, phrases, Animation.Grow, e).noMoving == st.noMoving
    ensures Step(st, phrases, Animation.Grow, e).noCentered == st.noCentered
    ensures Step(st, phrases, Animation.Grow, e).noTransform == st.noTransform
  {
    match e
    case YesClick =>
      assert Step(st, phrases, Animation.Grow, e) == OnYes(st);
    case NoClick(dx, dy) =>
      assert Step(st, phrases, Animation.Grow, e) == OnNo(st, phrases, Animation.Grow, dx, dy);
    case HideTimer =>
      assert Step(st, phrases, Animation.Grow, e) == OnHideTimer(st);
  }

  /** In grow mode nothing ever moves the no button, and the first-click flag stays set. */
  lemma {:induction false} GrowModeNeverPlaces(st: PageState, phrases: seq<string>, events: seq<Event>)
    requires st.yesScale >= 1.0
    ensures Run(st, phrases, Animation.Grow, events).isFirstClick == st.isFirstClick
    ensures Run(st, phrases, Animation.Grow, events).noMoving == st.noMoving
    ensures Run(st, phrases, Animation.Grow, events).noCentered == st.noCentered
    ensures Run(st, phrases, Animation.Grow, events).noTransform == st.noTransform
    decreases |events|
  {
    if events != [] {
      GrowModeStep(st, phrases, events[0]);
      GrowModeNeverPlaces(Step(st, phrases, Animation.Grow, events[0]), phrases, events[1..]);
    }
  }

  /** In random mode a handled no click leaves the no button absolutely positioned,
      centred and offset, with the first-click flag cleared; the yes button's scale is
      untouched. */
  lemma RandomModeNoClick(st: PageState, phrases: seq<string>, dx: real, dy: real)
    requires Consistent(st, phrases, Random) && !st.isTransitioning
    ensures !OnNo(st, phrases, Random, dx, dy).isFirstClick
    ensures OnNo(st, phrases, Random, dx, dy).noMoving && OnNo(st, phrases, Random, dx, dy).noCentered
    ensures OnNo(st, phrases, Random, dx, dy).noTransform == Offset(dx, dy)
    ensures OnNo(st, phrases, Random, dx, dy).yesScale == st.yesScale
    ensures OnNo(st, phrases, Random, dx, dy).yesTransform == st.yesTransform
    ensures OnNo(st, phrases, Random, dx, dy).yesFontSize == st.yesFontSize
  {
  }

  lemma RandomModeStep(st: PageState, phrases: seq<string>, e: Event)
    requires st.yesScale >= 1.0 && !st.isFirstClick
    ensures !Step(st, phrases, Random, e).isFirstClick
    ensures Step(st, phrases, Random, e).noMoving == st.noMoving
    ensures Step(st, phrases, Random, e).noCentered == st.noCentered
  {
    match e
    case YesClick =>
      assert Step(st, phrases, Random, e) == OnYes(st);
    case NoClick(dx, dy) =>
      assert Step(st, phrases, Random, e) == OnNo(st, phrases, Random, dx, dy);
    case HideTimer =>
      assert Step(st, phrases, Random, e) == OnHideTimer(st);
  }

  /** In random mode the switch to absolute positioning happens once: after the first
      handled no click nothing sets the flag again or changes the positioning classes. */
  lemma {:induction false} RandomModePlacesOnce(st: PageState, phrases: seq<string>, events: seq<Event>)
    requires st.yesScale >= 1.0 && !st.isFirstClick
    ensures !Run(st, phrases, Random, events).isFirstClick
    ensures Run(st, phrases, Random, events).noMoving == st.noMoving
    ensures Run(st, phrases, Random, events).noCentered == st.noCentered
    decreases |events|
  {
    if events != [] {
      RandomModeStep(st, phrases, events[0]);
      RandomModePlacesOnce(Step(st, phrases, Random, events[0]), phrases, events[1..]);
    }
  }

  /** The page as the script sees it: the phrase list and the mode, fixed when the page
      was generated, and the variables and element state the handlers change. */
  class Page {
    const phrases: seq<string>
    const mode: Animation
    var phraseIndex: PhraseIndex
    var yesScale: real
    var isTransitioning: bool
    var isFirstClick: bool
    var noText: string
    var noMoving: bool
    var noCentered: bool
    var noTransform: Transform
    var yesGrowing: bool
    var yesTransform: Transform
    var yesFontSize: FontSize
    var successVisible: bool
    var mainTransparent: bool
    var hideTimerPending: bool
    var mainHidden: bool
    var yesHidden: bool

    function State(): PageState
      reads this
    {
      PageState(phraseIndex, yesScale, isTransitioning, isFirstClick, noText, noMoving, noCentered,
                noTransform, yesGrowing, yesTransform, yesFontSize, successVisible, mainTransparent,
                hideTimerPending, mainHidden, yesHidden)
    }

    ghost predicate Valid()
      reads this
    {
      Consistent(State(), phrases, mode)
    }

    /** The page generated from `form`, as loaded. Its phrase list is the parsed one,
        taking the JSON encoding and decoding between generator and page as lossless. */
    constructor(form: FormData)
      ensures phrases == ParsePhrases(form.noButtonPhrases) && mode == form.buttonAnimation
      ensures State() == Initial && Valid()
    {
      phrases := ParsePhrases(form.noButtonPhrases);
      mode := form.buttonAnimation;
      phraseIndex, yesScale, isTransitioning, isFirstClick := Index(0), 1.0, false, true;
      noText, noMoving, noCentered, noTransform := "No", false, false, Unset;
      yesGrowing, yesTransform, yesFontSize := false, Unset, Inherited;
      successVisible, mainTransparent, hideTimerPending, mainHidden, yesHidden := false, false, false, false, false;
    }

    /** The yes-click handler (lines 333-360), its animation frames run as a loop. */
    method YesClick()
      requires Valid()
      modifies this
      ensures State() == OnYes(old(State()))
      ensures Valid()
    {
      ghost var before := State();
      if isTransitioning {
        return;
      }
      BeginTransition();
      GrowFrames();
      ShowSuccessScene();
      YesClickConsistent(before, phrases, mode);
    }

    method BeginTransition()
      modifies this`isTransitioning, this`yesGrowing
      ensures State() == StartTransition(old(State()))
    {
      isTransitioning := true;
      yesGrowing := true;
    }

    method ShowSuccessScene()
      modifies this`successVisible, this`mainTransparent, this`hideTimerPending
      ensures State() == ShowSuccess(old(State()))
    {
      successVisible := true;
      mainTransparent := true;
      hideTimerPending := true;
    }

    /** The animation frames of the yes click (lines 343-350): each multiplies the scale
        by 1.5, and they stop at the first scale of at least 100. */
    method GrowFrames()
      requires yesScale >= 1.0
      modifies this`yesScale, this`yesTransform
      ensures yesScale == GrowScale(old(yesScale)) && yesTransform == CenteredScale(yesScale)
      ensures State() == GrowYes(old(State()))
    {
      ghost var start := yesScale;
      yesScale := yesScale * 1.5;
      yesTransform := CenteredScale(yesScale);
      while yesScale < 100.0
        invariant yesScale >= 1.0 && yesTransform == CenteredScale(yesScale)
        invariant yesScale < 100.0 ==> GrowScale(yesScale) == GrowScale(start)
        invariant yesScale >= 100.0 ==> yesScale == GrowScale(start)
        decreases 200.0 - 2.0 * yesScale
      {
        yesScale := yesScale * 1.5;
        yesTransform := CenteredScale(yesScale);
      }
    }

    /** The no-click handler (lines 362-388); `(dx, dy)` is the offset getRandomPosition
        draws. */
    method NoClick(dx: real, dy: real)
      requires Valid()
      modifies this
      ensures State() == OnNo(old(State()), phrases, mode, dx, dy)
      ensures Valid()
    {
      ghost var before := State();
      if isTransitioning {
        return;
      }
      PlaceNoButton();
      AdvancePhrase();
      MoveNoOrGrowYes(dx, dy);
      NoClickConsistent(before, phrases, mode, dx, dy);
    }

    method PlaceNoButton()
      modifies this`noMoving, this`noCentered, this`isFirstClick
      ensures State() == PlaceOnFirstClick(old(State()), mode)
    {
      if isFirstClick && mode == Random {
        noMoving := true;
        noCentered := true;
        isFirstClick := false;
      }
    }

    method AdvancePhrase()
      modifies this`phraseIndex, this`noText
      ensures State() == ShowNextPhrase(old(State()), phrases)
    {
      phraseIndex := Advance(phraseIndex, |phrases|);
      noText := Shown(phraseIndex, phrases);
    }

    method MoveNoOrGrowYes(dx: real, dy: real)
      modifies this`noTransform, this`yesScale, this`yesTransform, this`yesFontSize
      ensures State() == MoveOrGrow(old(State()), mode, dx, dy)
    {
      if mode == Random {
        noTransform := Offset(dx, dy);
      } else {
        var scale := yesScale + 0.3;
        yesScale := scale;
        yesTransform := Scale(scale);
        yesFontSize := Rem(1.0 + scale * 0.2);
      }
    }

    /** The timer the yes click sets (lines 352-355). */
    method HideTimerFires()
      requires Valid()
      modifies this
      ensures State() == OnHideTimer(old(State()))
      ensures Valid()
    {
      ghost var before := State();
      if hideTimerPending {
        hideTimerPending := false;
        mainHidden := true;
        yesHidden := true;
      }
      HideTimerConsistent(before, phrases, mode);
    }
  }
}
