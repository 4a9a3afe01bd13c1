/** The clicker's page state as a value, and what each user action does to
    it. The class in module Page changes its fields step by step; its methods
    are proved to move its state exactly as AdvanceSpec and ResetSpec say. */
module Progress {
  import opened Timeline
  import opened Assets

  /** Everything an advance or a reset reads or writes: the four counters,
      the adopted background, the canvas size and the two decoration images. */
  datatype State = State(
    count: int,
    milestoneIndex: int,
    poundCount: int,
    backgroundIndex: int,
    currentBackground: Option<Image>,
    canvasWidth: nat,
    canvasHeight: nat,
    banknoteImage: Option<Image>,
    overlayImage: Option<Image>)

  /** Image paths tried, in this order, for the banknote and the overlay. */
  const BANKNOTE_PATHS: seq<string> := [
    "assets/banknote.webp",
    "assets/FCWyaWyyWQjEUAmJYOD1U7vnPqg41Ra7iTG5H6s0afAkh5sjrzqQObWO0OXwQjwY3SvRFhG8Y4E6vkvuyHHVeA.webp"]
  const OVERLAY_PATHS: seq<string> := [
    "assets/overlay.png",
    "assets/KakaoTalk_20260118_234359052.png"]

  /** An image of one of the timeline's years. */
  ghost predicate IsTimelineImage(img: Image) {
    exists y: nat :: START_YEAR <= y <= END_YEAR && img.src == BackgroundUrl(y)
  }

  /** The invariant every reachable state keeps. */
  ghost predicate Inv(s: State) {
    && 0 <= s.count <= TOTAL_STEPS
    && s.milestoneIndex == s.count
    && s.backgroundIndex == BackgroundFor(s.count)
    && s.poundCount == PoundsAfter(s.count)
    && (s.currentBackground.Some? ==>
          && s.canvasWidth == s.currentBackground.value.width
          && s.canvasHeight == s.currentBackground.value.height
          && IsTimelineImage(s.currentBackground.value))
  }

  /** The state at start-up: counters at zero, the first year's background if
      it loads (the canvas then takes its size; otherwise it keeps the page's
      default size), and the first banknote and overlay images that load. */
  function Start(defaultWidth: nat, defaultHeight: nat, load: string -> Option<Dims>): State {
    var url := BackgroundUrl(START_YEAR);
    var first := load(url);
    State(0, 0, 0, 0,
          if first.Some? then Some(Loaded(url, first.value)) else None,
          if first.Some? then first.value.width else defaultWidth,
          if first.Some? then first.value.height else defaultHeight,
          FirstLoaded(BANKNOTE_PATHS, load),
          FirstLoaded(OVERLAY_PATHS, load))
  }

  /** One advance, with `load` the outcome of loading the background it asks
      for. At the ceiling nothing changes. Otherwise the count moves up by one
      and the background index follows it; from the second advance on the new
      year's image is requested and adopted (with its size) if it loads; the
      banknote count rises by one, or clears when the new year is a reset year. */
  function AdvanceSpec(s: State, load: Option<Dims>): State {
    if s.count >= TOTAL_STEPS then s
    else
      var c := s.count + 1;
      var adopt := c >= 2 && load.Some?;
      s.(count := c,
         milestoneIndex := c,
         poundCount := if ResetsAt(c) then 0 else s.poundCount + 1,
         backgroundIndex := BackgroundFor(c),
         currentBackground :=
           if adopt then Some(Loaded(BackgroundUrl(START_YEAR + (c - 1)), load.value)) else s.currentBackground,
         canvasWidth := if adopt then load.value.width else s.canvasWidth,
         canvasHeight := if adopt then load.value.height else s.canvasHeight)
  }

  /** A reset zeroes the four counters and nothing else. */
  function ResetSpec(s: State): State {
    s.(count := 0, milestoneIndex := 0, poundCount := 0, backgroundIndex := 0)
  }

  /** A user action: a tap (or Space) together with the outcome of the image
      load it may start, or the reset button. */
  datatype Event = Tap(load: Option<Dims>) | ResetPressed

  function Step(s: State, e: Event): State {
    match e
    case Tap(load) => AdvanceSpec(s, load)
    case ResetPressed => ResetSpec(s)
  }

  /** The state after handling `events` one after the other. */
  function Run(s: State, events: seq<Event>): State
    decreases |events|
  {
    if events == [] then s else Run(Step(s, events[0]), events[1..])
  }

  /** A run of taps, one per load outcome. */
  function Taps(loads: seq<Option<Dims>>): seq<Event> {
    seq(|loads|, i requires 0 <= i < |loads| => Tap(loads[i]))
  }

  // ---------------------------------------------------------------------------
  // Properties of the specification

  lemma StartKeepsInv(defaultWidth: nat, defaultHeight: nat, load: string -> Option<Dims>)
    ensures Inv(Start(defaultWidth, defaultHeight, load))
  {
    var s := Start(defaultWidth, defaultHeight, load);
    if s.currentBackground.Some? {
      assert s.currentBackground.value.src == BackgroundUrl(START_YEAR);
    }
  }

  lemma AdvanceKeepsInv(s: State, load: Option<Dims>)
    requires Inv(s)
    ensures Inv(AdvanceSpec(s, load))
  {
    var t := AdvanceSpec(s, load);
    if s.count < TOTAL_STEPS && s.count >= 1 && load.Some? {
      assert t.currentBackground.value.src == BackgroundUrl(START_YEAR + s.count);
    }
  }

  lemma ResetKeepsInv(s: State)
    requires Inv(s)
    ensures Inv(ResetSpec(s))
  {
  }

  /** Every state reached from an invariant state by any sequence of taps and
      resets satisfies the invariant. */
  lemma {:induction false} RunKeepsInv(s: State, events: seq<Event>)
    requires Inv(s)
    ensures Inv(Run(s, events))
    decreases |events|
  {
    if events != [] {
      match events[0] {
        case Tap(load) => AdvanceKeepsInv(s, load);
        case ResetPressed => ResetKeepsInv(s);
      }
      RunKeepsInv(Step(s, events[0]), events[1..]);
    }
  }

  /** What the invariant gives: the count stays within [0, TOTAL_STEPS], the
      milestone pointer never runs ahead of the count, the background index
      is a valid year index and the banknote count never exceeds the count. */
  lemma InvBounds(s: State)
    requires Inv(s)
    ensures 0 <= s.count <= TOTAL_STEPS
    ensures 0 <= s.milestoneIndex <= s.count
    ensures 0 <= s.backgroundIndex < TOTAL_STEPS
    ensures START_YEAR <= START_YEAR + s.backgroundIndex <= END_YEAR
    ensures s.count >= 1 ==> s.backgroundIndex == s.count - 1
    ensures 0 <= s.poundCount <= s.count
    ensures s.poundCount <= 11
  {
    PoundsAtMostCount(s.count);
    PoundsAtMostEleven(s.count);
  }

  /** An advance below the ceiling raises the count by exactly one; at the
      ceiling it changes nothing. It never touches the two decoration images. */
  lemma AdvanceMovesCountByOne(s: State, load: Option<Dims>)
    requires Inv(s)
    ensures var t := AdvanceSpec(s, load);
      && (s.count < TOTAL_STEPS ==> t.count == s.count + 1 && t.milestoneIndex == t.count)
      && (s.count >= TOTAL_STEPS ==> t == s)
      && t.banknoteImage == s.banknoteImage && t.overlayImage == s.overlayImage
  {
  }

  /** The background changes only when its image loads, and then it is the
      image of the year now shown and the canvas takes that image's size. */
  lemma AdvanceAdoptsOnlyLoadedImage(s: State, load: Option<Dims>)
    requires Inv(s)
    ensures var t := AdvanceSpec(s, load);
      && (load.None? ==> t.currentBackground == s.currentBackground
                         && t.canvasWidth == s.canvasWidth && t.canvasHeight == s.canvasHeight)
      && (t.currentBackground != s.currentBackground ==>
            && load.Some?
            && t.currentBackground == Some(Loaded(BackgroundUrl(START_YEAR + t.backgroundIndex), load.value))
            && t.canvasWidth == load.value.width && t.canvasHeight == load.value.height)
  {
  }

  /** The banknote count rises by one per effective advance, and is 0 right
      after an advance that moves the background onto a reset year. */
  lemma AdvancePoundCount(s: State, load: Option<Dims>)
    requires Inv(s) && s.count < TOTAL_STEPS
    ensures var t := AdvanceSpec(s, load);
      && ((t.backgroundIndex != s.backgroundIndex && START_YEAR + t.backgroundIndex in RESET_YEARS)
          ==> t.poundCount == 0)
      && (!(START_YEAR + t.backgroundIndex in RESET_YEARS) ==> t.poundCount == s.poundCount + 1)
  {
  }

  /** The first advance from a zero count keeps background index 0, skips the
      reset-year check (though 1841 is a reset year), so the banknote count
      becomes 1, and loads no new background. */
  lemma FirstAdvance(s: State, load: Option<Dims>)
    requires Inv(s) && s.count == 0
    ensures var t := AdvanceSpec(s, load);
      && t.count == 1 && t.backgroundIndex == 0 && t.poundCount == 1
      && START_YEAR + t.backgroundIndex in RESET_YEARS
      && t.currentBackground == s.currentBackground
      && t.canvasWidth == s.canvasWidth && t.canvasHeight == s.canvasHeight
  {
  }

  /** Reset zeroes the counters, leaves the adopted background, the canvas and
      the decoration images as they were, and doing it twice is doing it once. */
  lemma ResetIdempotent(s: State)
    ensures var r := ResetSpec(s);
      && r.count == 0 && r.milestoneIndex == 0 && r.poundCount == 0 && r.backgroundIndex == 0
      && r.currentBackground == s.currentBackground
      && r.canvasWidth == s.canvasWidth && r.canvasHeight == s.canvasHeight
      && r.banknoteImage == s.banknoteImage && r.overlayImage == s.overlayImage
      && ResetSpec(r) == r
  {
  }

  /** A reset followed by a tap shows year 1841 again but keeps whatever
      background was adopted before the reset: the reset does not reload it,
      and the tap asks for no new image. So after a full run whose last load
      succeeded, the 1911 image stays on screen under the 1841 label. */
  lemma ResetKeepsStaleBackground(s: State, tap: Option<Dims>)
    requires Inv(s)
    ensures var u := Run(s, [ResetPressed, Tap(tap)]);
      && u.count == 1 && u.backgroundIndex == 0 && u.poundCount == 1
      && u.currentBackground == s.currentBackground
      && u.canvasWidth == s.canvasWidth && u.canvasHeight == s.canvasHeight
      && (s.currentBackground.Some? && s.currentBackground.value.src == BackgroundUrl(END_YEAR) ==>
            u.currentBackground.value.src != BackgroundUrl(START_YEAR + u.backgroundIndex))
  {
    var r := ResetSpec(s);
    assert [ResetPressed, Tap(tap)][1..] == [Tap(tap)];
    assert Run(s, [ResetPressed, Tap(tap)]) == Run(r, [Tap(tap)]);
    assert [Tap(tap)][1..] == [];
    ResetKeepsInv(s);
    FirstAdvance(r, tap);
    if BackgroundUrl(END_YEAR) == BackgroundUrl(START_YEAR) {
      BackgroundUrlInjective(END_YEAR, START_YEAR);
    }
  }

  /** After n taps from an invariant state the count is min(count + n,
      TOTAL_STEPS), whatever the image loads do; further taps change nothing. */
  lemma {:induction false} TapsCount(s: State, loads: seq<Option<Dims>>)
    requires Inv(s)
    ensures var t := Run(s, Taps(loads));
      && t.count == (if s.count + |loads| <= TOTAL_STEPS then s.count + |loads| else TOTAL_STEPS)
      && Inv(t)
    decreases |loads|
  {
    if loads != [] {
      AdvanceKeepsInv(s, loads[0]);
      assert Taps(loads)[1..] == Taps(loads[1..]);
      TapsCount(AdvanceSpec(s, loads[0]), loads[1..]);
    }
  }

  /** From start-up or a reset, n taps leave the count at min(n, TOTAL_STEPS),
      the background index at the matching year and the banknote count at
      PoundsAfter of the count; a full run ends on 1911 with no banknotes. */
  lemma TapsFromZero(s: State, loads: seq<Option<Dims>>)
    requires Inv(s) && s.count == 0
    ensures var t := Run(s, Taps(loads));
      var n := if |loads| <= TOTAL_STEPS then |loads| else TOTAL_STEPS;
      && t.count == n && t.milestoneIndex == n
      && t.backgroundIndex == BackgroundFor(n)
      && t.poundCount == PoundsAfter(n)
      && (|loads| >= TOTAL_STEPS ==> t.backgroundIndex == END_YEAR - START_YEAR && t.poundCount == 0)
  {
    TapsCount(s, loads);
  }
}
