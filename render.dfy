/** The parts of drawing that compute something: how many banknotes the frame
    shows and where, and which message the status line shows. The drawing
    calls themselves are not modelled. */
module Render {
  import opened Timeline
  import opened Assets
  import opened Progress

  const MAX_BANKNOTES: int := 10
  const BANKNOTE_PADDING: int := 10
  /** Horizontal and vertical offset between successive notes of the stack. */
  const NOTE_STEP_X: int := 8
  const NOTE_STEP_Y: int := 5

  const COMPLETE_MESSAGE: string := "Complete! Reset to play again."
  const PROMPT_MESSAGE: string := "Tap or press Space."

  /** A drawing rectangle: top-left corner and size. */
  datatype Rect = Rect(x: int, y: int, width: int, height: int)

  /** max(1, floor(n * 0.1)): an image side scaled to a tenth, at least 1. */
  function ScaledSize(n: nat): (r: nat)
    ensures 1 <= r
    ensures r * 10 <= n || r == 1
    ensures n < r * 10 + 10
  {
    if n / 10 < 1 then 1 else n / 10
  }

  /** How many notes drawBanknotes draws. */
  function NotesToDraw(banknote: Option<Image>, poundCount: int): (n: nat)
    ensures n <= MAX_BANKNOTES
    ensures n == 0 <==> banknote.None? || poundCount <= 0
    ensures banknote.Some? && poundCount > 0 ==> n <= poundCount
    ensures banknote.Some? && 0 < poundCount <= MAX_BANKNOTES ==> n == poundCount
    ensures banknote.Some? && poundCount >= MAX_BANKNOTES ==> n == MAX_BANKNOTES
  {
    if banknote.None? || poundCount <= 0 then 0
    else if poundCount < MAX_BANKNOTES then poundCount
    else MAX_BANKNOTES
  }

  /** The rectangles drawBanknotes draws, in drawing order: note i hangs from
      its anchor (canvasWidth - padding - 8i, padding + 5i), which is its
      top-right corner, and has the scaled banknote size. */
  method BanknoteRects(banknote: Option<Image>, poundCount: int, canvasWidth: int) returns (rects: seq<Rect>)
    ensures |rects| == NotesToDraw(banknote, poundCount)
    ensures forall i :: 0 <= i < |rects| ==>
      && rects[i].x + rects[i].width == canvasWidth - BANKNOTE_PADDING - NOTE_STEP_X * i
      && rects[i].y == BANKNOTE_PADDING + NOTE_STEP_Y * i
      && rects[i].width == ScaledSize(banknote.value.width)
      && rects[i].height == ScaledSize(banknote.value.height)
  {
    rects := [];
    if banknote.None? || poundCount <= 0 {
      return;
    }
    var width := ScaledSize(banknote.value.width);
    var height := ScaledSize(banknote.value.height);
    var notesToDraw := if poundCount < MAX_BANKNOTES then poundCount else MAX_BANKNOTES;
    var index := 0;
    while index < notesToDraw
      invariant 0 <= index <= notesToDraw
      invariant |rects| == index
      invariant forall i :: 0 <= i < index ==>
        && rects[i].x + rects[i].width == canvasWidth - BANKNOTE_PADDING - NOTE_STEP_X * i
        && rects[i].y == BANKNOTE_PADDING + NOTE_STEP_Y * i
        && rects[i].width == width && rects[i].height == height
    {
      var x := canvasWidth - BANKNOTE_PADDING - index * NOTE_STEP_X;
      var y := BANKNOTE_PADDING + index * NOTE_STEP_Y;
      rects := rects + [Rect(x - width, y, width, height)];
      index := index + 1;
    }
  }

  /** In every reachable state with a loaded banknote image the stack shows
      one note per banknote counted, except that it stops at MAX_BANKNOTES,
      which the count does exceed: 22 advances from the start leave 11
      banknotes and 10 notes drawn. Without the image no note is drawn. */
  lemma NotesShownInReachableStates(s: State)
    requires Inv(s)
    ensures s.banknoteImage.None? ==> NotesToDraw(s.banknoteImage, s.poundCount) == 0
    ensures s.banknoteImage.Some? ==>
              NotesToDraw(s.banknoteImage, s.poundCount) ==
              (if s.poundCount < MAX_BANKNOTES then s.poundCount else MAX_BANKNOTES)
    ensures s.count == 22 ==> s.poundCount == 11
    ensures s.count == 22 && s.banknoteImage.Some? ==> NotesToDraw(s.banknoteImage, s.poundCount) == MAX_BANKNOTES
  {
    InvBounds(s);
    PoundsAtMostEleven(s.count);
  }

  /** The status message: the completion text once the count reaches the
      total, the prompt before. */
  function StatusMessage(count: int): (m: string)
    ensures m == COMPLETE_MESSAGE <==> count >= TOTAL_STEPS
    ensures m == PROMPT_MESSAGE <==> count < TOTAL_STEPS
  {
    if count >= TOTAL_STEPS then COMPLETE_MESSAGE else PROMPT_MESSAGE
  }

  /** The completion text appears exactly after TOTAL_STEPS taps from a zero
      count, whatever the image loads do. */
  lemma CompleteAfterAllTaps(s: State, loads: seq<Option<Dims>>)
    requires Inv(s) && s.count == 0
    ensures StatusMessage(Run(s, Taps(loads)).count) == COMPLETE_MESSAGE <==> |loads| >= TOTAL_STEPS
  {
    TapsFromZero(s, loads);
  }
}
