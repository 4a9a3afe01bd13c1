# clicker-pwa: the progress clicker, modelled in Dafny

The page is a "progress clicker". Each tap, or each press of Space, advances a
counter from 0 to `TOTAL_STEPS`. That is 71 steps, one per year from 1841 to
1911. As the counter moves, the page shows that year's background image. It
also shows a small stack of banknotes. The stack grows by one per tap and
clears when the background reaches a year in the fixed `RESET_YEARS` set. A
reset button zeroes the counters.

The model keeps the page's state and handlers in their own form, in the class
`Page.ClickerPage`. Its fields are the four counters (`count`,
`milestoneIndex`, `poundCount`, `backgroundIndex`), the adopted background,
the canvas size and the two decoration images. `Advance`, `SetBackground` and
`Reset` update those fields step by step, as the handlers do. Each image load
is given to them as an outcome: `Some(dims)` when the image loads, `None` when
it fails.

Beside the class, module `Progress` describes the same state as a value
(`State`). It defines what one advance (`AdvanceSpec`) and one reset
(`ResetSpec`) do, and an invariant `Inv` that holds in every reachable state:

- `0 <= count <= 71`;
- `milestoneIndex == count`;
- `backgroundIndex == max(count - 1, 0)`;
- `poundCount == PoundsAfter(count)`;
- an adopted background is a timeline image, and the canvas has its size.

The class methods are proved to move the fields exactly as these functions
say. The lemmas then prove the rest about the functions:

- bounds;
- the first-advance subtlety;
- which loads are adopted;
- reset idempotence;
- counts after n taps;
- the banknote count's closed form.

Module `Timeline` holds the fixed parameters and the banknote-count function.
Module `Assets` holds the URL list and the first-success image loader. Module
`Render` holds the note count and the note positions of the drawing code, and
the status message. Module `Decimal` holds the decimal rendering used to build
the URLs.

Facts the proofs bring out:

- The first advance from a zero count never runs the reset-year check. Its
  target index 0 equals the current `backgroundIndex`. So the banknote count
  becomes 1 even though 1841 is a reset year (`Progress.FirstAdvance`).
- The banknote count reaches 11 (after 22 advances, in 1862). That is more
  than `MAX_BANKNOTES` (10), so the drawing cap does take effect
  (`Timeline.PoundsAtMostEleven`, `Render.NotesShownInReachableStates`).
- At the end of the timeline, 1911 is a reset year, so a full run ends with
  no banknotes.
- A reset does not reload the background. The image adopted last, for example
  1911, stays on screen, and the first tap after the reset keeps it as well.
  Only the year label goes back to 1841 (`Progress.ResetKeepsStaleBackground`).
- `onAdvance` guards on `count >= TOTAL_STEPS` (app.js:119). Since `count`
  never exceeds 71 (`Progress.InvBounds`), the guard only fires at
  `count == 71`.

## Model

| member | source | states |
|---|---|---|
| `Timeline.Clamp` | app.js:107 | the stored index lies in `[0, len-1]` for a non-empty list, is the index itself when in range, 0 below it and `len-1` above it; 0 for an empty list |
| `Timeline.PoundsAtMostCount` | app.js:123-135 | the banknote count after n advances never exceeds n |
| `Timeline.PoundsSinceLastReset` | app.js:124-135 | the banknote count is the number of advances since the most recent reset-year landing, or since the start |
| `Timeline.LastResetStepIsLast` | app.js:3-5 | the reset-year set, read as counts (4, 5, 10, 11, 23, 30, 39, 51, 61, 71), gives the last reset at or before every count of the timeline |
| `Timeline.PoundsAtMostEleven` | app.js:124-135 | over the whole timeline the banknote count is at most 11, and it is exactly 11 after 22 advances |
| `Timeline.PoundsZeroAtCompletion` | app.js:132-135 | after all 71 advances (year 1911, a reset year) the banknote count is 0 |
| `Decimal.NatToString` | app.js:28 | a year is written as a non-empty string of decimal digits without a leading zero |
| `Decimal.ParseNatToString` | app.js:28 | reading the digits back gives the number again |
| `Decimal.NatToStringInjective` | app.js:28 | different years are written differently |
| `Assets.BackgroundUrlInjective` | app.js:28 | two years with the same background URL are the same year |
| `Assets.BackgroundUrls` | app.js:26-30 | the list has 71 entries, entry i is the URL of year 1841+i, and no URL appears twice |
| `Assets.FirstLoadedNoneIff` | app.js:160-169 | the loader returns nothing exactly when every path fails to load |
| `Assets.FirstLoadedIsFirst` | app.js:160-169 | a returned image comes from a path that loaded, and every earlier path failed |
| `Assets.LoadFirstImage` | app.js:160-169 | the loop returns the first image in list order that loads, taken from one of the given paths |
| `Progress.StartKeepsInv` | app.js:171-176 | the start-up state (zero counters, the 1841 image adopted with its size if it loads) satisfies the invariant |
| `Progress.AdvanceKeepsInv` | app.js:118-140 | an advance keeps the invariant |
| `Progress.ResetKeepsInv` | app.js:142-149 | a reset keeps the invariant |
| `Progress.RunKeepsInv` | app.js:118-149 | every state reached by any sequence of taps and resets satisfies the invariant |
| `Progress.InvBounds` | app.js:119-131 | in reachable states: count in `[0, 71]`, `milestoneIndex <= count`, background index in `[0, 70]` and equal to count-1 once count >= 1, year shown in `[1841, 1911]`, `0 <= poundCount <= count`, and `poundCount <= 11` |
| `Progress.AdvanceMovesCountByOne` | app.js:119-128 | below the ceiling an advance raises count by exactly 1 and the milestone index with it; at the ceiling the state is unchanged; the decoration images are never touched |
| `Progress.AdvanceAdoptsOnlyLoadedImage` | app.js:106-116 | a failed load changes neither the background nor the canvas size; a changed background is the loaded image of the year now shown, and the canvas takes its size |
| `Progress.AdvancePoundCount` | app.js:124-135 | an advance that moves the background onto a reset year leaves 0 banknotes; one that does not land on a reset year adds exactly one |
| `Progress.FirstAdvance` | app.js:129-135 | from count 0, an advance keeps background index 0 and skips the reset-year check although 1841 is a reset year; the banknote count becomes 1, and the background and canvas are unchanged |
| `Progress.ResetIdempotent` | app.js:142-149 | a reset zeroes the four counters, leaves background, canvas, banknote and overlay images untouched, and a second reset changes nothing |
| `Progress.ResetKeepsStaleBackground` | app.js:129-149 | a reset followed by a tap leaves count 1, background index 0 (year 1841) and one banknote, but keeps the background and canvas adopted before the reset; a 1911 image then stays under the 1841 label |
| `Progress.TapsCount` | app.js:118-128 | n taps from an invariant state leave count at min(count+n, 71), whatever the load outcomes |
| `Progress.TapsFromZero` | app.js:118-140 | n taps from a zero count leave count = milestoneIndex = min(n, 71), the matching background index and banknote count; a full run ends on 1911 with 0 banknotes |
| `Page.ClickerPage.Init` | app.js:171-188 | start-up builds the URL list, zeroes the counters, adopts the first background only if it loads (else the canvas keeps its default size), loads banknote and overlay by first success, and establishes the invariant |
| `Page.ClickerPage.SetBackground` | app.js:106-116 | the clamped index is stored whatever the load outcome; background and canvas size change only on a successful load, and then to that URL's image and its size; the counters and decoration images are untouched |
| `Page.ClickerPage.Advance` | app.js:118-140 | the handler, with its milestone guard and index comparison, moves the state exactly as `AdvanceSpec` and keeps the invariant |
| `Page.ClickerPage.Reset` | app.js:142-149 | the handler moves the state exactly as `ResetSpec` and keeps the invariant |
| `Page.ClickerPage.YearLabel` | app.js:56 | the year shown lies in `[1841, 1911]`, is 1841 + count - 1 once count >= 1, and is 1841 at count 0 |
| `Render.ScaledSize` | app.js:88-89 | a scaled note side is 1 for sides under 20 and otherwise the image side divided by 10, rounded down (the three clauses force exactly `max(1, n / 10)`) |
| `Render.NotesToDraw` | app.js:85-90 | at most 10 notes; none exactly when there is no banknote image or the count is not positive; otherwise the count itself up to 10, and 10 beyond |
| `Render.BanknoteRects` | app.js:84-96 | the loop produces `NotesToDraw` rectangles; note i has its top-right corner at (width - 10 - 8i, 10 + 5i) and the scaled banknote size |
| `Render.NotesShownInReachableStates` | app.js:85-90 | in reachable states with a loaded banknote image the stack shows min(poundCount, 10) notes, and none without it; after 22 advances the count is 11, so 10 notes are shown when the image loaded |
| `Render.StatusMessage` | app.js:36-40 | the completion text is shown exactly when count >= 71, and the prompt exactly when count < 71 |
| `Render.CompleteAfterAllTaps` | app.js:36-40 | starting from zero, the completion text appears exactly when at least 71 taps have been made |

## Left out

- The service worker (`sw.js`) is left out. It installs, activates and serves assets from the browser's Cache API with a cache-first lookup. That is I/O against the browser, with no logic of its own.
- Canvas and DOM side effects are left out: clearing and drawing the frame, the gradient fallback, the year text and its shadow, the overlay's position, and the count and progress-bar text of `updateUi`. Of these, only the year value (`YearLabel`) and the status message choice are modelled.
- Event-listener wiring and the service-worker registration are left out (app.js:190-205).
- `loadImage` is the browser `Image` wrapped in a Promise, so it is not modelled. Its result is a parameter: an `Option<Dims>` per advance, and at start-up a function from path to outcome. With that function, loading the same path twice gives the same result.
- Overlapping asynchronous advances are not modelled. A second tap can arrive while `setBackground` awaits its load. Here each advance is atomic, with its load outcome supplied. `onAdvance` calls `updateUi` in its middle (app.js:125) and `drawFrame` as its last statement (app.js:139). Both only write to the page, so the model leaves them out.
- ScaledSize: `Math.floor(w * 0.1)` in floating point is modelled as the integer `w / 10`. For image sides of realistic size the two agree, but that is not proved here.
- Taps that arrive before start-up finishes are not modelled. The listeners are registered (app.js:190-197) before `init()` runs (app.js:205), and `init` awaits three loads. `Start` assumes start-up completes first. So the model does not capture an advance while `banknoteImage` is still null. Nor does it capture `init`'s late assignment of the 1841 image, or of null, over a background that an earlier advance had already adopted (app.js:172).
- JavaScript numbers are doubles. The counters stay small integers, so the model uses unbounded `int`.
- `app.js` contains no sprite-sheet code, and nothing outside its clicker logic is modelled.
