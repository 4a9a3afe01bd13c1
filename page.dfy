/** The page's module-level state and its handlers, as a class whose fields
    the handlers update in place. The outcome of each image load is a
    parameter; the browser's drawing calls are not modelled. */
module Page {
  import opened Timeline
  import opened Assets
  import opened Progress

  class ClickerPage {
    /** One background URL per year, built once at start-up. */
    const backgroundUrls: seq<string>

    var count: int
    var milestoneIndex: int
    var poundCount: int
    var backgroundIndex: int
    var currentBackground: Option<Image>
    var banknoteImage: Option<Image>
    var overlayImage: Option<Image>
    /** The canvas size, which follows the adopted background image. */
    var canvasWidth: nat
    var canvasHeight: nat

    /** The fields as a value of the specification's State. */
    ghost function Snapshot(): State
      reads this
    {
      State(count, milestoneIndex, poundCount, backgroundIndex, currentBackground,
            canvasWidth, canvasHeight, banknoteImage, overlayImage)
    }

    ghost predicate UrlsBuilt()
      reads this
    {
      && |backgroundUrls| == TOTAL_STEPS
      && forall i :: 0 <= i < |backgroundUrls| ==> backgroundUrls[i] == BackgroundUrl(START_YEAR + i)
    }

    ghost predicate Valid()
      reads this
    {
      UrlsBuilt() && Inv(Snapshot())
    }

    /** Module start-up and init(): build the URL list, zero the counters,
        adopt the first year's background if it loads (else keep the canvas's
        default size), then look up the banknote and overlay images. */
    constructor Init(defaultWidth: nat, defaultHeight: nat, load: string -> Option<Dims>)
      ensures Valid()
      ensures Snapshot() == Start(defaultWidth, defaultHeight, load)
    {
      var urls := BackgroundUrls();
      var first := load(urls[0]);
      var banknote := LoadFirstImage(BANKNOTE_PATHS, load);
      var overlay := LoadFirstImage(OVERLAY_PATHS, load);
      backgroundUrls := urls;
      count, milestoneIndex, poundCount, backgroundIndex := 0, 0, 0, 0;
      currentBackground := None;
      canvasWidth, canvasHeight := defaultWidth, defaultHeight;
      if first.Some? {
        currentBackground := Some(Loaded(urls[0], first.value));
        canvasWidth, canvasHeight := first.value.width, first.value.height;
      }
      banknoteImage := banknote;
      overlayImage := overlay;
      new;
      StartKeepsInv(defaultWidth, defaultHeight, load);
    }

    /** setBackground: clamp the index into the URL list and store it before
        the load; adopt the image and its size only if the load succeeds. */
    method SetBackground(index: int, load: Option<Dims>)
      requires UrlsBuilt()
      modifies this
      ensures backgroundIndex == Clamp(index, |backgroundUrls|)
      ensures load.Some? ==>
        && currentBackground == Some(Loaded(backgroundUrls[backgroundIndex], load.value))
        && canvasWidth == load.value.width && canvasHeight == load.value.height
      ensures load.None? ==>
        && currentBackground == old(currentBackground)
        && canvasWidth == old(canvasWidth) && canvasHeight == old(canvasHeight)
      ensures count == old(count) && milestoneIndex == old(milestoneIndex) && poundCount == old(poundCount)
      ensures banknoteImage == old(banknoteImage) && overlayImage == old(overlayImage)
    {
      var safeIndex := Clamp(index, |backgroundUrls|);
      backgroundIndex := safeIndex;
      var url := backgroundUrls[safeIndex];
      if load.Some? {
        currentBackground := Some(Loaded(url, load.value));
        canvasWidth := load.value.width;
        canvasHeight := load.value.height;
      }
    }

    /** onAdvance, with `load` the outcome of the background load it may start. */
    method Advance(load: Option<Dims>)
      requires Valid()
      modifies this
      ensures Valid()
      ensures Snapshot() == AdvanceSpec(old(Snapshot()), load)
    {
      if count >= TOTAL_STEPS {
        return;
      }
      count := count + 1;
      poundCount := poundCount + 1;
      if milestoneIndex < TOTAL_STEPS && count >= milestoneIndex + 1 {
        milestoneIndex := milestoneIndex + 1;
        var last := |backgroundUrls| - 1;
        var nextIndex := if count - 1 < last then count - 1 else last;
        if nextIndex != backgroundIndex {
          SetBackground(nextIndex, load);
          var year := START_YEAR + backgroundIndex;
          if year in RESET_YEARS {
            poundCount := 0;
          }
        }
      }
      AdvanceKeepsInv(old(Snapshot()), load);
    }

    /** reset: zero the four counters; everything else stays. */
    method Reset()
      requires Valid()
      modifies this
      ensures Valid()
      ensures Snapshot() == ResetSpec(old(Snapshot()))
    {
      count := 0;
      milestoneIndex := 0;
      poundCount := 0;
      backgroundIndex := 0;
      ResetKeepsInv(old(Snapshot()));
    }

    /** The year the label shows. */
    function YearLabel(): (year: int)
      reads this
      requires Valid()
      ensures START_YEAR <= year <= END_YEAR
      ensures count >= 1 ==> year == START_YEAR + count - 1
      ensures count == 0 ==> year == START_YEAR
    {
      START_YEAR + backgroundIndex
    }
  }
}
