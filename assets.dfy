/** Image assets: the background URL list and the first-success loader.
    Loading an image is a browser operation; here its outcome is given, as
    `Some(dims)` for an image that loaded or `None` for one that failed. */
module Assets {
  import opened Decimal
  import opened Timeline

  datatype Option<+T> = None | Some(value: T)

  /** The natural size of a loaded image. */
  datatype Dims = Dims(width: nat, height: nat)

  /** A loaded image: where it came from and its natural size. */
  datatype Image = Image(src: string, width: nat, height: nat)

  /** The image adopted from `src` once it has loaded with size `d`. */
  function Loaded(src: string, d: Dims): Image {
    Image(src, d.width, d.height)
  }

  const BACKGROUND_DIR: string := "assets/aligned_all_fixed/"
  const BACKGROUND_EXT: string := ".png"

  /** The background image of one year. */
  function BackgroundUrl(year: nat): string {
    BACKGROUND_DIR + NatToString(year) + BACKGROUND_EXT
  }

  lemma BackgroundUrlInjective(y1: nat, y2: nat)
    requires BackgroundUrl(y1) == BackgroundUrl(y2)
    ensures y1 == y2
  {
    var d1, d2 := NatToString(y1), NatToString(y2);
    var u := BackgroundUrl(y1);
    var p := |BACKGROUND_DIR|;
    assert |d1| == |d2|;
    assert u[p..p + |d1|] == d1;
    assert BackgroundUrl(y2)[p..p + |d2|] == d2;
    NatToStringInjective(y1, y2);
  }

  /** The list built at start-up: one URL per year, oldest first. */
  method BackgroundUrls() returns (urls: seq<string>)
    ensures |urls| == TOTAL_STEPS
    ensures forall i :: 0 <= i < |urls| ==> urls[i] == BackgroundUrl(START_YEAR + i)
    ensures forall i, j :: 0 <= i < j < |urls| ==> urls[i] != urls[j]
  {
    urls := [];
    var year := START_YEAR;
    while year <= END_YEAR
      invariant START_YEAR <= year <= END_YEAR + 1
      invariant |urls| == year - START_YEAR
      invariant forall i :: 0 <= i < |urls| ==> urls[i] == BackgroundUrl(START_YEAR + i)
    {
      urls := urls + [BackgroundUrl(year)];
      year := year + 1;
    }
    forall i, j | 0 <= i < j < |urls| ensures urls[i] != urls[j] {
      if urls[i] == urls[j] {
        BackgroundUrlInjective(START_YEAR + i, START_YEAR + j);
      }
    }
  }

  /** The first image of `paths` that loads, trying them in list order. */
  function FirstLoaded(paths: seq<string>, load: string -> Option<Dims>): Option<Image>
    decreases |paths|
  {
    if paths == [] then None
    else if load(paths[0]).Some? then Some(Loaded(paths[0], load(paths[0]).value))
    else FirstLoaded(paths[1..], load)
  }

  /** FirstLoaded is absent exactly when every path fails to load. */
  lemma {:induction false} FirstLoadedNoneIff(paths: seq<string>, load: string -> Option<Dims>)
    ensures FirstLoaded(paths, load).None? <==> forall i :: 0 <= i < |paths| ==> load(paths[i]).None?
    decreases |paths|
  {
    if paths != [] && load(paths[0]).None? {
      FirstLoadedNoneIff(paths[1..], load);
      assert forall i :: 1 <= i < |paths| ==> paths[i] == paths[1..][i - 1];
    }
  }

  /** A present FirstLoaded comes from the earliest path that loads. */
  lemma {:induction false} FirstLoadedIsFirst(paths: seq<string>, load: string -> Option<Dims>)
    requires FirstLoaded(paths, load).Some?
    ensures exists k :: (0 <= k < |paths| && load(paths[k]).Some?
                         && FirstLoaded(paths, load).value == Loaded(paths[k], load(paths[k]).value)
                         && forall j :: 0 <= j < k ==> load(paths[j]).None?)
    decreases |paths|
  {
    if load(paths[0]).None? {
      FirstLoadedIsFirst(paths[1..], load);
      var k :| 0 <= k < |paths| - 1 && load(paths[1..][k]).Some?
        && FirstLoaded(paths[1..], load).value == Loaded(paths[1..][k], load(paths[1..][k]).value)
        && forall j :: 0 <= j < k ==> load(paths[1..][j]).None?;
      assert forall j :: 1 <= j < k + 1 ==> paths[j] == paths[1..][j - 1];
      assert paths[k + 1] == paths[1..][k];
    } else {
      assert load(paths[0]).Some?;
    }
  }

  /** The loader of app.js: tries each path in order and returns the first
      image that loads, or None when all of them fail. */
  method LoadFirstImage(paths: seq<string>, load: string -> Option<Dims>) returns (img: Option<Image>)
    ensures img == FirstLoaded(paths, load)
    ensures img.Some? ==> img.value.src in paths
  {
    var i := 0;
    while i < |paths|
      invariant 0 <= i <= |paths|
      invariant FirstLoaded(paths, load) == FirstLoaded(paths[i..], load)
    {
      var outcome := load(paths[i]);
      if outcome.Some? {
        img := Some(Loaded(paths[i], outcome.value));
        return;
      }
      assert paths[i..][1..] == paths[i + 1..];
      i := i + 1;
    }
    img := None;
  }
}
