/** FFMpeg-Wrapper/Filters: the video filters a filter graph can hold.
    `scale` is fixed at construction and becomes a datatype; `overlay`
    has a setter and stays an object. The `Filter` interface becomes a
    tagged datatype over them. */
module Filters {
  import opened Wrappers
  import opened Text
  import Ffprobe

  /** `ScaleResolution`: the common output heights. */
  datatype ScaleResolution = UHD_7680x4320 | UHD_3840x2160 | HD_1920x1080 | HD_1280x720 | SD_720x480

  /** The integer behind each `ScaleResolution` member. */
  function ResolutionHeight(r: ScaleResolution): (h: int)
    ensures h in {4320, 2160, 1080, 720, 480}
  {
    match r
    case UHD_7680x4320 => 4320
    case UHD_3840x2160 => 2160
    case HD_1920x1080 => 1080
    case HD_1280x720 => 720
    case SD_720x480 => 480
  }

  /** Different resolutions have different heights. */
  lemma {:induction false} ResolutionHeightInjective(a: ScaleResolution, b: ScaleResolution)
    requires ResolutionHeight(a) == ResolutionHeight(b)
    ensures a == b
  {
  }

  /** `scale`: an output width and height. */
  datatype Scale = Scale(Width: int, Height: int)

  /** `scale(ScaleResolution)`: the height is the resolution's value and the
      width is -2, which keeps the aspect ratio with an even width. */
  function ScaleToResolution(resolution: ScaleResolution): (s: Scale)
    ensures s.Width == -2 && s.Height == ResolutionHeight(resolution)
  {
    Scale(-2, ResolutionHeight(resolution))
  }

  /** `scale(int width, int height)`: both values stored as given. */
  function ScaleManual(width: int, height: int): (s: Scale)
    ensures s.Width == width && s.Height == height
  {
    Scale(width, height)
  }

  /** `scale.GetArguments()`: `scale=<width>:<height>`. */
  function ScaleArguments(s: Scale): (t: string)
    ensures StartsWith(t, "scale=") && t[6..] == IntToString(s.Width) + [':'] + IntToString(s.Height)
  {
    "scale=" + IntToString(s.Width) + ":" + IntToString(s.Height)
  }

  /** The scale text carries width and height as a `:`-separated ratio
      that reads back as the pair stored. */
  lemma {:induction false} ScaleArgumentsReadBack(s: Scale)
    ensures Ffprobe.ParseRatioInt(Some(ScaleArguments(s)[6..]), ':') == Some((s.Width, s.Height))
  {
    Ffprobe.ParseRatioIntRoundTrip(s.Width, s.Height, ':');
  }

  /** Two scales with the same text are the same scale. */
  lemma {:induction false} ScaleArgumentsInjective(a: Scale, b: Scale)
    requires ScaleArguments(a) == ScaleArguments(b)
    ensures a == b
  {
    ScaleArgumentsReadBack(a);
    ScaleArgumentsReadBack(b);
  }

  /** The 1080p scale is `scale=-2:1080`. */
  lemma {:induction false} ScaleHd1080Text()
    ensures ScaleArguments(ScaleToResolution(HD_1920x1080)) == "scale=-2:1080"
  {
    assert NatToString(1080) == "1080" by {
      assert NatToString(108) == "108" by {
        assert NatToString(10) == "10";
      }
    }
  }

  const OverlayXPrefix: string := "overlay=main_w-overlay_w-"
  const OverlayYPrefix: string := "main_h-overlay_h-"

  /** `overlay.GetArguments()` for a corner padding: the overlay is placed
      that many pixels from the right and from the bottom edge. */
  function OverlayText(padding: int): string {
    OverlayXPrefix + IntToString(padding) + ":" + OverlayYPrefix + IntToString(padding)
  }

  /** The x and y offsets an overlay text places its overlay at, read back
      from the text. */
  function OverlayPaddings(text: string): Option<(int, int)> {
    if !StartsWith(text, OverlayXPrefix) then None
    else
      var rest := text[|OverlayXPrefix|..];
      match (Ffprobe.SplitPart(rest, ':', 0), Ffprobe.SplitPart(rest, ':', 1))
      case (Some(x), Some(y)) =>
        if !StartsWith(y, OverlayYPrefix) then None
        else
          (match (Ffprobe.ParseIntInvariant(x), Ffprobe.ParseIntInvariant(y[|OverlayYPrefix|..]))
           case (Some(px), Some(py)) => Some((px, py))
           case _ => None)
      case _ => None
  }

  /** The overlay text uses the same padding for both offsets, and that
      padding is the one stored. */
  lemma {:induction false} OverlayTextReadBack(padding: int)
    ensures OverlayPaddings(OverlayText(padding)) == Some((padding, padding))
  {
    var t := OverlayText(padding);
    var p := IntToString(padding);
    var rest := t[|OverlayXPrefix|..];
    assert t[..|OverlayXPrefix|] == OverlayXPrefix;
    assert rest == p + [':'] + (OverlayYPrefix + p);
    Ffprobe.NoSeparatorInInt(padding, ':');
    Ffprobe.IndexOfAfter(p, OverlayYPrefix + p, ':');
    assert rest[..|p|] == p;
    var tail := rest[|p| + 1..];
    assert tail == OverlayYPrefix + p;
    OverlayYPart(p);
    Ffprobe.ParseIntOfString(padding);
  }

  /** The y part of an overlay text holds no `:` and splits into its prefix
      and the number. */
  lemma {:induction false} OverlayYPart(p: string)
    requires forall j :: 0 <= j < |p| ==> p[j] != ':'
    ensures var tail := OverlayYPrefix + p;
      && Ffprobe.IndexOf(tail, ':') == None
      && tail[..|OverlayYPrefix|] == OverlayYPrefix && tail[|OverlayYPrefix|..] == p
  {
    var tail := OverlayYPrefix + p;
    assert forall j :: 0 <= j < |OverlayYPrefix| ==> OverlayYPrefix[j] != ':';
    forall j | 0 <= j < |tail|
      ensures tail[j] != ':'
    {
      if j >= |OverlayYPrefix| {
        assert tail[j] == p[j - |OverlayYPrefix|];
      }
    }
  }

  /** `overlay`: a corner padding, 10 pixels unless set. */
  class Overlay {
    var CornerPadding: int

    constructor ()
      ensures CornerPadding == 10
    {
      CornerPadding := 10;
    }

    /** `SetCornerPadding`: any value is stored as given. */
    method SetCornerPadding(padding: int)
      modifies this
      ensures CornerPadding == padding
    {
      CornerPadding := padding;
    }

    /** `overlay.GetArguments()`: whatever padding the overlay holds, its
        text places the overlay that many pixels in on both axes. */
    function GetArguments(): (t: string)
      reads this
      ensures OverlayPaddings(t) == Some((CornerPadding, CornerPadding))
    {
      OverlayTextReadBack(CornerPadding);
      OverlayText(CornerPadding)
    }
  }

  /** A fresh overlay sits 10 pixels in from the bottom-right corner. */
  lemma {:induction false} DefaultOverlayText()
    ensures OverlayText(10) == "overlay=main_w-overlay_w-10:main_h-overlay_h-10"
  {
    assert IntToString(10) == "10";
  }

  /** A filter in a filter graph. */
  datatype Filter = ScaleFilter(scale: Scale) | OverlayFilter(overlay: Overlay)

  function FilterObjects(f: Filter): set<object> {
    match f
    case ScaleFilter(_) => {}
    case OverlayFilter(o) => {o}
  }

  /** The filter's text, as `FilterArguments` appends it to the graph. */
  function FilterText(f: Filter): string
    reads FilterObjects(f)
  {
    match f
    case ScaleFilter(s) => ScaleArguments(s)
    case OverlayFilter(o) => o.GetArguments()
  }
}
