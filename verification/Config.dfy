/** Resolution profiles and the parameters derived from them. */
module Config {
  datatype Resolution = Resolution(
    captureWidth: nat, captureHeight: nat, outputWidth: nat, outputHeight: nat, fps: nat)

  predicate IsQuarterTurn(flipMethod: int) {
    flipMethod == 1 || flipMethod == 3
  }

  function ResolveProfileUyvy(profile: string): Resolution {
    if profile == "hd" then Resolution(1280, 720, 1280, 720, 60)
    else if profile == "fhd" then Resolution(1920, 1080, 1920, 1080, 60)
    else if profile == "wuxga" then Resolution(1920, 1200, 1920, 1200, 55)
    else Resolution(1280, 720, 640, 360, 60)
  }

  function ResolveProfileMjpg(profile: string): Resolution {
    if profile == "hd" then Resolution(1280, 720, 1280, 720, 60)
    else if profile == "fhd" then Resolution(1920, 1080, 1920, 1080, 60)
    else if profile == "wuxga" then Resolution(1920, 1200, 1920, 1200, 60)
    else Resolution(1280, 720, 640, 360, 60)
  }

  /** The ROS parameters the node reads; everything else is derived. */
  datatype Declared = Declared(
    backend: string, resolution: string, exposureUs: int, compressed: bool, flipMethod: int)

  datatype Params = Params(
    declared: Declared, res: Resolution, pubWidth: nat, pubHeight: nat, expectedSize: nat)

  function LoadParams(d: Declared): Params {
    var res := if d.compressed then ResolveProfileMjpg(d.resolution) else ResolveProfileUyvy(d.resolution);
    var quarter := IsQuarterTurn(d.flipMethod);
    var pubWidth := if quarter then res.outputHeight else res.outputWidth;
    var pubHeight := if quarter then res.outputWidth else res.outputHeight;
    Params(d, res, pubWidth, pubHeight, pubWidth * pubHeight * 3)
  }

  // The OpenCV backend resizes only when output and capture sizes differ.
  predicate NeedResize(res: Resolution) {
    res.outputWidth != res.captureWidth || res.outputHeight != res.captureHeight
  }

  /** Bytes of the OpenCV backend's BGR image: the resized one, or the capture-size one. */
  function BgrSize(res: Resolution): nat {
    if NeedResize(res) then res.outputWidth * res.outputHeight * 3
    else res.captureWidth * res.captureHeight * 3
  }

  /**
   * The two profile tables agree on every dimension and differ in frame rate only for wuxga; sd and
   * any unknown profile are the only ones that downscale, by the same factor both ways.
   */
  lemma ProfileTables(profile: string)
    ensures var raw, mjpg := ResolveProfileUyvy(profile), ResolveProfileMjpg(profile);
            && raw.(fps := 0) == mjpg.(fps := 0)
            && (raw.fps != mjpg.fps <==> profile == "wuxga")
            && (NeedResize(raw) <==> profile !in {"hd", "fhd", "wuxga"})
            && (NeedResize(raw) ==>
                  raw.captureWidth == 2 * raw.outputWidth && raw.captureHeight == 2 * raw.outputHeight)
  {
    assert "hd"[0] != "fhd"[0] && "hd"[0] != "wuxga"[0] && "fhd"[0] != "wuxga"[0];
  }

  /**
   * For every profile string and flip method, a raw frame of the OpenCV backend, the message's
   * step * height and the message buffer all have the same positive size, below 2^31.
   */
  lemma RawSizesAgree(d: Declared)
    requires !d.compressed
    ensures var p := LoadParams(d);
            0 < BgrSize(p.res) == p.expectedSize == (p.pubWidth * 3) * p.pubHeight < 0x8000_0000
  {
    var p := LoadParams(d);
    assert p.pubWidth * p.pubHeight == p.res.outputWidth * p.res.outputHeight;
  }

  /** The published dimensions are those of the unrotated image exactly when no quarter turn is asked for. */
  lemma DimensionsAgreeIff(d: Declared)
    ensures var p := LoadParams(d);
            (p.pubWidth == p.res.outputWidth && p.pubHeight == p.res.outputHeight)
            <==> !IsQuarterTurn(d.flipMethod)
  {
  }
}
