/** Image helpers of the advanced image manager
    (`pyword/features/advanced_images.py`): packing and unpacking 32-bit RGB
    pixels (`qRgb`, `qGray`), the grayscale and brightness pixel loops, the
    names of the derived image files, and how `reset_to_original` recovers
    the original file name from a derived one. An image is an `array2` of
    pixels indexed by row and column. Python's `>>` and `&` on the pixel
    integers are floor division and remainder by powers of two; the `|` of
    `qRgb` combines disjoint byte fields, so it is their sum. */
module AdvancedImages {
  import opened Common

  /** `(c & 0xff)`: the low byte. */
  function Byte(c: int): (b: int)
    ensures 0 <= b < 256
  {
    c % 256
  }

  /** `qRgb(r, g, b)`: opaque alpha and the low bytes of the channels. */
  function QRgb(r: int, g: int, b: int): int
  {
    255 * 0x1000000 + Byte(r) * 0x10000 + Byte(g) * 0x100 + Byte(b)
  }

  function Red(p: int): int { Byte(p / 0x10000) }
  function Green(p: int): int { Byte(p / 0x100) }
  function Blue(p: int): int { Byte(p) }
  function Alpha(p: int): int { Byte(p / 0x1000000) }

  /** `qGray(rgb)`: the weighted mean (11 red, 16 green, 5 blue) of the
      channels. */
  function QGray(p: int): (v: int)
    ensures 0 <= v <= 255
  {
    (Red(p) * 11 + Green(p) * 16 + Blue(p) * 5) / 32
  }

  /** Unpacking a packed pixel gives back the low bytes of its channels and
      an opaque alpha. */
  lemma QRgbChannels(r: int, g: int, b: int)
    ensures Red(QRgb(r, g, b)) == Byte(r)
    ensures Green(QRgb(r, g, b)) == Byte(g)
    ensures Blue(QRgb(r, g, b)) == Byte(b)
    ensures Alpha(QRgb(r, g, b)) == 255
  {
  }

  /** A gray pixel reads back as its own gray level. */
  lemma GrayOfGray(v: int)
    requires 0 <= v <= 255
    ensures QGray(QRgb(v, v, v)) == v
  {
    var p := QRgb(v, v, v);
    QRgbChannels(v, v, v);
    assert Red(p) == v && Green(p) == v && Blue(p) == v;
    WeightedSum(v);
  }

  /** The three weights add up to the divisor. */
  lemma WeightedSum(v: int)
    ensures (v * 11 + v * 16 + v * 5) / 32 == v
  {
    assert v * 11 + v * 16 + v * 5 == v * 32;
  }

  /** One pixel of `_convert_to_grayscale`. */
  function GrayPixel(p: int): int
  {
    QRgb(QGray(p), QGray(p), QGray(p))
  }

  /** Converting twice changes nothing more. */
  lemma GrayPixelIdempotent(p: int)
    ensures GrayPixel(GrayPixel(p)) == GrayPixel(p)
  {
    GrayOfGray(QGray(p));
  }

  /** `min(255, max(0, c))`. */
  function Clamp(c: int): (r: int)
    ensures 0 <= r <= 255
    ensures 0 <= c <= 255 ==> r == c
    ensures c < 0 ==> r == 0
    ensures c > 255 ==> r == 255
  {
    if c < 0 then 0 else if c > 255 then 255 else c
  }

  /** One pixel of `_adjust_brightness`. */
  function Brightened(p: int, factor: int): int
  {
    QRgb(Clamp(Red(p) + factor), Clamp(Green(p) + factor), Clamp(Blue(p) + factor))
  }

  /** Every channel of a brightened pixel is the old channel plus the
      factor, clamped into 0..255. */
  lemma BrightenedChannels(p: int, factor: int)
    ensures Red(Brightened(p, factor)) == Clamp(Red(p) + factor)
    ensures Green(Brightened(p, factor)) == Clamp(Green(p) + factor)
    ensures Blue(Brightened(p, factor)) == Clamp(Blue(p) + factor)
    ensures Alpha(Brightened(p, factor)) == 255
  {
    var r, g, b := Clamp(Red(p) + factor), Clamp(Green(p) + factor), Clamp(Blue(p) + factor);
    QRgbChannels(r, g, b);
  }

  /** `_convert_to_grayscale`: every pixel of the image, row by row,
      becomes its gray level. */
  method ConvertToGrayscale(image: array2<int>)
    modifies image
    ensures forall y, x :: 0 <= y < image.Length0 && 0 <= x < image.Length1 ==>
              image[y, x] == GrayPixel(old(image[y, x]))
  {
    var y := 0;
    while y < image.Length0
      invariant 0 <= y <= image.Length0
      invariant forall i, j :: 0 <= i < y && 0 <= j < image.Length1 ==> image[i, j] == GrayPixel(old(image[i, j]))
      invariant forall i, j :: y <= i < image.Length0 && 0 <= j < image.Length1 ==> image[i, j] == old(image[i, j])
    {
      var x := 0;
      while x < image.Length1
        invariant 0 <= x <= image.Length1
        invariant forall i, j :: 0 <= i < y && 0 <= j < image.Length1 ==> image[i, j] == GrayPixel(old(image[i, j]))
        invariant forall j :: 0 <= j < x ==> image[y, j] == GrayPixel(old(image[y, j]))
        invariant forall j :: x <= j < image.Length1 ==> image[y, j] == old(image[y, j])
        invariant forall i, j :: y < i < image.Length0 && 0 <= j < image.Length1 ==> image[i, j] == old(image[i, j])
      {
        image[y, x] := GrayPixel(image[y, x]);
        x := x + 1;
      }
      y := y + 1;
    }
  }

  /** `_adjust_brightness`: a copy of the image with every pixel
      brightened; the image itself is left alone. */
  method AdjustBrightness(image: array2<int>, factor: int) returns (result: array2<int>)
    ensures fresh(result)
    ensures result.Length0 == image.Length0 && result.Length1 == image.Length1
    ensures forall y, x :: 0 <= y < result.Length0 && 0 <= x < result.Length1 ==>
              result[y, x] == Brightened(image[y, x], factor)
  {
    result := new int[image.Length0, image.Length1]((i, j) reads image
      requires 0 <= i < image.Length0 && 0 <= j < image.Length1 => image[i, j]);
    var y := 0;
    while y < result.Length0
      invariant 0 <= y <= result.Length0
      invariant forall i, j :: 0 <= i < y && 0 <= j < result.Length1 ==> result[i, j] == Brightened(image[i, j], factor)
      invariant forall i, j :: y <= i < result.Length0 && 0 <= j < result.Length1 ==> result[i, j] == image[i, j]
    {
      var x := 0;
      while x < result.Length1
        invariant 0 <= x <= result.Length1
        invariant forall i, j :: 0 <= i < y && 0 <= j < result.Length1 ==> result[i, j] == Brightened(image[i, j], factor)
        invariant forall j :: 0 <= j < x ==> result[y, j] == Brightened(image[y, j], factor)
        invariant forall j :: x <= j < result.Length1 ==> result[y, j] == image[y, j]
        invariant forall i, j :: y < i < result.Length0 && 0 <= j < result.Length1 ==> result[i, j] == image[i, j]
      {
        result[y, x] := Brightened(result[y, x], factor);
        x := x + 1;
      }
      y := y + 1;
    }
  }

  /** `s.split(pat)[0]`: everything before the first occurrence of `pat`. */
  function SplitHead(s: string, pat: string): (r: string)
    requires pat != []
    ensures r <= s
    ensures !Contains(r, pat)
    ensures !Contains(s, pat) ==> r == s
    decreases |s|
  {
    if StartsWith(s, pat) then ""
    else if s == [] then ""
    else
      var rest := SplitHead(s[1..], pat);
      assert ([s[0]] + rest)[1..] == rest;
      [s[0]] + rest
  }

  /** A string that contains `pat` is contained only in strings that
      contain it. */
  lemma {:induction false} ContainsPrefix(r: string, s: string, pat: string)
    requires r <= s && Contains(r, pat)
    ensures Contains(s, pat)
    decreases |r|
  {
    if StartsWith(r, pat) {
      assert s[..|pat|] == r[..|pat|];
    } else {
      assert r[1..] <= s[1..];
      ContainsPrefix(r[1..], s[1..], pat);
    }
  }

  /** The markers of `reset_to_original`. */
  const Rotated := "_rotated"
  const Flipped := "_flipped"
  const Cropped := "_cropped"

  /** A name with none of the markers. */
  predicate Clean(p: string)
  {
    !Contains(p, Rotated) && !Contains(p, Flipped) && !Contains(p, Cropped)
  }

  /** The original path `reset_to_original` looks for: the prefix before
      the first "_rotated", then before "_flipped", then before "_cropped". */
  function OriginalPath(p: string): (r: string)
    ensures r <= p
  {
    SplitHead(SplitHead(SplitHead(p, Rotated), Flipped), Cropped)
  }

  lemma OriginalPathClean(p: string)
    ensures Clean(OriginalPath(p))
  {
    var a := SplitHead(p, Rotated);
    var b := SplitHead(a, Flipped);
    var c := SplitHead(b, Cropped);
    if Contains(b, Rotated) {
      ContainsPrefix(b, a, Rotated);
    }
    if Contains(c, Rotated) {
      ContainsPrefix(c, b, Rotated);
      ContainsPrefix(b, a, Rotated);
    }
    if Contains(c, Flipped) {
      ContainsPrefix(c, b, Flipped);
    }
  }

  /** Deriving the original path twice gives the same path. */
  lemma OriginalPathIdempotent(p: string)
    ensures OriginalPath(OriginalPath(p)) == OriginalPath(p)
  {
    OriginalPathClean(p);
  }

  /** A marker whose only underscore leads it. */
  predicate Marker(pat: string)
  {
    pat != [] && pat[0] == '_' && forall i :: 1 <= i < |pat| ==> pat[i] != '_'
  }

  /** Splitting a string followed by a suffix that starts with an
      underscore: an occurrence of the marker cannot straddle the join. */
  lemma {:induction false} SplitHeadAppend(a: string, b: string, pat: string)
    requires Marker(pat) && b != [] && b[0] == '_'
    ensures SplitHead(a + b, pat) == if Contains(a, pat) then SplitHead(a, pat) else a + SplitHead(b, pat)
    decreases |a|
  {
    if a == [] {
      assert a + b == b;
    } else if StartsWith(a, pat) {
      assert (a + b)[..|pat|] == a[..|pat|];
    } else {
      assert !StartsWith(a + b, pat) by {
        if |pat| <= |a| {
          assert (a + b)[..|pat|] == a[..|pat|];
        } else {
          assert (a + b)[|a|] == b[0];
          assert pat[|a|] != (a + b)[|a|];
        }
      }
      assert (a + b)[1..] == a[1..] + b;
      SplitHeadAppend(a[1..], b, pat);
    }
  }

  lemma Markers()
    ensures Marker(Rotated) && Marker(Flipped) && Marker(Cropped)
  {
  }

  /** `rotate_image` saves "{p}_rotated_{angle}.png". */
  function RotatedPath(p: string, angle: int): (r: string)
    ensures StartsWith(r, p + Rotated)
  {
    assert (p + "_rotated_" + IntToString(angle) + ".png")[..|p + Rotated|] == p + Rotated;
    p + "_rotated_" + IntToString(angle) + ".png"
  }

  /** `flip_image` saves "{p}_flipped_h.png" for a horizontal flip and
      "{p}_flipped_v.png" otherwise. */
  function FlippedPath(p: string, horizontal: bool): (r: string)
    ensures r == p + (if horizontal then "_flipped_h.png" else "_flipped_v.png")
  {
    p + "_flipped_" + (if horizontal then "h" else "v") + ".png"
  }

  /** `crop_image` saves "{p}_cropped.png". */
  function CroppedPath(p: string): (r: string)
    ensures r == p + Cropped + ".png"
  {
    p + "_cropped.png"
  }

  /** `apply_effect` saves "{p}_{effect in lower case}.png". */
  function EffectPath(p: string, effect: string): (r: string)
    ensures EndsWith(r, ".png") && StartsWith(r, p + "_")
  {
    assert (p + "_" + Lower(effect) + ".png")[..|p + "_"|] == p + "_";
    p + "_" + Lower(effect) + ".png"
  }

  /** `adjust_brightness` saves "{p}_bright_{factor}.png". */
  function BrightPath(p: string, factor: int): (r: string)
    ensures StartsWith(r, p + "_bright_")
  {
    assert (p + "_bright_" + IntToString(factor) + ".png")[..|p + "_bright_"|] == p + "_bright_";
    p + "_bright_" + IntToString(factor) + ".png"
  }

  /** `compress_image` saves "{p}_compressed.jpg". */
  function CompressedPath(p: string): string
  {
    p + "_compressed.jpg"
  }

  /** An occurrence of `pat` brings every character of `pat` with it. */
  lemma {:induction false} ContainsHasChar(s: string, pat: string, c: char)
    requires Contains(s, pat) && c in pat
    ensures c in s
    decreases |s|
  {
    if StartsWith(s, pat) {
      assert s[..|pat|] == pat;
    } else {
      ContainsHasChar(s[1..], pat, c);
    }
  }

  lemma AbsentChar(s: string, pat: string, c: char)
    requires c in pat && c !in s
    ensures !Contains(s, pat)
  {
    if Contains(s, pat) {
      ContainsHasChar(s, pat, c);
    }
  }

  /** After splitting a name with a suffix at a marker that leads the
      suffix, only the name's own split is left. */
  lemma SplitAtLeadingMarker(p: string, tail: string, pat: string)
    requires Marker(pat) && StartsWith(tail, pat)
    ensures SplitHead(p + tail, pat) == SplitHead(p, pat)
  {
    SplitHeadAppend(p, tail, pat);
    assert p + [] == p;
  }

  /** Splitting a name with a suffix that lacks the marker. */
  lemma SplitPastTail(p: string, tail: string, pat: string)
    requires Marker(pat) && tail != [] && tail[0] == '_' && !Contains(tail, pat)
    ensures SplitHead(p + tail, pat) == if Contains(p, pat) then SplitHead(p, pat) else p + tail
  {
    SplitHeadAppend(p, tail, pat);
  }

  /** A rotated file leads back to the original of the file it came from. */
  lemma ResetAfterRotate(p: string, angle: int)
    ensures OriginalPath(RotatedPath(p, angle)) == OriginalPath(p)
  {
    Markers();
    var tail := "_rotated_" + IntToString(angle) + ".png";
    assert RotatedPath(p, angle) == p + tail;
    assert tail[..|Rotated|] == Rotated;
    SplitAtLeadingMarker(p, tail, Rotated);
  }

  /** A flipped file leads back to the original of the file it came from. */
  lemma ResetAfterFlip(p: string, horizontal: bool)
    ensures OriginalPath(FlippedPath(p, horizontal)) == OriginalPath(p)
  {
    Markers();
    var tail := FlipTail(horizontal);
    FlipTailFacts(horizontal);
    SplitPastTail(p, tail, Rotated);
    if !Contains(p, Rotated) {
      SplitAtLeadingMarker(p, tail, Flipped);
    }
  }

  function FlipTail(horizontal: bool): string
  {
    if horizontal then "_flipped_h.png" else "_flipped_v.png"
  }

  lemma FlipTailFacts(horizontal: bool)
    ensures FlipTail(horizontal) != [] && FlipTail(horizontal)[0] == '_'
    ensures !Contains(FlipTail(horizontal), Rotated)
    ensures StartsWith(FlipTail(horizontal), Flipped)
  {
    var tail := FlipTail(horizontal);
    AbsentChar(tail, Rotated, 't');
    assert tail[..|Flipped|] == Flipped;
  }

  lemma CroppedTailNoRotated()
    ensures !Contains("_cropped.png", Rotated)
  {
    AbsentChar("_cropped.png", Rotated, 't');
  }

  lemma CroppedTailNoFlipped()
    ensures !Contains("_cropped.png", Flipped)
  {
    AbsentChar("_cropped.png", Flipped, 'f');
  }

  lemma CroppedTailStarts()
    ensures StartsWith("_cropped.png", Cropped)
  {
    assert "_cropped.png"[..|Cropped|] == Cropped;
  }

  /** A cropped file leads back to the original of the file it came from. */
  lemma ResetAfterCrop(p: string)
    ensures OriginalPath(CroppedPath(p)) == OriginalPath(p)
  {
    Markers();
    CroppedTailNoRotated();
    CroppedTailNoFlipped();
    CroppedTailStarts();
    var tail := "_cropped.png";
    SplitPastTail(p, tail, Rotated);
    if !Contains(p, Rotated) {
      SplitPastTail(p, tail, Flipped);
      if !Contains(p, Flipped) {
        SplitAtLeadingMarker(p, tail, Cropped);
      }
    }
  }

  /** `reset_to_original`: with a current image, the format switches to
      the original path when that file exists and loads; `None` stands for
      the False result. */
  function ResetToOriginal(current: Option<string>, loadable: set<string>): (r: Option<string>)
    ensures r.Some? <==> current.Some? && OriginalPath(current.value) in loadable
    ensures r.Some? ==> r.value == OriginalPath(current.value) && Clean(r.value)
  {
    if current.Some? && OriginalPath(current.value) in loadable then
      OriginalPathClean(current.value);
      Some(OriginalPath(current.value))
    else None
  }
}
