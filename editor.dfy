/** The zoom factor and the word statistics of the text editor
    (`pyword/core/editor.py`). Python floats are modelled as exact reals,
    and the editor's text is a parameter. */
module Editor {
  import opened Common

  const MinZoom: real := 0.25
  const MaxZoom: real := 4.0
  const ZoomStep: real := 0.1

  predicate InZoomRange(z: real) { MinZoom <= z <= MaxZoom }

  /** `max(0.25, min(4.0, factor))` */
  function ClampZoom(f: real): (z: real)
    ensures InZoomRange(z)
    ensures InZoomRange(f) ==> z == f
    ensures f < MinZoom ==> z == MinZoom
    ensures f > MaxZoom ==> z == MaxZoom
  {
    if f < MinZoom then MinZoom else if f > MaxZoom then MaxZoom else f
  }

  /** `min(4.0, zoom_factor + 0.1)` */
  function ZoomedIn(z: real): (r: real)
    ensures r <= MaxZoom
    ensures z + ZoomStep <= MaxZoom ==> r == z + ZoomStep
    ensures z + ZoomStep > MaxZoom ==> r == MaxZoom
  {
    if MaxZoom <= z + ZoomStep then MaxZoom else z + ZoomStep
  }

  /** `max(0.25, zoom_factor - 0.1)` */
  function ZoomedOut(z: real): (r: real)
    ensures r >= MinZoom
    ensures z - ZoomStep >= MinZoom ==> r == z - ZoomStep
    ensures z - ZoomStep < MinZoom ==> r == MinZoom
  {
    if MinZoom >= z - ZoomStep then MinZoom else z - ZoomStep
  }

  /** The `zoom_factor` field of `TextEditor`; the font rescaling of
      `update_zoom` is display only. */
  class TextEditor {
    var zoomFactor: real

    constructor()
      ensures zoomFactor == 1.0
    {
      zoomFactor := 1.0;
    }

    method ZoomIn()
      modifies this
      ensures zoomFactor == ZoomedIn(old(zoomFactor))
    {
      zoomFactor := if MaxZoom <= zoomFactor + ZoomStep then MaxZoom else zoomFactor + ZoomStep;
    }

    method ZoomOut()
      modifies this
      ensures zoomFactor == ZoomedOut(old(zoomFactor))
    {
      zoomFactor := if MinZoom >= zoomFactor - ZoomStep then MinZoom else zoomFactor - ZoomStep;
    }

    method ZoomReset()
      modifies this
      ensures zoomFactor == 1.0
    {
      zoomFactor := 1.0;
    }

    method SetZoom(factor: real)
      modifies this
      ensures zoomFactor == ClampZoom(factor)
    {
      zoomFactor := ClampZoom(factor);
    }
  }

  /** Starting in range, every zoom operation stays in range. */
  lemma ZoomStaysInRange(z: real, f: real)
    requires InZoomRange(z)
    ensures InZoomRange(ZoomedIn(z)) && InZoomRange(ZoomedOut(z))
    ensures InZoomRange(ClampZoom(f)) && InZoomRange(1.0)
  {
  }

  /** Setting the same factor twice leaves what setting it once left. */
  lemma SetZoomIdempotent(f: real)
    ensures ClampZoom(ClampZoom(f)) == ClampZoom(f)
  {
  }

  /** Zooming in and then out is the identity away from the bounds. */
  lemma ZoomInOut(z: real)
    requires MinZoom + ZoomStep <= z + ZoomStep <= MaxZoom
    ensures ZoomedOut(ZoomedIn(z)) == z
  {
  }

  /** The dictionary `word_count` returns. */
  datatype WordStats = WordStats(words: nat, characters: nat, paragraphs: nat, charactersNoSpaces: nat)

  /** `text.replace(' ', '')` keeps every character but the spaces. */
  lemma {:induction false} DropSpacesLength(s: string)
    ensures |SubstChar(s, ' ', [])| == |s| - Count(s, ' ')
  {
    if s != [] {
      DropSpacesLength(s[1..]);
      assert s == [s[0]] + s[1..];
      CountAppend([s[0]], s[1..], ' ');
    }
  }

  /** `word_count` over the editor's plain text: `len(text.split())`,
      `len(text)`, `len(text.split('\n'))` and
      `len(text.replace(' ', ''))`. */
  function WordCountOf(text: string): (r: WordStats)
    ensures r.words == |Words(text)|
    ensures r.characters == |text|
    ensures r.paragraphs == Count(text, '\n') + 1 && r.paragraphs >= 1
    ensures r.charactersNoSpaces == |text| - Count(text, ' ')
  {
    ReplaceCharIsSubst(text, ' ', []);
    DropSpacesLength(text);
    WordStats(|Words(text)|, |text|, |SplitOn(text, '\n')|, |ReplaceAll(text, " ", [])|)
  }

  /** Only the space character is dropped: tabs and newlines still count
      towards `characters_no_spaces`. */
  lemma OnlySpacesDropped()
    ensures WordCountOf("a\tb\n").charactersNoSpaces == 4
    ensures WordCountOf("a b").charactersNoSpaces == 2
  {
    var r := WordCountOf("a\tb\n");
    assert Count("a\tb\n", ' ') == 0 by { assert ' ' !in "a\tb\n"; CountAbsent("a\tb\n", ' '); }
    var q := WordCountOf("a b");
    assert Count("a b", ' ') == 1 by {
      assert "a b" == "a" + " " + "b";
      CountAppend("a" + " ", "b", ' ');
      CountAppend("a", " ", ' ');
      CountAbsent("a", ' ');
      CountAbsent("b", ' ');
    }
  }

  /** Empty text still has one paragraph and no words. */
  lemma EmptyText()
    ensures WordCountOf([]) == WordStats(0, 0, 1, 0)
  {
  }
}
