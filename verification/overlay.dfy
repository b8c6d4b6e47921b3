/** The preview's overlay geometry: the contain-fit scale kept in component
    state, the absolute style each detection box gets, the rectangle the
    browser actually draws once `translate(-50%, -50%)` applies, and the
    preview's two render cases. Arithmetic is exact (`real`). */
module Overlay {
  import opened Wrappers
  import opened Text
  import opened Detection

  /** Whole-pixel dimensions: an image's natural size or a container's client size. */
  datatype Size = Size(width: nat, height: nat)

  /** An axis-aligned rectangle in on-screen pixels, from its top-left corner. */
  datatype Rect = Rect(left: real, top: real, width: real, height: real)

  function Min(a: real, b: real): (m: real)
    ensures m <= a && m <= b && (m == a || m == b)
  {
    if a <= b then a else b
  }

  /** The image's natural size is known on both axes. */
  predicate Known(natural: Size) {
    natural.width > 0 && natural.height > 0
  }

  /** `Math.min(containerWidth / width, containerHeight / height)`. */
  function FitScale(container: Size, natural: Size): (s: real)
    requires Known(natural)
    ensures s >= 0.0
    ensures natural.width as real * s <= container.width as real
    ensures natural.height as real * s <= container.height as real
    ensures natural.width as real * s == container.width as real
         || natural.height as real * s == container.height as real
  {
    var iw := natural.width as real;
    var ih := natural.height as real;
    var sx := container.width as real / iw;
    var sy := container.height as real / ih;
    assert iw * sx == container.width as real;
    assert ih * sy == container.height as real;
    var s := Min(sx, sy);
    assert iw * s <= iw * sx;
    assert ih * s <= ih * sy;
    s
  }

  /** The contain-fit scale is the largest uniform scale at which the whole
      image fits the container. */
  lemma FitIsLargest(container: Size, natural: Size, t: real)
    requires Known(natural)
    requires natural.width as real * t <= container.width as real
    requires natural.height as real * t <= container.height as real
    ensures t <= FitScale(container, natural)
  {
    var s := FitScale(container, natural);
    var iw := natural.width as real;
    var ih := natural.height as real;
    if natural.width as real * s == container.width as real {
      assert iw * t <= iw * s;
    } else {
      assert ih * t <= ih * s;
    }
  }

  /** The preview component's state: the natural size recorded by the image's
      `onLoad`, and the scale. */
  datatype PreviewState = PreviewState(imageSize: Size, scale: real)

  /** Before any image has loaded: no natural size, scale 1. */
  const InitialPreview: PreviewState := PreviewState(Size(0, 0), 1.0)

  /** The scale effect: recompute only when the container is mounted and both
      natural dimensions are non-zero; otherwise keep the previous scale. */
  function ScaleEffect(st: PreviewState, container: Option<Size>): (r: PreviewState)
    ensures r.imageSize == st.imageSize
    ensures container.Some? && Known(st.imageSize) ==> r.scale == FitScale(container.value, st.imageSize)
    ensures !(container.Some? && Known(st.imageSize)) ==> r.scale == st.scale
  {
    if container.Some? && st.imageSize.width != 0 && st.imageSize.height != 0 then
      st.(scale := FitScale(container.value, st.imageSize))
    else st
  }

  /** The image's `onLoad` records its natural size, then the effect runs. */
  function ImageLoaded(st: PreviewState, natural: Size, container: Option<Size>): PreviewState {
    ScaleEffect(st.(imageSize := natural), container)
  }

  /** A freshly loaded image whose natural size is known is drawn to fit:
      it never overflows the container, and it fills it on one axis. */
  lemma LoadedImageFits(st: PreviewState, natural: Size, container: Size)
    requires Known(natural)
    ensures var s := ImageLoaded(st, natural, Some(container)).scale;
            && natural.width as real * s <= container.width as real
            && natural.height as real * s <= container.height as real
            && (natural.width as real * s == container.width as real
                || natural.height as real * s == container.height as real)
  {
  }

  /** An image whose natural size reads as zero keeps whatever scale the
      previous image left behind, however different that image was. */
  lemma ZeroSizeKeepsStaleScale(st: PreviewState, natural: Size, container: Option<Size>)
    requires natural.width == 0 || natural.height == 0
    ensures ImageLoaded(st, natural, container).scale == st.scale
  {
  }

  /** A first image whose natural size reads as zero is drawn at the initial
      scale 1, unscaled, whatever the container. */
  lemma ZeroSizeFirstLoadUnscaled(natural: Size, container: Option<Size>)
    requires natural.width == 0 || natural.height == 0
    ensures ImageLoaded(InitialPreview, natural, container) == PreviewState(natural, 1.0)
  {
  }

  /** The detection box from its centre, in image pixels. */
  function CornerBox(p: Prediction): (r: Rect)
    ensures r.left + r.width / 2.0 == p.x && r.top + r.height / 2.0 == p.y
    ensures r.width == p.width && r.height == p.height
  {
    Rect(p.x - p.width / 2.0, p.y - p.height / 2.0, p.width, p.height)
  }

  function ScaleRect(r: Rect, s: real): Rect {
    Rect(r.left * s, r.top * s, r.width * s, r.height * s)
  }

  /** The `left`/`top`/`width`/`height` style of one overlay box. */
  function StyleRect(p: Prediction, scale: real): (r: Rect)
    ensures r == ScaleRect(CornerBox(p), scale)
  {
    Rect((p.x - p.width / 2.0) * scale, (p.y - p.height / 2.0) * scale, p.width * scale, p.height * scale)
  }

  /** The style is the detection box converted to its top-left corner and then
      scaled: its centre is the scaled centre of the detection. */
  lemma StyleIsScaledBox(p: Prediction, scale: real)
    ensures StyleRect(p, scale) == ScaleRect(CornerBox(p), scale)
    ensures StyleRect(p, scale).left + StyleRect(p, scale).width / 2.0 == p.x * scale
    ensures StyleRect(p, scale).top + StyleRect(p, scale).height / 2.0 == p.y * scale
  {
    var r := StyleRect(p, scale);
    assert r.left + r.width / 2.0 == (p.x - p.width / 2.0) * scale + p.width * scale / 2.0;
  }

  /** At scale 1 the style is exactly the centre-to-corner conversion. */
  lemma StyleAtUnitScale(p: Prediction)
    ensures StyleRect(p, 1.0) == CornerBox(p)
  {
  }

  /** What `transform: translate(-50%, -50%)` does to a box: it moves it up
      and left by half its own size. */
  function Translated(r: Rect): Rect {
    Rect(r.left - r.width / 2.0, r.top - r.height / 2.0, r.width, r.height)
  }

  /** The rectangle the browser draws for one detection. */
  function DrawnRect(p: Prediction, scale: real): (r: Rect)
    ensures r.left == (p.x - p.width) * scale && r.top == (p.y - p.height) * scale
    ensures r.width == p.width * scale && r.height == p.height * scale
  {
    Translated(StyleRect(p, scale))
  }

  /** The drawn box is centred on the detection's top-left corner rather than
      on its centre. */
  lemma DrawnCentreIsCorner(p: Prediction, scale: real)
    ensures var r := DrawnRect(p, scale);
            r.left + r.width / 2.0 == CornerBox(p).left * scale
            && r.top + r.height / 2.0 == CornerBox(p).top * scale
  {
  }

  /** One overlay: React key, style, and the caption's class and confidence. */
  datatype OverlayBox = OverlayBox(key: nat, style: Rect, classLabel: string, confidence: real)

  /** The preview renders either the upload placeholder or the image with its overlays. */
  datatype View = Placeholder | Shown(src: string, overlays: seq<OverlayBox>)

  /** `predictions?.map(...)`: one box per detection, in order. */
  function Boxes(ps: Option<seq<Prediction>>, scale: real): (bs: seq<OverlayBox>)
    ensures ps.None? ==> bs == []
    ensures ps.Some? ==> |bs| == |ps.value|
    ensures ps.Some? ==> forall k :: 0 <= k < |bs| ==>
              bs[k] == OverlayBox(k, StyleRect(ps.value[k], scale), ps.value[k].classLabel, ps.value[k].confidence)
  {
    match ps
    case None => []
    case Some(s) =>
      seq(|s|, k requires 0 <= k < |s| => OverlayBox(k, StyleRect(s[k], scale), s[k].classLabel, s[k].confidence))
  }

  /** The preview component's output for the current props and scale. */
  function Render(preview: Option<string>, predictions: Option<seq<Prediction>>, scale: real): (v: View)
    ensures v.Placeholder? <==> !Truthy(preview)
    ensures v.Shown? ==> v.src == preview.value && v.overlays == Boxes(predictions, scale)
  {
    if !Truthy(preview) then Placeholder else Shown(preview.value, Boxes(predictions, scale))
  }

  /** The overlays are one per detection, keyed by position, and a box's
      position depends on nothing but its detection and the scale. */
  lemma OverlaysFollowPredictions(preview: Option<string>, ps: seq<Prediction>, scale: real, k: nat)
    requires Truthy(preview) && k < |ps|
    ensures var v := Render(preview, Some(ps), scale);
            && |v.overlays| == |ps|
            && v.overlays[k].key == k
            && v.overlays[k].style == ScaleRect(CornerBox(ps[k]), scale)
  {
    StyleIsScaledBox(ps[k], scale);
  }

  // ---- Where the boxes belong: the corrected placement ----

  /** Where `object-contain` draws the image: scaled by the fit scale and
      centred in the container. */
  function ImageBox(container: Size, natural: Size): (r: Rect)
    requires Known(natural)
    ensures r.width == natural.width as real * FitScale(container, natural)
    ensures r.height == natural.height as real * FitScale(container, natural)
    ensures r.left >= 0.0 && r.top >= 0.0
    ensures r.left * 2.0 + r.width == container.width as real
    ensures r.top * 2.0 + r.height == container.height as real
  {
    var s := FitScale(container, natural);
    var w := natural.width as real * s;
    var h := natural.height as real * s;
    Rect((container.width as real - w) / 2.0, (container.height as real - h) / 2.0, w, h)
  }

  /** Scale by `s`, then shift by `(dx, dy)`. */
  function Affine(dx: real, dy: real, s: real, px: real, py: real): (real, real) {
    (dx + px * s, dy + py * s)
  }

  /** The on-screen position of image pixel `(px, py)`. */
  function MapPoint(container: Size, natural: Size, px: real, py: real): (real, real)
    requires Known(natural)
  {
    var b := ImageBox(container, natural);
    Affine(b.left, b.top, FitScale(container, natural), px, py)
  }

  /** The corrected overlay rectangle: the detection box carried by the same
      map that places the image's pixels. */
  function PlacedRect(p: Prediction, container: Size, natural: Size): Rect
    requires Known(natural)
  {
    var b := ImageBox(container, natural);
    var style := StyleRect(p, FitScale(container, natural));
    Rect(b.left + style.left, b.top + style.top, style.width, style.height)
  }

  lemma Distribute(a: real, b: real, s: real)
    ensures (a + b) * s == a * s + b * s
  {
  }

  /** An affine map carries a box's corners and centre to the corners and
      centre of the shifted, scaled box. */
  lemma AffineBox(dx: real, dy: real, s: real, c: Rect)
    ensures var r := Rect(dx + c.left * s, dy + c.top * s, c.width * s, c.height * s);
            && (r.left, r.top) == Affine(dx, dy, s, c.left, c.top)
            && (r.left + r.width, r.top + r.height) == Affine(dx, dy, s, c.left + c.width, c.top + c.height)
            && (r.left + r.width / 2.0, r.top + r.height / 2.0)
                 == Affine(dx, dy, s, c.left + c.width / 2.0, c.top + c.height / 2.0)
  {
    var r := Rect(dx + c.left * s, dy + c.top * s, c.width * s, c.height * s);
    assert (r.left, r.top) == Affine(dx, dy, s, c.left, c.top);
    assert (r.left + r.width, r.top + r.height) == Affine(dx, dy, s, c.left + c.width, c.top + c.height) by {
      Distribute(c.left, c.width, s);
      Distribute(c.top, c.height, s);
    }
    assert (r.left + r.width / 2.0, r.top + r.height / 2.0)
        == Affine(dx, dy, s, c.left + c.width / 2.0, c.top + c.height / 2.0) by {
      Distribute(c.left, c.width / 2.0, s);
      Distribute(c.top, c.height / 2.0, s);
    }
  }

  /** The corrected rectangle's corners and centre are the on-screen images of
      the detection's corners and centre. */
  lemma PlacedRectMapsBox(p: Prediction, container: Size, natural: Size)
    requires Known(natural)
    ensures var r := PlacedRect(p, container, natural);
            var c := CornerBox(p);
            && (r.left, r.top) == MapPoint(container, natural, c.left, c.top)
            && (r.left + r.width, r.top + r.height)
                 == MapPoint(container, natural, c.left + c.width, c.top + c.height)
            && (r.left + r.width / 2.0, r.top + r.height / 2.0) == MapPoint(container, natural, p.x, p.y)
  {
    PlacedRectIsAffine(p, container, natural);
    AffineBox(ImageBox(container, natural).left, ImageBox(container, natural).top,
              FitScale(container, natural), CornerBox(p));
  }

  /** The corrected rectangle is the detection box scaled by the fit scale and
      shifted by the image's margins. */
  lemma PlacedRectIsAffine(p: Prediction, container: Size, natural: Size)
    requires Known(natural)
    ensures var s := FitScale(container, natural);
            var b := ImageBox(container, natural);
            var c := CornerBox(p);
            PlacedRect(p, container, natural) == Rect(b.left + c.left * s, b.top + c.top * s, c.width * s, c.height * s)
  {
    StyleIsScaledBox(p, FitScale(container, natural));
  }

  /** A detection lying within the image is drawn within the image, hence
      within the container. */
  lemma PlacedRectInsideImage(p: Prediction, container: Size, natural: Size)
    requires Known(natural)
    requires var c := CornerBox(p);
             && 0.0 <= c.left && c.left + c.width <= natural.width as real
             && 0.0 <= c.top && c.top + c.height <= natural.height as real
    ensures var r := PlacedRect(p, container, natural);
            var b := ImageBox(container, natural);
            && b.left <= r.left && r.left + r.width <= b.left + b.width
            && b.top <= r.top && r.top + r.height <= b.top + b.height
  {
    var s := FitScale(container, natural);
    var c := CornerBox(p);
    StyleIsScaledBox(p, s);
    assert c.left * s >= 0.0;
    assert (c.left + c.width) * s <= natural.width as real * s;
    assert c.top * s >= 0.0;
    assert (c.top + c.height) * s <= natural.height as real * s;
  }

  /** As written, every detection with a positive width is drawn further left
      than where it belongs, by the letterbox margin plus half its width. */
  lemma DrawnLeftOfPlaced(p: Prediction, container: Size, natural: Size)
    requires Known(natural) && container.width > 0 && container.height > 0 && p.width > 0.0
    ensures var s := FitScale(container, natural);
            PlacedRect(p, container, natural).left - DrawnRect(p, s).left
              == ImageBox(container, natural).left + p.width * s / 2.0
    ensures PlacedRect(p, container, natural).left > DrawnRect(p, FitScale(container, natural)).left
  {
    var s := FitScale(container, natural);
    assert s > 0.0;
    assert p.width * s > 0.0;
  }

  /** A 100x100 image in a 200x100 container is centred with a 50-pixel margin
      on each side; a 20x20 detection at its centre belongs at left 90, but its
      style says 40 and the browser draws it at 30. */
  lemma LetterboxExample()
    ensures var container := Size(200, 100);
            var natural := Size(100, 100);
            var p := Prediction(50.0, 50.0, 20.0, 20.0, 0.9, "fire");
            && FitScale(container, natural) == 1.0
            && ImageBox(container, natural).left == 50.0
            && StyleRect(p, 1.0).left == 40.0
            && DrawnRect(p, 1.0).left == 30.0
            && PlacedRect(p, container, natural).left == 90.0
  {
    var container := Size(200, 100);
    var natural := Size(100, 100);
    assert FitScale(container, natural) == 1.0;
  }

  /** The preview with every box at its corrected place. */
  function RenderPlaced(preview: Option<string>, predictions: Option<seq<Prediction>>,
                        container: Size, natural: Size): (v: View)
    requires Known(natural)
    ensures v.Placeholder? <==> !Truthy(preview)
    ensures v.Shown? ==> |v.overlays| == (if predictions.Some? then |predictions.value| else 0)
    ensures v.Shown? && predictions.Some? ==> forall k :: 0 <= k < |v.overlays| ==>
              v.overlays[k].style == PlacedRect(predictions.value[k], container, natural)
  {
    if !Truthy(preview) then Placeholder
    else match predictions
      case None => Shown(preview.value, [])
      case Some(ps) =>
        Shown(preview.value, seq(|ps|, k requires 0 <= k < |ps| =>
          OverlayBox(k, PlacedRect(ps[k], container, natural), ps[k].classLabel, ps[k].confidence)))
  }
}
