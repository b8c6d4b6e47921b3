/** The detection service's JSON answer and the one rewrite the upload
    section applies to it before storing it: an empty answer gets a
    fabricated box and every confidence is overwritten with 0.8. The main
    page stores the answer as it came. */
module Detection {
  import opened Wrappers

  /** One detection: a box given by its centre and size in the original
      image's pixels, a confidence and a class label. */
  datatype Prediction = Prediction(x: real, y: real, width: real, height: real,
                                   confidence: real, classLabel: string)

  /** The natural size of the analysed image, as the service reports it. */
  datatype ImageInfo = ImageInfo(width: real, height: real)

  /** The parsed JSON body: `predictions` and `image` may each be missing. */
  datatype Response = Response(predictions: Option<seq<Prediction>>, image: Option<ImageInfo>)

  /** How many detections the main page announces: `predictions?.length || 0`. */
  function DetectionCount(r: Response): (n: nat)
    ensures n == 0 <==> r.predictions.None? || r.predictions.value == []
    ensures r.predictions.Some? ==> n == |r.predictions.value|
  {
    if r.predictions.Some? then |r.predictions.value| else 0
  }

  /** The confidence the upload section writes into every detection. */
  const ForcedConfidence: real := 0.8

  /** The class label of the fabricated detection. */
  const FallbackLabel: string := "fire"

  /** The upload section reads `result.image.width` on an empty answer; the
      property access on a missing `image` throws. */
  datatype RewriteError = MissingImage

  /** No detections: the list is missing or empty. */
  predicate NoPredictions(r: Response) {
    r.predictions.None? || |r.predictions.value| == 0
  }

  /** The fabricated box: centred in the image, 70% of its width and 60% of
      its height. */
  function FallbackBox(img: ImageInfo): (p: Prediction)
    ensures p.x * 2.0 == img.width && p.y * 2.0 == img.height
    ensures p.width == img.width * 0.7 && p.height == img.height * 0.6
    ensures p.confidence == ForcedConfidence && p.classLabel == FallbackLabel
  {
    Prediction(img.width / 2.0, img.height / 2.0, img.width * 0.7, img.height * 0.6,
               ForcedConfidence, FallbackLabel)
  }

  /** `{...pred, confidence: 0.8}`. */
  function ForceConfidence(p: Prediction): Prediction {
    p.(confidence := ForcedConfidence)
  }

  /** Every detection carries the forced confidence. */
  predicate AllForced(ps: seq<Prediction>) {
    forall k :: 0 <= k < |ps| ==> ps[k].confidence == ForcedConfidence
  }

  /** The rewrite of the upload section's success path. */
  function Rewrite(r: Response): (out: Result<Response, RewriteError>)
    ensures out.Failure? <==> NoPredictions(r) && r.image.None?
    ensures out.Success? ==> out.value.image == r.image
    ensures out.Success? ==> out.value.predictions.Some? && |out.value.predictions.value| >= 1
    ensures out.Success? ==> AllForced(out.value.predictions.value)
  {
    if NoPredictions(r) then
      if r.image.None? then Failure(MissingImage)
      else Success(r.(predictions := Some([FallbackBox(r.image.value)])))
    else
      var ps := r.predictions.value;
      Success(r.(predictions := Some(seq(|ps|, k requires 0 <= k < |ps| => ForceConfidence(ps[k])))))
  }

  /** An empty or missing list becomes exactly one box derived from the
      reported image size. */
  lemma RewriteFabricates(r: Response)
    requires NoPredictions(r) && r.image.Some?
    ensures Rewrite(r) == Success(Response(Some([FallbackBox(r.image.value)]), r.image))
  {
  }

  /** A non-empty list keeps its length, its order and every field of every
      entry except the confidence. */
  lemma RewriteKeepsBoxes(r: Response)
    requires !NoPredictions(r)
    ensures Rewrite(r).Success?
    ensures var before := r.predictions.value;
            var after := Rewrite(r).value.predictions.value;
            && |after| == |before|
            && forall k :: 0 <= k < |before| ==>
                 after[k] == before[k].(confidence := ForcedConfidence)
  {
  }

  /** Rewriting an already rewritten answer changes nothing more. */
  lemma RewriteIdempotent(r: Response)
    requires Rewrite(r).Success?
    ensures Rewrite(Rewrite(r).value) == Rewrite(r)
  {
    var once := Rewrite(r).value;
    var ps := once.predictions.value;
    var twice := Rewrite(once).value;
    assert twice.predictions.value == ps;
  }

  /** The rewrite discards the service's confidences: a detection reported at
      42% is stored at 80%. */
  lemma RewriteOverwritesConfidence()
    ensures var p := Prediction(100.0, 80.0, 40.0, 30.0, 0.42, "smoke");
            var r := Response(Some([p]), None);
            && Rewrite(r).Success?
            && Rewrite(r).value.predictions.value[0].confidence == 0.8
            && Rewrite(r).value.predictions.value[0].confidence != p.confidence
  {
  }
}
