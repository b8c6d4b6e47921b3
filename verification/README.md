# Fire detection: upload session, response rewrite and overlay geometry

A Dafny model of the only logic in a React front end that sends a photo to a
hosted object-detection service (Roboflow) and draws the returned boxes over
the photo. The model has three parts.

- **The analysis session** (`session.dfy`, with `ingest.dfy`, `endpoint.dfy`
  and `text.dfy`). Both `src/pages/Index.tsx` (the main page) and
  `src/components/UploadSection.tsx` (the upload section) keep the same four
  pieces of state: `image`, `preview`, `isLoading` and `detectionResult`.
  Both run the same handlers:
  - file selection: a 5 MiB size check, then an `image/` type check;
  - the preview reader's completion;
  - submit;
  - reset.
  The two submits differ:
  - The main page reads the file as a data URL and takes `split(',')[1]` as
    the base64 payload. It posts that payload to `…/model?api_key=key` and
    stores the JSON as received.
  - The upload section posts the file as multipart field `file` to
    `…/model/version?api_key=key&confidence=75&overlap=50`. It rewrites the
    JSON before storing it.
  `FileReader` and `fetch` become inputs that list their possible outcomes.
  The UI-level `Machine` fires the Analyze and reset buttons only when they
  are enabled and shown. Its invariant is "loading exactly when a submit is
  in flight", so at most one request is in flight.
- **The response rewrite** (`detection.dfy`, `UploadSection.tsx:79-95`).
  - A missing or empty `predictions` list becomes one fabricated "fire" box
    at confidence 0.8. The box's size comes from `result.image`, and the
    rewrite throws when `result.image` is missing.
  - A non-empty list keeps every box but has its confidence forced to 0.8.
  - The model follows the code, so it pins this down exactly. It also proves
    that, for the same reply, wherever the service reports a confidence other
    than 0.8, the main page stores that confidence and the upload section
    stores 0.8 (`Session.ConfidencesDiffer`).
- **The overlay geometry** (`overlay.dfy`, `src/components/ImagePreview.tsx`).
  - The component keeps a scale, which starts at 1. It is recomputed as
    `min(cw/iw, ch/ih)` only when the container is mounted and both natural
    dimensions are non-zero.
  - Each detection gets the style `left = (x - w/2)·s`, `top = (y - h/2)·s`,
    `width = w·s`, `height = h·s`.
  - The style also carries `translate(-50%, -50%)`, so the browser draws the
    box shifted by half its size once more.
  - Arithmetic uses exact `real` numbers.

Behaviour worth knowing, which the model keeps as the code has it:

- The upload section fabricates a box and forces confidences to 0.8, where
  the main page passes the service's values through.
- When a natural dimension reads as zero, the scale keeps its previous value
  (1 for the first image), rather than producing no overlay.
- Accepting a new file does not clear a previous `detectionResult`, and it
  does not clear the old preview until the new one is read.
- Reset does not cancel a request in flight. Its answer still lands after the
  reset (`Session.ResetDoesNotCancel`).
- `preview` is tested for JavaScript truthiness, so an empty string counts as
  no preview.

## Model

| member | source | states |
|---|---|---|
| Text.StartsWith | src/pages/Index.tsx:54 | `startsWith` holds exactly when the prefix fits and equals the string's first characters |
| Text.SplitJoin | src/pages/Index.tsx:85 | the pieces `split(',')` produces join back, with commas, into the original data URL |
| Text.JoinSplit | src/pages/Index.tsx:85 | splitting undoes joining when no piece holds the separator |
| Ingest.Validate | src/pages/Index.tsx:45-61 | a file is accepted iff it is at most 5 MiB and its type starts with `image/`; it is "too large" iff it exceeds 5 MiB, whatever its type; it is "invalid file type" iff it is within the limit and its type does not start with `image/` |
| Ingest.SizeBoundary | src/pages/Index.tsx:45 | exactly 5 MiB passes the size check, one byte more fails it |
| Ingest.Base64Payload | src/pages/Index.tsx:85-87 | a payload, when present, is non-empty, comma-free and strictly shorter than the data URL |
| Ingest.PayloadBetweenCommas | src/pages/Index.tsx:85-87 | for every string with a comma, the payload is the text between the first and second comma, and absent when that text is empty |
| Ingest.PayloadNeedsComma | src/pages/Index.tsx:85-87 | a data URL without a comma yields no payload, so the submit fails |
| Ingest.PayloadOfDataUrl | src/pages/Index.tsx:82-91 | round trip: the payload of `data:<type>;base64,<data>` is `<data>` |
| Endpoint.PageUrl | src/pages/Index.tsx:93-94 | the main page's URL is the reference encoding of path `https://detect.roboflow.com/<model>` with the single pair `api_key=<key>` |
| Endpoint.SectionUrl | src/components/UploadSection.tsx:65 | the upload section's URL is the reference encoding of path `…/<model>/<version>` with the pairs `api_key=<key>`, `confidence=75`, `overlap=50`, in that order |
| Endpoint.PageUrlMeaning | src/pages/Index.tsx:93-94 | the main page's URL reads as path `https://detect.roboflow.com/<model>` with the single parameter `api_key=<key>` |
| Endpoint.SectionUrlMeaning | src/components/UploadSection.tsx:65 | the upload section's URL reads as path `…/<model>/<version>` with `api_key`, `confidence=75`, `overlap=50` in that order |
| Endpoint.ParseEncoded | src/components/UploadSection.tsx:65 | reading back a URL built as `path?n=v&…` gives the same path and parameters, in order |
| Detection.DetectionCount | src/pages/Index.tsx:114 | the announced count is the list's length, and 0 exactly when the list is missing or empty |
| Detection.FallbackBox | src/components/UploadSection.tsx:81-88 | the fabricated box is centred in the image, 70% of its width and 60% of its height, class "fire", confidence 0.8 |
| Detection.Rewrite | src/components/UploadSection.tsx:80-95 | it throws iff the list is missing or empty and `image` is absent; otherwise the list is non-empty, every confidence is 0.8 and `image` is kept |
| Detection.RewriteFabricates | src/components/UploadSection.tsx:80-88 | a missing or empty list becomes exactly one fabricated box |
| Detection.RewriteKeepsBoxes | src/components/UploadSection.tsx:89-95 | a non-empty list keeps its length, order and every field except confidence |
| Detection.RewriteIdempotent | src/components/UploadSection.tsx:80-95 | rewriting twice is rewriting once |
| Detection.RewriteOverwritesConfidence | src/components/UploadSection.tsx:90-94 | a detection reported at 0.42 is stored at 0.8 |
| Session.AnalyzeEnabled | src/pages/Index.tsx:205 | the Analyze button is enabled (`!(!image \|\| isLoading)`) exactly when clicking it would begin a submit |
| Session.ResetVisible | src/pages/Index.tsx:220 | the reset button shows when the preview is truthy or a result is stored; whenever it shows, there is a preview or a result to clear |
| Session.ImageUpload | src/pages/Index.tsx:42-70 | an acceptable file becomes `image`; anything else (no file, too large, wrong type) changes nothing; preview, loading flag and stored result are never touched (UploadSection.tsx:23-51 is the same handler) |
| Session.PreviewLoaded | src/pages/Index.tsx:65-67 | the preview becomes the reader's result, `null` on a failed read, and nothing else changes |
| Session.ResetState | src/pages/Index.tsx:131-135 | reset clears image, preview and result, keeps the loading flag, and leaves Analyze disabled and the reset button hidden |
| Session.Receive | src/pages/Index.tsx:104-108 | a request succeeds iff it returned, with a 2xx status and a JSON body, and the result is that body; a non-2xx status is a service error carrying the status |
| Session.PageAttempt | src/pages/Index.tsx:80-110 | a request is sent iff the reader delivered a data URL with a payload; it is a form-encoded POST of that payload to the page URL; without one the attempt fails before any request |
| Session.SectionAttempt | src/components/UploadSection.tsx:57-97 | the multipart request is always sent; the attempt succeeds iff the reply is usable and the rewrite does not throw, and then yields the rewritten answer |
| Session.BeginSubmit | src/pages/Index.tsx:77-79 | without an image, submit does nothing; otherwise it only raises the loading flag |
| Session.FinishSubmit | src/pages/Index.tsx:110-125 | the loading flag ends cleared; a failure keeps the stored result, a success replaces it; image and preview are kept |
| Session.Submit | src/components/UploadSection.tsx:53-113 | a submit without an image sends nothing and changes nothing; otherwise it ends not loading, with the attempt's request sent and its answer stored only on success |
| Session.MainPageStoresAnswer | src/pages/Index.tsx:104-115 | on the main page a successful submit stores the parsed answer unmodified and announces its number of detections |
| Session.ConfidencesDiffer | src/components/UploadSection.tsx:89-95 | for the same successful reply, at every position where the service reports a confidence other than 0.8, the main page stores the reported confidence and the upload section stores 0.8, so the two differ |
| Session.SectionMissingImage | src/components/UploadSection.tsx:80-112 | an empty answer without `image` takes the error path: the stored result stays and loading ends |
| Session.FailedStatusKeepsResult | src/components/UploadSection.tsx:70-74 | on either component a non-2xx reply keeps the stored result and clears loading |
| Session.Step | src/pages/Index.tsx:203-228 | each event keeps every request already sent and sends at most one more, and only a settle of an in-flight submit sends one |
| Session.StepConsistent | src/pages/Index.tsx:205 | every event preserves "loading exactly when a submit is in flight" |
| Session.RunConsistent | src/pages/Index.tsx:76-126 | that invariant holds after any sequence of events |
| Session.SingleFlight | src/pages/Index.tsx:205 | while a submit is in flight, a click on Analyze changes nothing |
| Session.ClickStartsIffEnabled | src/pages/Index.tsx:205 | a click changes the session iff Analyze is enabled, i.e. there is an image and nothing is loading |
| Session.RequestsPerClick | src/pages/Index.tsx:203-205 | requests sent plus the one in flight never exceed the Analyze clicks |
| Session.SessionFromStart | src/pages/Index.tsx:32-35 | from a freshly mounted component (no image, no preview, not loading, no result), along any events, loading means a submit is in flight and requests sent plus the one in flight never exceed the Analyze clicks |
| Session.ResetDoesNotCancel | src/pages/Index.tsx:123-135 | a reset during a submit clears image and preview, yet the submit's answer still lands afterwards |
| Overlay.FitScale | src/components/ImagePreview.tsx:42-46 | the scaled image fits the container on both axes and fills it on at least one |
| Overlay.FitIsLargest | src/components/ImagePreview.tsx:44-46 | every uniform scale at which the image fits is at most the computed scale |
| Overlay.ScaleEffect | src/components/ImagePreview.tsx:40-48 | the scale is recomputed iff the container is mounted and both natural dimensions are non-zero, and kept otherwise |
| Overlay.LoadedImageFits | src/components/ImagePreview.tsx:40-71 | after an image with known size loads into a mounted container, it is drawn to fit |
| Overlay.ZeroSizeKeepsStaleScale | src/components/ImagePreview.tsx:41 | an image whose natural size reads as zero inherits the previous image's scale |
| Overlay.ZeroSizeFirstLoadUnscaled | src/components/ImagePreview.tsx:36-48 | a first image whose natural size reads as zero keeps the initial scale 1, whatever the container |
| Overlay.StyleRect | src/components/ImagePreview.tsx:74-77 | the box style is the detection box converted from centre to top-left corner, then scaled by the scale |
| Overlay.StyleIsScaledBox | src/components/ImagePreview.tsx:74-77 | the style is the centre-to-corner box scaled by the scale, and its centre is the scaled detection centre |
| Overlay.StyleAtUnitScale | src/components/ImagePreview.tsx:74-77 | at scale 1 the style equals the centre-to-corner conversion of the raw box |
| Overlay.DrawnRect | src/components/ImagePreview.tsx:84-88 | after `translate(-50%,-50%)` the drawn top-left is `((x - w)·s, (y - h)·s)` and the size is `(w·s, h·s)` |
| Overlay.DrawnCentreIsCorner | src/components/ImagePreview.tsx:84-88 | the drawn box is centred on the detection's scaled top-left corner, not on its centre |
| Overlay.Boxes | src/components/ImagePreview.tsx:73-96 | one overlay per detection, in order, keyed by position, none when the list is absent |
| Overlay.Render | src/components/ImagePreview.tsx:50-73 | the placeholder renders iff the preview is falsy; otherwise the image and its overlays |
| Overlay.OverlaysFollowPredictions | src/components/ImagePreview.tsx:67-77 | each overlay's position depends only on its detection and the scale, with no letterbox offset |
| Overlay.ImageBox | src/components/ImagePreview.tsx:67 | `object-contain` draws the image at its fitted size (natural size times the fit scale), centred, leaving equal non-negative margins on each axis |
| Overlay.PlacedRectMapsBox | src/components/ImagePreview.tsx:74-88 | the corrected rectangle's corners and centre are the on-screen images of the detection's corners and centre |
| Overlay.PlacedRectInsideImage | src/components/ImagePreview.tsx:67-77 | a detection inside the image is drawn, in corrected placement, inside the drawn image |
| Overlay.DrawnLeftOfPlaced | src/components/ImagePreview.tsx:74-88 | as written, every box of positive width is drawn left of its corrected place, by the margin plus half its width |
| Overlay.LetterboxExample | src/components/ImagePreview.tsx:63-75 | a 100x100 image in a 200x100 container: the style says left 40, the box is drawn at 30, it belongs at 90 |
| Overlay.RenderPlaced | src/components/ImagePreview.tsx:73-96 | the corrected view: the placeholder iff the preview is falsy, otherwise one overlay per detection at its corrected place |

## Findings

| source | as written | input that shows it | evidently intended | confidence | as-written member | corrected member |
|---|---|---|---|---|---|---|
| src/components/ImagePreview.tsx:84-88 | `left`/`top` already hold the box's top-left corner, and `translate(-50%, -50%)` shifts the box up and left by half its size again | any detection with positive width, e.g. a 20x20 box at (50, 50) at scale 1: style left 40, drawn left 30 | the drawn box covers the detection (its centre at the detection's centre) | medium (not executed) | Overlay.DrawnLeftOfPlaced | Overlay.PlacedRectMapsBox |
| src/components/ImagePreview.tsx:67-75 | the image is `object-contain` (centred with margins), but box positions get no margin offset | a 100x100 image in a 200x100 container has a 50-pixel margin; the box centred at (50, 50) should start at 90 | boxes are placed by the same map as the image's pixels | medium (not executed) | Overlay.LetterboxExample | Overlay.PlacedRectInsideImage |

`Overlay.PlacedRect` is the corrected placement. `Overlay.RenderPlaced` renders
with it. `Overlay.Render` stays the model of the component as written.

## Left out

- Toasts, `console` output, JSX markup and CSS classes are presentation only.
  The caption's `toFixed(1)` and the results list's `toFixed(2)` are
  float-to-string formatting.
- `FileReader`, `fetch`, `response.json()` and `response.text()` are
  asynchronous I/O. They become the `ReadOutcome`, `HttpOutcome` and `Body`
  inputs. The base64 encoding done by the reader and the multipart encoding
  done by `FormData` are not modelled; the model keeps only their inputs and
  outputs.
- The preview reader's completion (`PreviewRead`) may arrive at any time, so
  a stale completion is covered. The model does not track which reader is
  outstanding.
- React's render scheduling is not modelled. Each handler runs atomically.
  The scale effect runs when an image loads or when the container mounts.
  The code never re-measures the container on resize, and neither does the
  model.
- A JSON body that is not an object (`null`, a number) is not modelled.
  Neither are `predictions` that are not an array, or an `image` without
  `width`/`height`, which gives `NaN` rather than a throw.
- Floating point is not modelled: scale and box arithmetic use exact reals.
- Endpoint.PageUrlMeaning: proved only for a model that is `PathText` and a
  key that is `Plain`. The template literal does not percent-encode, and
  the URL parser rewrites some characters. A `PathText` value has no `?`,
  `#`, `%`, `\`, `.`, space or control character. A `Plain` value has no
  `?`, `&`, `=`, `#`, `%`, `+`, space or control character. Other values
  change how the URL reads.
- Endpoint.SectionUrlMeaning: the same restriction, with the version
  `PathText` as well.
- Endpoint.ParseUrl does no URL normalisation: it neither removes tabs and
  newlines, nor reads `\` as `/`, nor resolves `.` and `..` segments. It
  also does no fragment handling and no percent-decoding. It is the
  service's reading of a URL only for a `PathText` path and `Plain` names and
  values, which is why the lemmas above require them.
- The hard-coded API keys and model identifiers are configuration. They
  become `PageConfig` and `SectionConfig` parameters.
- The Supabase client, the auth forms, the results list, navigation, footer,
  FAQ, feature cards, hero, metrics, dataset info, chart, spinner and the app
  shell are not part of this model. They are static UI, routing or network
  setup with no logic of the core.
