/** The analysis session shared by the main page and the upload section: the
    four pieces of component state, the handlers that change them, the
    submit pipeline of each variant with `FileReader` and `fetch` replaced by
    their possible outcomes, and the UI-level machine in which the Analyze and
    reset buttons only fire when they are enabled and shown. */
module Session {
  import opened Wrappers
  import opened Text
  import opened Ingest
  import opened Endpoint
  import opened Detection

  /** `{image, preview, isLoading, detectionResult}`; `null` is `None`. */
  datatype State = State(image: Option<File>, preview: Option<string>, isLoading: bool,
                         detectionResult: Option<Response>)

  const Initial: State := State(None, None, false, None)

  /** The Analyze button is enabled: `!(!image || isLoading)`. It is enabled
      exactly when clicking it would begin a submit. */
  predicate AnalyzeEnabled(s: State)
    ensures AnalyzeEnabled(s) <==> BeginSubmit(s) != s
  {
    s.image.Some? && !s.isLoading
  }

  /** The reset button is rendered: `preview || detectionResult`. Whenever it
      shows, there is a preview or a stored result for it to clear. */
  predicate ResetVisible(s: State)
    ensures ResetVisible(s) ==> s.preview.Some? || s.detectionResult.Some?
  {
    Truthy(s.preview) || s.detectionResult.Some?
  }

  /** A selected file passes both checks. */
  predicate Acceptable(f: File) {
    f.size <= MaxUploadBytes && IsImageType(f.mimeType)
  }

  /** The file input's change handler. Reading the preview is asynchronous
      and arrives later as `PreviewLoaded`. */
  function ImageUpload(s: State, file: Option<File>): (r: State)
    ensures r.preview == s.preview && r.isLoading == s.isLoading
    ensures r.detectionResult == s.detectionResult
    ensures file.Some? && Acceptable(file.value) ==> r.image == file
    ensures !(file.Some? && Acceptable(file.value)) ==> r == s
  {
    match file
    case None => s
    case Some(f) =>
      match Validate(f)
      case Failure(_) => s
      case Success(accepted) => s.(image := Some(accepted))
  }

  /** The preview reader's `onloadend`: `reader.result`, which is `null` when
      the read failed. */
  function PreviewLoaded(s: State, result: Option<string>): (r: State)
    ensures r.preview == result
    ensures r.image == s.image && r.isLoading == s.isLoading && r.detectionResult == s.detectionResult
  {
    s.(preview := result)
  }

  /** "Upload Another Image". */
  function ResetState(s: State): (r: State)
    ensures r.image.None? && r.preview.None? && r.detectionResult.None?
    ensures r.isLoading == s.isLoading
    ensures !AnalyzeEnabled(r) && !ResetVisible(r)
  {
    s.(image := None, preview := None, detectionResult := None)
  }

  /** What the submit-time `FileReader` delivers. */
  datatype ReadOutcome = ReadLoaded(dataUrl: string) | ReadFailed

  /** What `response.json()` delivers. */
  datatype Body = Json(value: Response) | Malformed

  /** What `fetch` delivers: a thrown error or a status with a body. */
  datatype HttpOutcome = Thrown | Replied(status: int, body: Body)

  /** `response.ok`. */
  predicate IsOk(status: int) {
    200 <= status <= 299
  }

  /** The request body: the base64 text, or a multipart form with one file field. */
  datatype RequestBody = Base64Text(text: string) | Multipart(field: string, file: File)

  datatype Request = Request(url: string, body: RequestBody, contentType: Option<string>)

  /** Why a started submit ends on the error path. */
  datatype SubmitError = EncodeFailed | Network | ServiceError(status: int) | BadBody | RewriteFailed

  /** The request a submit sent, if any, and how it ended. */
  datatype Attempt = Attempt(request: Option<Request>, outcome: Result<Response, SubmitError>)

  /** Which of the two components runs the session, with its settings. */
  datatype Page = MainPage(pageCfg: PageConfig) | UploadSection(sectionCfg: SectionConfig)

  /** `fetch`, then the `ok` check, then `response.json()`. */
  function Receive(http: HttpOutcome): (r: Result<Response, SubmitError>)
    ensures r.Success? <==> http.Replied? && IsOk(http.status) && http.body.Json?
    ensures r.Success? ==> r.value == http.body.value
    ensures http.Replied? && !IsOk(http.status) ==> r == Failure(ServiceError(http.status))
  {
    match http
    case Thrown => Failure(Network)
    case Replied(status, body) =>
      if !IsOk(status) then Failure(ServiceError(status))
      else match body
        case Malformed => Failure(BadBody)
        case Json(v) => Success(v)
  }

  /** The content type the main page declares for its base64 body. */
  const FormEncoded: string := "application/x-www-form-urlencoded"

  /** The main page's submit after the guard: read the file as a data URL,
      keep the payload after the first comma, post it, store the JSON. */
  function PageAttempt(cfg: PageConfig, read: ReadOutcome, http: HttpOutcome): (a: Attempt)
    ensures a.request.Some? <==> read.ReadLoaded? && Base64Payload(read.dataUrl).Some?
    ensures a.request.Some? ==>
              a.request.value == Request(PageUrl(cfg), Base64Text(Base64Payload(read.dataUrl).value), Some(FormEncoded))
    ensures a.request.None? ==> a.outcome == Failure(EncodeFailed)
    ensures a.request.Some? ==> a.outcome == Receive(http)
  {
    match read
    case ReadFailed => Attempt(None, Failure(EncodeFailed))
    case ReadLoaded(dataUrl) =>
      match Base64Payload(dataUrl)
      case None => Attempt(None, Failure(EncodeFailed))
      case Some(payload) =>
        Attempt(Some(Request(PageUrl(cfg), Base64Text(payload), Some(FormEncoded))), Receive(http))
  }

  /** The upload section's submit after the guard: post the file as form
      field `file`, check `ok`, parse, then apply the rewrite. */
  function SectionAttempt(cfg: SectionConfig, image: File, http: HttpOutcome): (a: Attempt)
    ensures a.request == Some(Request(SectionUrl(cfg), Multipart("file", image), None))
    ensures a.outcome.Success? <==> Receive(http).Success? && Rewrite(Receive(http).value).Success?
    ensures a.outcome.Success? ==> a.outcome.value == Rewrite(Receive(http).value).value
  {
    var request := Request(SectionUrl(cfg), Multipart("file", image), None);
    match Receive(http)
    case Failure(e) => Attempt(Some(request), Failure(e))
    case Success(v) =>
      match Rewrite(v)
      case Failure(_) => Attempt(Some(request), Failure(RewriteFailed))
      case Success(w) => Attempt(Some(request), Success(w))
  }

  function AttemptOn(page: Page, image: File, read: ReadOutcome, http: HttpOutcome): Attempt {
    match page
    case MainPage(cfg) => PageAttempt(cfg, read, http)
    case UploadSection(cfg) => SectionAttempt(cfg, image, http)
  }

  /** `handleSubmit` up to its first `await`: nothing without an image. */
  function BeginSubmit(s: State): (r: State)
    ensures s.image.None? ==> r == s
    ensures s.image.Some? ==> r == s.(isLoading := true)
  {
    if s.image.None? then s else s.(isLoading := true)
  }

  /** `handleSubmit` after its `await`s: the `try` stores a success, the
      `catch` stores nothing, and the `finally` clears the loading flag. */
  function FinishSubmit(s: State, outcome: Result<Response, SubmitError>): (r: State)
    ensures !r.isLoading
    ensures r.image == s.image && r.preview == s.preview
    ensures outcome.Failure? ==> r.detectionResult == s.detectionResult
    ensures outcome.Success? ==> r.detectionResult == Some(outcome.value)
  {
    match outcome
    case Failure(_) => s.(isLoading := false)
    case Success(v) => s.(detectionResult := Some(v), isLoading := false)
  }

  /** A submit that runs to completion with no other event in between. */
  function Submit(page: Page, s: State, read: ReadOutcome, http: HttpOutcome): (r: (State, Option<Request>))
    ensures s.image.None? ==> r == (s, None)
    ensures s.image.Some? ==> !r.0.isLoading && r.0.image == s.image && r.0.preview == s.preview
    ensures s.image.Some? ==>
              var a := AttemptOn(page, s.image.value, read, http);
              && r.1 == a.request
              && r.0.detectionResult == (if a.outcome.Success? then Some(a.outcome.value) else s.detectionResult)
  {
    if s.image.None? then (s, None)
    else
      var a := AttemptOn(page, s.image.value, read, http);
      (FinishSubmit(BeginSubmit(s), a.outcome), a.request)
  }

  /** On the main page a successful submit stores the service's answer
      exactly as parsed, and the announced count is its number of detections. */
  lemma MainPageStoresAnswer(cfg: PageConfig, s: State, dataUrl: string, status: int, v: Response)
    requires s.image.Some? && Base64Payload(dataUrl).Some? && IsOk(status)
    ensures var (r, req) := Submit(MainPage(cfg), s, ReadLoaded(dataUrl), Replied(status, Json(v)));
            && r.detectionResult == Some(v)
            && DetectionCount(r.detectionResult.value) == (if v.predictions.Some? then |v.predictions.value| else 0)
            && req == Some(Request(PageUrl(cfg), Base64Text(Base64Payload(dataUrl).value), Some(FormEncoded)))
  {
  }

  /** The two components store different confidences for the same reply:
      wherever the service reports a detection at a confidence other than
      0.8, the main page stores that confidence and the upload section
      stores 0.8 at the same position. */
  lemma ConfidencesDiffer(pageCfg: PageConfig, sectionCfg: SectionConfig, s: State, dataUrl: string,
                          status: int, v: Response, k: nat)
    requires s.image.Some? && Base64Payload(dataUrl).Some? && IsOk(status)
    requires v.predictions.Some? && k < |v.predictions.value|
    requires v.predictions.value[k].confidence != ForcedConfidence
    ensures var (main, _) := Submit(MainPage(pageCfg), s, ReadLoaded(dataUrl), Replied(status, Json(v)));
            var (section, _) := Submit(UploadSection(sectionCfg), s, ReadLoaded(dataUrl), Replied(status, Json(v)));
            && main.detectionResult.Some? && section.detectionResult.Some?
            && main.detectionResult.value.predictions.Some?
            && section.detectionResult.value.predictions.Some?
            && k < |main.detectionResult.value.predictions.value|
            && k < |section.detectionResult.value.predictions.value|
            && main.detectionResult.value.predictions.value[k].confidence == v.predictions.value[k].confidence
            && section.detectionResult.value.predictions.value[k].confidence == ForcedConfidence
            && main.detectionResult.value.predictions.value[k].confidence
               != section.detectionResult.value.predictions.value[k].confidence
  {
    RewriteKeepsBoxes(v);
  }

  /** On the upload section, an empty answer without an `image` makes the
      rewrite throw: the error path runs and the stored result stays. */
  lemma SectionMissingImage(cfg: SectionConfig, s: State, status: int, v: Response)
    requires s.image.Some? && IsOk(status) && NoPredictions(v) && v.image.None?
    ensures var (r, req) := Submit(UploadSection(cfg), s, ReadFailed, Replied(status, Json(v)));
            && r.detectionResult == s.detectionResult
            && !r.isLoading
            && req.Some?
  {
  }

  /** On either component, a reply with a non-2xx status takes the error
      path: the stored result stays and the loading flag ends cleared. */
  lemma FailedStatusKeepsResult(page: Page, s: State, dataUrl: string, status: int, body: Body)
    requires s.image.Some? && !IsOk(status)
    ensures var (r, _) := Submit(page, s, ReadLoaded(dataUrl), Replied(status, body));
            r.detectionResult == s.detectionResult && !r.isLoading
  {
  }

  /** Every event a user or the browser can cause. `PreviewRead` is the
      preview reader's completion; `Settle` is the end of an in-flight submit
      with the outcomes of its reader and request. */
  datatype Event =
    | ChooseFile(file: Option<File>)
    | PreviewRead(result: Option<string>)
    | ClickAnalyze
    | Settle(read: ReadOutcome, http: HttpOutcome)
    | ClickReset

  /** The component's state, the image captured by an in-flight submit, and
      every request sent so far. */
  datatype Machine = Machine(page: Page, ui: State, inFlight: Option<File>, sent: seq<Request>)

  function Start(page: Page): Machine {
    Machine(page, Initial, None, [])
  }

  /** One event. Disabled or hidden buttons do not fire; a settle with no
      submit in flight does not happen. */
  function Step(m: Machine, e: Event): (m': Machine)
    ensures m'.page == m.page
    ensures |m.sent| <= |m'.sent| <= |m.sent| + 1
    ensures m'.sent[..|m.sent|] == m.sent
    ensures |m'.sent| == |m.sent| + 1 ==> e.Settle? && m.inFlight.Some?
  {
    match e
    case ChooseFile(file) => m.(ui := ImageUpload(m.ui, file))
    case PreviewRead(result) => m.(ui := PreviewLoaded(m.ui, result))
    case ClickAnalyze =>
      if AnalyzeEnabled(m.ui) then m.(ui := BeginSubmit(m.ui), inFlight := m.ui.image) else m
    case Settle(read, http) =>
      if m.inFlight.None? then m
      else
        var a := AttemptOn(m.page, m.inFlight.value, read, http);
        var sent := if a.request.Some? then m.sent + [a.request.value] else m.sent;
        Machine(m.page, FinishSubmit(m.ui, a.outcome), None, sent)
    case ClickReset =>
      if ResetVisible(m.ui) then m.(ui := ResetState(m.ui)) else m
  }

  function Run(m: Machine, events: seq<Event>): Machine
    decreases |events|
  {
    if |events| == 0 then m else Run(Step(m, events[0]), events[1..])
  }

  /** The loading flag is exactly "a submit is in flight". */
  predicate Consistent(m: Machine) {
    m.ui.isLoading <==> m.inFlight.Some?
  }

  lemma StartConsistent(page: Page)
    ensures Consistent(Start(page))
    ensures |Start(page).sent| == 0 && !AnalyzeEnabled(Start(page).ui) && !ResetVisible(Start(page).ui)
  {
  }

  lemma StepConsistent(m: Machine, e: Event)
    requires Consistent(m)
    ensures Consistent(Step(m, e))
  {
  }

  /** The loading flag tracks the in-flight submit along every sequence of
      events from any consistent machine. */
  lemma {:induction false} RunConsistent(m: Machine, events: seq<Event>)
    requires Consistent(m)
    ensures Consistent(Run(m, events))
    decreases |events|
  {
    if |events| > 0 {
      StepConsistent(m, events[0]);
      RunConsistent(Step(m, events[0]), events[1..]);
    }
  }

  /** Single flight: while a submit is in flight, Analyze is disabled and a
      click on it changes nothing. */
  lemma SingleFlight(m: Machine)
    requires Consistent(m) && m.inFlight.Some?
    ensures Step(m, ClickAnalyze) == m
  {
  }

  /** A click on Analyze starts a submit exactly when the button is enabled,
      that is, when there is an image and nothing is loading. */
  lemma ClickStartsIffEnabled(m: Machine)
    requires Consistent(m)
    ensures Step(m, ClickAnalyze).inFlight.Some? <==> m.inFlight.Some? || (m.ui.image.Some? && !m.ui.isLoading)
    ensures Step(m, ClickAnalyze) != m <==> AnalyzeEnabled(m.ui)
  {
  }

  function Clicks(events: seq<Event>): nat
    decreases |events|
  {
    if |events| == 0 then 0
    else (if events[0].ClickAnalyze? then 1 else 0) + Clicks(events[1..])
  }

  function InFlightCount(m: Machine): nat {
    if m.inFlight.Some? then 1 else 0
  }

  /** At most one request per Analyze click, counting the one still in flight. */
  lemma {:induction false} RequestsPerClick(m: Machine, events: seq<Event>)
    ensures var m' := Run(m, events);
            |m'.sent| + InFlightCount(m') <= |m.sent| + InFlightCount(m) + Clicks(events)
    decreases |events|
  {
    if |events| > 0 {
      RequestsPerClick(Step(m, events[0]), events[1..]);
    }
  }

  /** From a fresh component, along any sequence of events, loading means a
      submit is in flight, and requests sent plus the one in flight never
      exceed the Analyze clicks. */
  lemma {:induction false} SessionFromStart(page: Page, events: seq<Event>)
    ensures Consistent(Run(Start(page), events))
    ensures |Run(Start(page), events).sent| + InFlightCount(Run(Start(page), events)) <= Clicks(events)
  {
    StartConsistent(page);
    RunConsistent(Start(page), events);
    RequestsPerClick(Start(page), events);
  }

  /** A reset does not cancel the submit in flight: its answer still lands,
      now beside an empty image and preview. */
  lemma ResetDoesNotCancel(m: Machine, read: ReadOutcome, http: HttpOutcome)
    requires Consistent(m) && m.inFlight.Some? && ResetVisible(m.ui)
    ensures var a := AttemptOn(m.page, m.inFlight.value, read, http);
            var m' := Step(Step(m, ClickReset), Settle(read, http));
            && m'.ui.image.None? && m'.ui.preview.None? && !m'.ui.isLoading
            && (a.outcome.Success? ==> m'.ui.detectionResult == Some(a.outcome.value))
  {
  }
}
