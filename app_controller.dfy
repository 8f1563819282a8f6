/**
 * The controller of frontend/src/App.js: five state fields and the handlers
 * that update them, plus the endpoint selection. `handlePredict` suspends at
 * the `await` of the POST, so it is modelled as two steps: HandlePredict runs
 * up to the request, SettlePrediction runs the try/catch/finally once the
 * network outcome is known. The FileReader completion is the separate step
 * PreviewLoaded. The UI events go through the uploader's rules: the upload
 * zone exists only while there is no preview, and the buttons only with a
 * preview and while not loading.
 */
module App {
  import opened Wrappers
  import opened Prediction
  import opened ImageUploader

  const SelectFirstMessage: string := "Please select an image first"
  const GenericFailureMessage: string := "An error occurred during prediction. Please try again."
  const LocalApiUrl: string := "http://localhost:5000"
  const DeployedApiUrl: string := "http://4.145.123.52:5000"
  const PredictPath: string := "/api/predict"

  /** isLocalhost; a hostname of None stands for `window` being undefined. */
  predicate IsLocalhost(hostname: Option<string>)
  {
    hostname == Some("localhost") || hostname == Some("127.0.0.1")
  }

  /** API_URL: the build-time value if it is a non-empty string, else chosen by the page's host. */
  function ApiUrl(envApiUrl: Option<string>, hostname: Option<string>): (url: string)
    ensures url != ""
    ensures envApiUrl.Some? && envApiUrl.value != "" ==> url == envApiUrl.value
    ensures envApiUrl.None? || envApiUrl.value == "" ==>
      (url == LocalApiUrl <==> IsLocalhost(hostname)) && (url == DeployedApiUrl <==> !IsLocalhost(hostname))
  {
    if envApiUrl.Some? && envApiUrl.value != "" then envApiUrl.value
    else if IsLocalhost(hostname) then LocalApiUrl
    else DeployedApiUrl
  }

  /** How the awaited POST ended: a response body, or a rejection carrying the body's `error` field if any. */
  datatype NetworkOutcome = Responded(body: PredictionRecord) | Rejected(serverError: Option<string>)

  /** err.response?.data?.error || the generic message: an absent or empty server error falls back. */
  function FailureMessage(serverError: Option<string>): (message: string)
    ensures message != ""
    ensures serverError.Some? && serverError.value != "" ==> message == serverError.value
    ensures serverError.None? || serverError.value == "" ==> message == GenericFailureMessage
  {
    if serverError.Some? && serverError.value != "" then serverError.value else GenericFailureMessage
  }

  /**
   * The raw handlers (HandleImageSelect, HandlePredict, SettlePrediction,
   * PredictAndSettle, HandleReset) state the whole new state for any call. The
   * page reaches them only through the UI events PickFile, DropFile,
   * ClickAnalyze and ClickUploadNew, which keep Valid(); HandlePredict without
   * a preview, or HandleReset while loading, would not.
   */
  class Controller {
    var selectedImage: Option<File>
    var imagePreview: Option<string>
    var predictionResult: Option<PredictionRecord>
    var loading: bool
    var error: Option<string>
    const apiUrl: string

    /**
     * What the disabled buttons guarantee: while a request is in flight an
     * image is selected and its preview shown, so the upload zone is hidden.
     */
    ghost predicate Valid()
      reads this
    {
      loading ==> selectedImage.Some? && imagePreview.Some?
    }

    /**
     * The initial render: the useState initial values. API_URL is recomputed on
     * every render, always from the same build-time value and host, so it is a
     * constant of the controller.
     */
    constructor (envApiUrl: Option<string>, hostname: Option<string>)
      ensures selectedImage == None && imagePreview == None && predictionResult == None
      ensures !loading && error == None
      ensures apiUrl == ApiUrl(envApiUrl, hostname)
      ensures Valid()
    {
      selectedImage := None;
      imagePreview := None;
      predictionResult := None;
      loading := false;
      error := None;
      apiUrl := ApiUrl(envApiUrl, hostname);
    }

    /** handleImageSelect: store the file, clear error and result; the preview waits for the read. */
    method HandleImageSelect(file: File)
      requires Valid()
      modifies this
      ensures Valid()
      ensures selectedImage == Some(file) && error == None && predictionResult == None
      ensures imagePreview == old(imagePreview) && loading == old(loading)
    {
      selectedImage := Some(file);
      error := None;
      predictionResult := None;
    }

    /**
     * reader.onloadend after a successful read: the data URL becomes the
     * preview. readAsDataURL always yields a text starting with "data:", so the
     * preview is never the empty string, which the page would treat as absent.
     */
    method PreviewLoaded(dataUrl: string)
      requires Valid() && dataUrl != ""
      modifies this
      ensures Valid()
      ensures imagePreview == Some(dataUrl)
      ensures selectedImage == old(selectedImage) && predictionResult == old(predictionResult)
      ensures loading == old(loading) && error == old(error)
    {
      imagePreview := Some(dataUrl);
    }

    /**
     * handlePredict up to the await. Without an image it only sets the error and
     * posts nothing; otherwise it sets loading, clears the error and posts to
     * `{API_URL}/api/predict`.
     */
    method HandlePredict() returns (posted: Option<string>)
      modifies this
      ensures posted.Some? <==> old(selectedImage).Some?
      ensures old(selectedImage).None? ==> error == Some(SelectFirstMessage) && loading == old(loading)
      ensures old(selectedImage).Some? ==> posted == Some(apiUrl + PredictPath) && loading && error == None
      ensures selectedImage == old(selectedImage) && imagePreview == old(imagePreview)
      ensures predictionResult == old(predictionResult)
    {
      if selectedImage.None? {
        error := Some(SelectFirstMessage);
        return None;
      }
      loading := true;
      error := None;
      posted := Some(apiUrl + PredictPath);
    }

    /**
     * handlePredict after the await: the body becomes the result, or the error
     * message is set and the previous result stays; loading is cleared on
     * every outcome (the finally block).
     */
    method SettlePrediction(outcome: NetworkOutcome)
      modifies this
      ensures !loading && Valid()
      ensures outcome.Responded? ==> predictionResult == Some(outcome.body) && error == old(error)
      ensures outcome.Rejected? ==>
        error == Some(FailureMessage(outcome.serverError)) && predictionResult == old(predictionResult)
      ensures selectedImage == old(selectedImage) && imagePreview == old(imagePreview)
    {
      match outcome {
        case Responded(body) =>
          predictionResult := Some(body);
        case Rejected(serverError) =>
          error := Some(FailureMessage(serverError));
      }
      loading := false;
    }

    /**
     * The whole of handlePredict when nothing runs during the await: on success
     * the body is the result and no error is shown; on failure the message is
     * shown and the previous result stays; either way loading ends false.
     */
    method PredictAndSettle(outcome: NetworkOutcome) returns (posted: Option<string>)
      modifies this
      ensures posted.Some? <==> old(selectedImage).Some?
      ensures old(selectedImage).None? ==>
        error == Some(SelectFirstMessage) && loading == old(loading) && predictionResult == old(predictionResult)
      ensures old(selectedImage).Some? && outcome.Responded? ==>
        predictionResult == Some(outcome.body) && error == None && !loading
      ensures old(selectedImage).Some? && outcome.Rejected? ==>
        error == Some(FailureMessage(outcome.serverError)) && predictionResult == old(predictionResult) && !loading
      ensures selectedImage == old(selectedImage) && imagePreview == old(imagePreview)
    {
      posted := HandlePredict();
      if posted.Some? {
        SettlePrediction(outcome);
      }
    }

    /** handleReset: clear image, preview, result and error; loading is left alone. */
    method HandleReset()
      modifies this
      ensures selectedImage == None && imagePreview == None && predictionResult == None && error == None
      ensures loading == old(loading)
    {
      selectedImage := None;
      imagePreview := None;
      predictionResult := None;
      error := None;
    }

    /** A file picked in the upload zone; the alert, if any, is returned. */
    method PickFile(picked: Option<File>) returns (alert: Option<string>)
      requires Valid()
      modifies this
      ensures Valid()
      ensures !UploadZoneShown(old(imagePreview)) ==> alert == None && unchanged(this)
      ensures UploadZoneShown(old(imagePreview)) ==> match HandleFileChange(picked)
        case Forwarded(file) =>
          alert == None && selectedImage == Some(file) && error == None && predictionResult == None
          && imagePreview == old(imagePreview) && loading == old(loading)
        case Alerted(message) => alert == Some(message) && unchanged(this)
        case Ignored => alert == None && unchanged(this)
    {
      alert := None;
      if UploadZoneShown(imagePreview) {
        match HandleFileChange(picked)
        case Forwarded(file) => HandleImageSelect(file);
        case Alerted(message) => alert := Some(message);
        case Ignored =>
      }
    }

    /** A file dropped on the upload zone. */
    method DropFile(dropped: Option<File>)
      requires Valid()
      modifies this
      ensures Valid()
      ensures UploadZoneShown(old(imagePreview)) && HandleDrop(dropped).Forwarded? ==>
        selectedImage == dropped && error == None && predictionResult == None
        && imagePreview == old(imagePreview) && loading == old(loading)
      ensures !(UploadZoneShown(old(imagePreview)) && HandleDrop(dropped).Forwarded?) ==> unchanged(this)
    {
      if UploadZoneShown(imagePreview) {
        match HandleDrop(dropped)
        case Forwarded(file) => HandleImageSelect(file);
        case _ =>
      }
    }

    /** A click on Analyze; a disabled or absent button does nothing. */
    method ClickAnalyze() returns (posted: Option<string>)
      requires Valid()
      modifies this
      ensures Valid()
      ensures posted.Some? ==> ButtonsEnabled(old(imagePreview), old(loading)) && loading
      ensures posted.Some? ==> posted.value == apiUrl + PredictPath
      ensures !ButtonsEnabled(old(imagePreview), old(loading)) ==> posted == None && unchanged(this)
      ensures ButtonsEnabled(old(imagePreview), old(loading)) ==>
        (posted.Some? <==> old(selectedImage).Some?)
        && (posted.Some? ==> error == None)
        && (posted.None? ==> error == Some(SelectFirstMessage) && !loading)
        && selectedImage == old(selectedImage) && imagePreview == old(imagePreview)
        && predictionResult == old(predictionResult)
    {
      posted := None;
      if ButtonsEnabled(imagePreview, loading) {
        posted := HandlePredict();
      }
    }

    /** A click on Upload New Image; a disabled or absent button does nothing. */
    method ClickUploadNew()
      requires Valid()
      modifies this
      ensures Valid()
      ensures ButtonsEnabled(old(imagePreview), old(loading)) ==>
        selectedImage == None && imagePreview == None && predictionResult == None && error == None && !loading
      ensures !ButtonsEnabled(old(imagePreview), old(loading)) ==> unchanged(this)
    {
      if ButtonsEnabled(imagePreview, loading) {
        HandleReset();
      }
    }
  }

  /**
   * While a request is in flight no user event changes anything: the upload
   * zone is hidden and both buttons are disabled.
   */
  method InFlightIgnoresUserEvents(c: Controller, picked: Option<File>, dropped: Option<File>)
    requires c.Valid() && c.loading
    modifies c
    ensures unchanged(c)
  {
    var alert := c.PickFile(picked);
    c.DropFile(dropped);
    var posted := c.ClickAnalyze();
    c.ClickUploadNew();
  }

  /**
   * A failed re-prediction leaves the previous result on screen, under the
   * failure message; the request goes to the local server on localhost.
   */
  method FailedRepredictKeepsResult(file: File, dataUrl: string, first: PredictionRecord, serverError: Option<string>)
    returns (requests: seq<string>, shown: Option<PredictionRecord>, banner: Option<string>)
    requires IsImageType(file) && file.size <= MaxFileSize && dataUrl != ""
    ensures requests == [LocalApiUrl + PredictPath, LocalApiUrl + PredictPath]
    ensures shown == Some(first)
    ensures banner == Some(FailureMessage(serverError))
  {
    var app := new Controller(None, Some("localhost"));
    var alert := app.PickFile(Some(file));
    app.PreviewLoaded(dataUrl);
    var p1 := app.ClickAnalyze();
    app.SettlePrediction(Responded(first));
    var p2 := app.ClickAnalyze();
    app.SettlePrediction(Rejected(serverError));
    requests := [p1.value, p2.value];
    shown, banner := app.predictionResult, app.error;
  }

  /**
   * The preview read is not tied to the selection: a read that completes after
   * a reset shows a preview with no image selected, and Analyze then reports
   * that no image is selected and posts nothing.
   */
  method LateReadAfterReset(a: File, b: File, urlA: string, urlB: string)
    returns (posted: Option<string>, banner: Option<string>, preview: Option<string>)
    requires IsImageType(a) && a.size <= MaxFileSize && IsImageType(b) && b.size <= MaxFileSize
    requires urlA != "" && urlB != ""
    ensures posted == None
    ensures banner == Some(SelectFirstMessage)
    ensures preview == Some(urlB)
  {
    var app := new Controller(None, None);
    var alertA := app.PickFile(Some(a));
    var alertB := app.PickFile(Some(b));
    app.PreviewLoaded(urlA);
    app.ClickUploadNew();
    app.PreviewLoaded(urlB);
    posted := app.ClickAnalyze();
    banner, preview := app.error, app.imagePreview;
  }
}
