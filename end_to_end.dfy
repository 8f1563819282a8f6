/**
 * How the backend's replies meet the client: the upload the browser sends, the
 * way axios turns a reply into a resolved or rejected request, and what the
 * renderer then shows for the records the backend can produce.
 */
module EndToEnd {
  import opened Wrappers
  import opened Prediction
  import BackendApp
  import ImageUploader
  import App
  import ResultsDisplay

  /** The multipart body the client posts: the selected file under 'image', sent with its own name. */
  function UploadOf(file: ImageUploader.File): BackendApp.Request
  {
    BackendApp.Request(Some(file.name))
  }

  /**
   * axios resolves on a 2xx status and otherwise rejects with the reply body as
   * err.response.data. This mapping is exact for the replies PredictImage
   * produces, whose status is 200 exactly when the body is a record; a 2xx error
   * body, which axios would resolve with, never arises from it.
   */
  function ClientOutcome(reply: BackendApp.Reply): App.NetworkOutcome
  {
    if 200 <= reply.status < 300 && reply.body.ResultBody? then App.Responded(reply.body.record)
    else if reply.body.ErrorBody? then App.Rejected(Some(reply.body.message))
    else App.Rejected(None)
  }

  /**
   * Every record the backend can return carries a stage the renderer does not
   * recognise ("Early", "Intermediate", "Late" against "Early AMD" and
   * "Intermediate AMD"), so it is always shown as High Risk in the high colour.
   */
  lemma BackendStagesRenderHighRisk(inference: Inference)
    requires Predict(inference).Success?
    ensures var stage := Predict(inference).value.amdStage;
      ResultsDisplay.SeverityLevel(stage) == ResultsDisplay.HighLabel
      && ResultsDisplay.StatusColor(stage) == ResultsDisplay.HighColor
  {
    var stage := Predict(inference).value.amdStage;
    assert stage in StageLabels;
    assert stage != ResultsDisplay.EarlyStage && stage != ResultsDisplay.IntermediateStage by {
      assert |ResultsDisplay.EarlyStage| == 9 && |ResultsDisplay.IntermediateStage| == 16;
      assert |stage| == 5 || |stage| == 12 || |stage| == 4;
    }
  }

  /**
   * For a record from the backend the distribution has one bar per class, in
   * class order, and exactly one highlighted bar: the winning class's, filled
   * with the high-risk colour.
   */
  lemma BackendRecordHighlightsWinner(inference: Inference)
    requires Predict(inference).Success?
    ensures var items := ResultsDisplay.Distribution(Predict(inference).value);
      var k := ArgMax(inference.probabilities);
      && |items| == |inference.probabilities|
      && (forall i :: 0 <= i < |items| ==> (items[i].active <==> i == k))
      && items[k].fillColor == ResultsDisplay.HighColor
      && (forall i :: 0 <= i < |items| && i != k ==> items[i].fillColor == ResultsDisplay.InactiveFill)
  {
    RecordOfWinningClass(inference);
    PredictionKeyIsUnique(inference);
    BackendStagesRenderHighRisk(inference);
  }

  /**
   * Every backend rejection reaches the client as a rejected request whose
   * server error is the reply's message, and that message is shown verbatim:
   * the generic fallback never replaces a backend message.
   */
  lemma BackendErrorsShownVerbatim(req: BackendApp.Request, outcome: Result<PredictionRecord, string>)
    requires BackendApp.PredictImage(req, outcome).status != 200
    ensures var reply := BackendApp.PredictImage(req, outcome);
      && ClientOutcome(reply).Rejected?
      && App.FailureMessage(ClientOutcome(reply).serverError) == reply.body.message
  {
    BackendApp.ErrorRepliesCarryMessages(req, outcome);
  }

  /**
   * The client accepts any image/ MIME type, the backend only three
   * extensions: an image the client forwards under a name the backend refuses
   * ends with the file-type message in the error banner.
   */
  lemma ClientAcceptsWhatBackendRefuses(file: ImageUploader.File, outcome: Result<PredictionRecord, string>)
    requires ImageUploader.HandleFileChange(Some(file)).Forwarded?
    requires file.name != "" && !BackendApp.AllowedFile(file.name)
    ensures var reply := BackendApp.PredictImage(UploadOf(file), outcome);
      reply == BackendApp.Reply(BackendApp.ErrorBody(BackendApp.InvalidTypeMessage), 400)
      && App.FailureMessage(ClientOutcome(reply).serverError) == BackendApp.InvalidTypeMessage
  {
  }

  /** Any TIFF image passes the picker, and a name ending in ".tif" is refused by the backend. */
  lemma TiffScanRefused(stem: string, size: nat)
    requires size <= ImageUploader.MaxFileSize
    ensures ImageUploader.HandleFileChange(Some(ImageUploader.File(stem + ".tif", "image/tiff", size))).Forwarded?
    ensures !BackendApp.AllowedFile(stem + ".tif")
  {
    assert ImageUploader.StartsWith("image/tiff", "image/") by {
      assert "image/tiff"[..6] == "image/";
    }
    assert stem + "." + "tif" == stem + ".tif";
    var ext := BackendApp.Lower("tif");
    assert |ext| == 3 && ext[0] == 't';
    assert ext !in BackendApp.AllowedExtensions by {
      assert "png"[0] == 'p' && "jpg"[0] == 'j' && |"jpeg"| == 4;
    }
    BackendApp.AllowedFileByExtension(stem, "tif");
  }
}
