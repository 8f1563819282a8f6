# AMD classifier: validation, result assembly and client controller in Dafny

This project models the deterministic logic of a small fundus-image screening
app. A React client uploads a retinal photograph. A Flask backend checks the
upload, runs a three-class ResNet50 classifier (Early, Intermediate or Late
age-related macular degeneration) and returns a JSON record. The client then
renders that record.

The model has five parts, one Dafny module each, plus a shared `Wrappers`
module (`Option`, `Result`) and one cross-layer module:

- `BackendApp` (`backend_app.dfy`): the extension test `allowed_file` and the
  first-failure-wins checks of `predict_image`. The reply is a pure function
  of the request's `image` field (absent, or present with its filename) and of
  the abstract outcome of the save/preprocess/predict pipeline.
- `Prediction` (`prediction.dfy`): what `predict` does with the classifier's
  probability row. It takes the argmax (first maximum, as `torch.max`
  reports it) and looks the winner up in the three-entry label table. It then
  builds the `{prediction, amd_stage, confidence, probabilities}` record, or
  re-raises the failure with the prefix `Prediction error: `.
- `ImageUploader` (`image_uploader.dfy`): the picker path (MIME prefix, then
  the 16 MiB bound) and the drop path (MIME prefix only). Each handler either
  alerts, forwards the file, or does nothing.
- `App` (`app_controller.dfy`): the controller as a class with the five
  `useState` fields. `handlePredict` suspends at the `await`, so it is split
  there. `HandlePredict` runs up to the POST. `SettlePrediction` is the
  `try/catch/finally` continuation. The FileReader completion is its own step,
  `PreviewLoaded`. UI events go through the uploader's rendering rules: the
  upload zone exists only without a preview, and the buttons exist only with
  a preview and are disabled while loading. `Valid()` states what those rules
  guarantee: while a request is in flight, an image is selected and previewed.
- `ResultsDisplay` (`results_display.dfy`): the three-tier colour and severity
  mapping of `amd_stage`, and the distribution bars with the exact-equality
  highlight.
- `EndToEnd` (`end_to_end.dfy`): the backend's replies as the client sees
  them.

Notable behaviour the proofs establish:

- `.png` and `a.b.PNG` are accepted. `photo.png.exe`, `x.` and `.` are
  rejected.
- A dropped image over 16 MiB is forwarded. The picker refuses the same file.
- A failed re-prediction leaves the previous result on screen under the error
  banner.
- An empty server error string falls back to the generic message.
- The backend emits the labels `Early`, `Intermediate` and `Late`. The
  renderer recognises only `Early AMD` and `Intermediate AMD`. So every record
  the backend can produce renders as High Risk in `#dc2626`.

`handleReset` (frontend/src/App.js:68-73) clears the image, preview, result
and error, and leaves `loading` unchanged.

## Model

| member | source | states |
|---|---|---|
| `Prediction.ArgMax` | backend/utils/prediction.py:56 | the reported index is in range, no entry exceeds it, and every earlier entry is strictly smaller (first maximum on ties) |
| `Prediction.DecimalText` | backend/utils/prediction.py:75 | the text of a `KeyError` key is a non-empty run of decimal digits that denotes the key, with no leading zero (except for 0 itself), one digit exactly for keys below 10 |
| `Prediction.MissingKey` | backend/utils/prediction.py:62-69 | a lookup fails exactly when the row is longer than the label table; the failing key is an index of the row with no label, and it is the winner itself when the winner has no label, else 3, the first index past the table |
| `Prediction.Predict` | backend/utils/prediction.py:39-75 | success exactly for an inference that returned a row of at most three entries; every failure text starts with `Prediction error: `, and a raised detail is kept after it; on success `prediction` equals `amd_stage` and is one of Early, Intermediate, Late |
| `Prediction.RecordOfWinningClass` | backend/utils/prediction.py:56-69 | label and confidence are the winning index's, every probability is kept under its own label in index order, none exceeds the confidence, and the winning entry's key is the predicted label |
| `Prediction.PredictionKeyIsUnique` | backend/utils/prediction.py:62-69 | the record's keys are pairwise distinct and the only key equal to the prediction is the winning index's |
| `Prediction.ThreeClassKeys` | backend/utils/prediction.py:66-69 | a three-entry row always succeeds and its key set is exactly {Early, Intermediate, Late} |
| `BackendApp.Lower` | backend/app.py:40 | `lower()` keeps the length and maps each character on its own |
| `BackendApp.LastSegment` | backend/app.py:40 | the last `rsplit('.', 1)` piece is a dot-free suffix, and when shorter than the name it is preceded by a dot |
| `BackendApp.LastSegmentAfterDot` | backend/app.py:40 | the text after the last dot of `prefix + "." + ext` is `ext` whenever `ext` has no dot |
| `BackendApp.AllowedFile` | backend/app.py:38-40 | the name contains a '.' and the lower-cased text after its last '.' is png, jpg or jpeg; an allowed name therefore ends in a dot and three or four characters |
| `BackendApp.AllowedFileByExtension` | backend/app.py:40 | a name is allowed iff the text after its last dot, lower-cased, is png, jpg or jpeg, whatever precedes that dot |
| `BackendApp.AllowedFileCharacterised` | backend/app.py:38-40 | reference definition, both directions: allowed iff some position holds the last dot and the lower-cased text after it is an allowed extension; so a name without a dot is refused |
| `BackendApp.LastSegmentOfLower` | backend/app.py:40 | lower-casing commutes with taking the last segment |
| `BackendApp.AllowedFileOfLower` | backend/app.py:40 | a name is allowed iff its lower-cased form is |
| `BackendApp.AllowedFileIgnoresCase` | backend/app.py:40 | two names equal up to case are both allowed or both refused |
| `BackendApp.PngExtensionAccepted` | backend/app.py:40 | any name ending in `.png` is allowed, whatever precedes the dot (so `.png` itself) |
| `BackendApp.UpperCaseExtensionAccepted` | backend/app.py:40 | any name ending in `.PNG` is allowed (so `a.b.PNG`) |
| `BackendApp.EarlierExtensionIgnored` | backend/app.py:40 | any name ending in `.png.exe` is refused |
| `BackendApp.TrailingDotRefused` | backend/app.py:40 | any name ending in a dot is refused (so `x.` and `.`) |
| `BackendApp.Validate` | backend/app.py:57-73 | a request passes iff the image field is present with a non-empty allowed name; every rejection is 400 with an error body; a missing field always gets `No image file provided`; an empty name always gets `No file selected`; the file-type message comes exactly for non-empty names that are not allowed |
| `BackendApp.PipelineReply` | backend/app.py:75-102 | 200 with the record exactly when the pipeline succeeds; otherwise 500 with `Prediction failed: ` before the exception text |
| `BackendApp.PredictImage` | backend/app.py:49-102 | 200 exactly when the checks pass and the pipeline succeeds; the status is always 200, 400 or 500, and 200 exactly for a result body |
| `BackendApp.RejectionPrecedesPipeline` | backend/app.py:57-81 | a request failing a check gets the same rejection whatever the pipeline would have done, so nothing after the checks (saving included) influences it |
| `BackendApp.ErrorRepliesCarryMessages` | backend/app.py:57-102 | every error body has a non-empty message, and every 500 message starts with `Prediction failed: ` |
| `BackendApp.InferenceFailureReply` | backend/app.py:97-102 | an exception in inference reaches the client as 500 with `Prediction failed: Prediction error: ` before its text |
| `ImageUploader.HandleFileChange` | frontend/src/components/ImageUploader.js:7-22 | no file means nothing happens; a forward happens iff the type starts with `image/` and the size is at most 16 MiB (16 MiB itself passes), and the forwarded file is the picked one; a non-image gets the type alert whatever its size; only an oversized image gets the size alert |
| `ImageUploader.HandleDrop` | frontend/src/components/ImageUploader.js:24-30 | never alerts; forwards the dropped file unchanged iff its type starts with `image/`, with no size check |
| `ImageUploader.DropAndPickerDisagreement` | frontend/src/components/ImageUploader.js:7-30 | the two paths treat a file differently iff it is not an image or is over 16 MiB; an oversized image is refused by the picker and forwarded by a drop |
| `ImageUploader.PickerStricterThanDrop` | frontend/src/components/ImageUploader.js:7-30 | whatever the picker forwards, a drop forwards the same way |
| `ImageUploader.TypeCheckFirst` | frontend/src/components/ImageUploader.js:11-19 | an oversized PDF gets the type alert, and an image of exactly 16 MiB is forwarded |
| `ResultsDisplay.StatusColor` | frontend/src/components/ResultsDisplay.js:7-11 | the colour is the tier colour of the stage's tier |
| `ResultsDisplay.SeverityLevel` | frontend/src/components/ResultsDisplay.js:13-17 | the label is the tier label of the stage's tier |
| `ResultsDisplay.ColorAndSeverityAgree` | frontend/src/components/ResultsDisplay.js:7-17 | the mapping is total over three labels; High Risk exactly for stages other than `Early AMD` and `Intermediate AMD`; two stages get the same colour iff they get the same severity |
| `ResultsDisplay.Items` | frontend/src/components/ResultsDisplay.js:74-93 | one bar per entry in entry order, with that entry's label and probability; a bar is active iff its label equals the prediction exactly; active bars use the status colour and all others `#cbd5e1` |
| `ResultsDisplay.AtMostOneActive` | frontend/src/components/ResultsDisplay.js:77 | with distinct keys, at most one bar is active |
| `App.ApiUrl` | frontend/src/App.js:15-23 | never empty; a non-empty build-time value wins; otherwise the local server for `localhost` or `127.0.0.1` and the deployed address for any other host |
| `App.FailureMessage` | frontend/src/App.js:58-62 | never empty; a non-empty server error is shown as is; an absent or empty one gives the generic message |
| `App.Controller.constructor` | frontend/src/App.js:8-23 | image, preview, result and error start null and loading false; the endpoint is the one `API_URL` selects from the build-time value and the page's host, which do not change between renders |
| `App.Controller.HandleImageSelect` | frontend/src/App.js:25-36 | the image is the file, error and result are cleared, preview and loading are untouched, and the in-flight invariant is kept |
| `App.Controller.PreviewLoaded` | frontend/src/App.js:32-34 | a successful read sets the preview to its data URL, which is never empty, and leaves the other four fields as they were |
| `App.Controller.HandlePredict` | frontend/src/App.js:38-55 | without an image: error `Please select an image first`, no request, loading unchanged, nothing else changed; with one: a POST to `{API_URL}/api/predict`, loading set, error cleared, result kept |
| `App.Controller.SettlePrediction` | frontend/src/App.js:56-65 | a response body becomes the result; a failure sets the failure message and keeps the previous result; loading is false on every outcome |
| `App.Controller.PredictAndSettle` | frontend/src/App.js:38-66 | the whole of handlePredict: on success the body is the result and the error is null; on failure the message is shown and the old result kept; loading ends false whenever a request was made |
| `App.Controller.HandleReset` | frontend/src/App.js:68-73 | image, preview, result and error become null and loading is untouched; the new state depends only on loading, so a second reset changes nothing |
| `App.Controller.PickFile` | frontend/src/components/ImageUploader.js:7-22 | a pick in the upload zone applies the picker rule, forwarding to handleImageSelect or returning the alert with no state change; without the zone nothing happens |
| `App.Controller.DropFile` | frontend/src/components/ImageUploader.js:24-30 | a drop on the upload zone selects the file iff its type is an image type; otherwise nothing changes |
| `App.Controller.ClickAnalyze` | frontend/src/components/ImageUploader.js:63-66 | a click on the absent or disabled Analyze button changes nothing; an enabled one runs handlePredict up to the POST: it posts iff an image is selected, and a post clears the error |
| `App.Controller.ClickUploadNew` | frontend/src/components/ImageUploader.js:77-80 | a click on the absent or disabled Upload-New button changes nothing; an enabled one resets |
| `App.InFlightIgnoresUserEvents` | frontend/src/components/ImageUploader.js:38-83 | while loading, picking, dropping and both buttons leave the whole state unchanged |
| `App.FailedRepredictKeepsResult` | frontend/src/App.js:38-65 | after a successful prediction, a failed second one leaves the first result shown under the failure message; both requests go to `http://localhost:5000/api/predict` |
| `App.LateReadAfterReset` | frontend/src/App.js:25-36 | a preview read completing after a reset shows a preview with no image, and Analyze then posts nothing and shows `Please select an image first` |
| `EndToEnd.BackendStagesRenderHighRisk` | frontend/src/components/ResultsDisplay.js:7-17 | every `amd_stage` the backend can emit renders as `High Risk` in `#dc2626` |
| `EndToEnd.BackendRecordHighlightsWinner` | frontend/src/components/ResultsDisplay.js:74-88 | a backend record gives one bar per class with exactly one active bar, the winner's, filled `#dc2626`, and every other bar `#cbd5e1` |
| `EndToEnd.BackendErrorsShownVerbatim` | frontend/src/App.js:58-62 | every non-200 backend reply rejects the request and its message is shown as is, never the generic fallback |
| `EndToEnd.ClientAcceptsWhatBackendRefuses` | backend/app.py:70-73 | an image the picker forwards under a non-empty name the backend refuses gets 400 and the banner shows the file-type message |
| `EndToEnd.TiffScanRefused` | frontend/src/components/ImageUploader.js:11 | a TIFF image of at most 16 MiB passes the picker, and any name ending in `.tif` fails `allowed_file` |

## Left out

- `BackendApp.Lower`: lower-cases the ASCII letters only. Python's `lower()` covers all of Unicode. The only non-ASCII characters whose lower case contains an ASCII letter are U+212A (to `k`) and U+0130 (to `i` plus a combining dot). Neither can produce `png`, `jpg` or `jpeg`, so `allowed_file` decides the same way.
- `backend/utils/preprocessing.py`: CLAHE, resizing and normalisation are floating-point image numerics in OpenCV, PIL and torchvision. They are not part of this model.
- `load_model`, the device move, the forward pass and the softmax: foreign calls and float arithmetic. Their outcome is the `Inference` parameter. An empty row makes `torch.max` raise with its own text, so that case is `Raised`. Probabilities are `real`.
- Flask plumbing: routing, CORS, logging, `os.makedirs`, `file.save`, `os.remove`, the `/health` and `/api/model-info` endpoints. `secure_filename` is not part of this model, so neither is the `filepath` it yields. Save, preprocessing and inference are one abstract pipeline outcome.
- `MAX_CONTENT_LENGTH`: Flask's 413 reply for request bodies over 16 MiB is not modelled. The limit applies to the whole multipart body, not to the file alone, so besides an oversized dropped image, a picked image at or just under 16 MiB also meets it: `ImageUploader.HandleFileChange` lets exactly 16 MiB through on the client only.
- `jsonify` key order: Flask's JSON provider may sort keys. For the three stage labels the sorted order equals the class order, so the entry order of `probabilities` is unaffected.
- Client I/O: axios, FormData and FileReader. A failed file read also fires `onloadend`, with a null result, which clears the preview; `App.Controller.PreviewLoaded` models only a read that succeeds, so this way of losing the preview (even while a request is in flight) is not modelled. The POST is its URL plus a `NetworkOutcome` (a record body, or a rejection with the body's `error` string if any). `EndToEnd.ClientOutcome` maps a backend reply to one. Response bodies that are not prediction records, and `error` fields that are not strings, are not modelled.
- `ResultsDisplay.Items`: the entries are taken in the order of the `probabilities` sequence, and a label may repeat. JavaScript's `Object.entries` lists integer-like keys first, in ascending order, and a parsed JSON object holds each key once; neither is captured. The three stage labels the backend sends are not integer-like and are distinct (`Prediction.PredictionKeyIsUnique`), so their display is the same.
- Concurrency: handlers run atomically, and predict is split only at its `await`. Scheduling of callbacks is the order in which methods are called. A stale response after a reset cannot be reached through the disabled buttons, and it is not modelled through direct handler calls either.
- Presentation: the `alert()` popups are returned messages. Not modelled: JSX and CSS layout, the error banner markup, the static medical disclaimer, `handleDragOver`, the `toFixed` percentages, the SVG gauge arithmetic, and the report date.
