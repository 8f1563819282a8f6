/**
 * The request validation of backend/app.py: the file-extension test
 * `allowed_file` and the first-failure-wins chain of `predict_image`, which
 * maps each outcome to a JSON body and an HTTP status. Saving the upload,
 * preprocessing and inference are one abstract pipeline step whose outcome is
 * a parameter: the record it produced, or the text of the exception it raised.
 */
module BackendApp {
  import opened Wrappers
  import opened Prediction

  /** ALLOWED_EXTENSIONS */
  const AllowedExtensions: set<string> := {"png", "jpg", "jpeg"}

  const NoImageMessage: string := "No image file provided"
  const NoFileSelectedMessage: string := "No file selected"
  const InvalidTypeMessage: string := "Invalid file type. Allowed: png, jpg, jpeg"
  const FailurePrefix: string := "Prediction failed: "

  /** str.lower() on one character, for the ASCII letters (see README for the rest of Unicode). */
  function LowerChar(c: char): char
  {
    if 'A' <= c <= 'Z' then (c as int - 'A' as int + 'a' as int) as char else c
  }

  /** str.lower() */
  function Lower(s: string): (t: string)
    ensures |t| == |s|
    ensures forall i :: 0 <= i < |s| ==> t[i] == LowerChar(s[i])
  {
    if s == [] then [] else Lower(s[..|s| - 1]) + [LowerChar(s[|s| - 1])]
  }

  /**
   * The last element of s.rsplit('.', 1): the text after the last '.', or the
   * whole string when it has no '.'.
   */
  function LastSegment(s: string): (seg: string)
    ensures '.' !in seg
    ensures |seg| <= |s| && seg == s[|s| - |seg|..]
    ensures |seg| < |s| ==> s[|s| - |seg| - 1] == '.'
  {
    if s == [] || s[|s| - 1] == '.' then []
    else LastSegment(s[..|s| - 1]) + [s[|s| - 1]]
  }

  /**
   * allowed_file(filename). An allowed name ends in a dot followed by three or
   * four characters, so it is at least four characters long.
   */
  predicate AllowedFile(filename: string)
    ensures AllowedFile(filename) ==>
      var n := |LastSegment(filename)|;
      3 <= n <= 4 && n < |filename| && filename[|filename| - n - 1] == '.'
  {
    '.' in filename && Lower(LastSegment(filename)) in AllowedExtensions
  }

  /** The only dot-free suffix that follows a dot is the text after the last dot. */
  lemma LastSegmentAfterDot(prefix: string, ext: string)
    requires '.' !in ext
    ensures LastSegment(prefix + "." + ext) == ext
  {
    var s := prefix + "." + ext;
    assert s[|prefix|] == '.';
    assert forall j :: |prefix| < j < |s| ==> s[j] == ext[j - |prefix| - 1];
  }

  /**
   * allowed_file looks only at the text after the last dot: a name ending in
   * '.' followed by a dot-free `ext` is allowed exactly when `ext` lower-cased
   * is png, jpg or jpeg, whatever comes before.
   */
  lemma AllowedFileByExtension(prefix: string, ext: string)
    requires '.' !in ext
    ensures AllowedFile(prefix + "." + ext) <==> Lower(ext) in AllowedExtensions
  {
    LastSegmentAfterDot(prefix, ext);
    assert (prefix + "." + ext)[|prefix|] == '.';
  }

  /** Position i of filename holds a dot, the last one, and the text after it is an allowed extension. */
  predicate ExtensionDotAt(filename: string, i: int)
  {
    0 <= i < |filename| && filename[i] == '.' && '.' !in filename[i + 1..]
    && Lower(filename[i + 1..]) in AllowedExtensions
  }

  /**
   * A reference definition: a filename is allowed iff some position holds its
   * last dot and the text after that dot, lower-cased, is an allowed extension.
   * In particular a name without a dot is never allowed.
   */
  lemma AllowedFileCharacterised(filename: string)
    ensures AllowedFile(filename) <==> exists i :: ExtensionDotAt(filename, i)
  {
    if AllowedFile(filename) {
      var seg := LastSegment(filename);
      assert |seg| < |filename|;
      var i := |filename| - |seg| - 1;
      assert filename[i + 1..] == seg;
      assert ExtensionDotAt(filename, i);
    }
    if i :| ExtensionDotAt(filename, i) {
      assert filename == filename[..i] + "." + filename[i + 1..];
      AllowedFileByExtension(filename[..i], filename[i + 1..]);
    }
  }

  lemma LowerSnoc(s: string, c: char)
    ensures Lower(s + [c]) == Lower(s) + [LowerChar(c)]
  {
    assert (s + [c])[..|s|] == s;
  }

  /** Lower-casing keeps the positions of the dots, so the last segment of the lower-cased name is the lower-cased last segment. */
  lemma {:induction false} LastSegmentOfLower(s: string)
    ensures LastSegment(Lower(s)) == Lower(LastSegment(s))
  {
    if s != [] {
      var t, c := s[..|s| - 1], s[|s| - 1];
      assert s == t + [c];
      LowerSnoc(t, c);
      var ls := Lower(s);
      assert ls == Lower(t) + [LowerChar(c)];
      assert ls[..|ls| - 1] == Lower(t) && ls[|ls| - 1] == LowerChar(c);
      if c == '.' {
        assert LastSegment(ls) == [] && LastSegment(s) == [];
      } else {
        assert LowerChar(c) != '.';
        calc {
          LastSegment(ls);
          LastSegment(Lower(t)) + [LowerChar(c)];
          { LastSegmentOfLower(t); }
          Lower(LastSegment(t)) + [LowerChar(c)];
          { LowerSnoc(LastSegment(t), c); }
          Lower(LastSegment(t) + [c]);
          Lower(LastSegment(s));
        }
      }
    }
  }

  lemma LowerIdempotent(s: string)
    ensures Lower(Lower(s)) == Lower(s)
  {
  }

  /** allowed_file is case-insensitive: a name is allowed iff its lower-cased form is. */
  lemma AllowedFileOfLower(f: string)
    ensures AllowedFile(Lower(f)) == AllowedFile(f)
  {
    LastSegmentOfLower(f);
    LowerIdempotent(LastSegment(f));
    assert '.' in f <==> '.' in Lower(f) by {
      if '.' in f {
        var i :| 0 <= i < |f| && f[i] == '.';
        assert Lower(f)[i] == '.';
      }
      if '.' in Lower(f) {
        var i :| 0 <= i < |f| && Lower(f)[i] == '.';
        assert f[i] == '.';
      }
    }
  }

  /** Two names that lower-case to the same text are both allowed or both refused. */
  lemma AllowedFileIgnoresCase(f: string, g: string)
    requires Lower(f) == Lower(g)
    ensures AllowedFile(f) == AllowedFile(g)
  {
    AllowedFileOfLower(f);
    AllowedFileOfLower(g);
  }

  /** Whatever precedes the last dot, a name ending in ".png" is allowed; with an empty prefix, ".png" itself. */
  lemma PngExtensionAccepted(prefix: string)
    ensures AllowedFile(prefix + ".png")
  {
    assert Lower("png") == "png" by {
      assert Lower("png")[0] == 'p' && Lower("png")[1] == 'n' && Lower("png")[2] == 'g';
    }
    assert prefix + "." + "png" == prefix + ".png";
    AllowedFileByExtension(prefix, "png");
  }

  /** Case does not matter: a name ending in ".PNG" is allowed too, "a.b.PNG" among them. */
  lemma UpperCaseExtensionAccepted(prefix: string)
    ensures AllowedFile(prefix + ".PNG")
  {
    assert Lower("PNG") == "png" by {
      assert Lower("PNG")[0] == LowerChar('P') == 'p';
      assert Lower("PNG")[1] == LowerChar('N') == 'n';
      assert Lower("PNG")[2] == LowerChar('G') == 'g';
    }
    assert prefix + "." + "PNG" == prefix + ".PNG";
    AllowedFileByExtension(prefix, "PNG");
  }

  /** Only the last segment counts: an allowed extension followed by another one does not help. */
  lemma EarlierExtensionIgnored(prefix: string)
    ensures !AllowedFile(prefix + ".png.exe")
  {
    assert Lower("exe")[0] == 'e';
    assert (prefix + ".png") + "." + "exe" == prefix + ".png.exe";
    AllowedFileByExtension(prefix + ".png", "exe");
  }

  /** A name ending in a dot has an empty extension and is refused; so is "." itself. */
  lemma TrailingDotRefused(prefix: string)
    ensures !AllowedFile(prefix + ".")
  {
    assert prefix + "." + "" == prefix + ".";
    AllowedFileByExtension(prefix, "");
  }

  /** A multipart request, reduced to its 'image' file field: absent, or present with its filename. */
  datatype Request = Request(imageFilename: Option<string>)

  datatype Body = ErrorBody(message: string) | ResultBody(record: PredictionRecord)

  datatype Reply = Reply(body: Body, status: nat)

  /**
   * The three checks of predict_image, in order, the first failure winning: no
   * 'image' field, an empty filename, a filename allowed_file refuses. None
   * means the request passes and goes on to save and predict.
   */
  function Validate(req: Request): (rejection: Option<Reply>)
    ensures rejection.None? <==>
      req.imageFilename.Some? && req.imageFilename.value != "" && AllowedFile(req.imageFilename.value)
    ensures rejection.Some? ==> rejection.value.status == 400 && rejection.value.body.ErrorBody?
    ensures req.imageFilename.None? ==> rejection == Some(Reply(ErrorBody(NoImageMessage), 400))
    ensures req.imageFilename == Some("") ==> rejection == Some(Reply(ErrorBody(NoFileSelectedMessage), 400))
    ensures rejection.Some? && rejection.value.body.message == InvalidTypeMessage <==>
      req.imageFilename.Some? && req.imageFilename.value != "" && !AllowedFile(req.imageFilename.value)
  {
    match req.imageFilename
    case None => Some(Reply(ErrorBody(NoImageMessage), 400))
    case Some(filename) =>
      if filename == "" then Some(Reply(ErrorBody(NoFileSelectedMessage), 400))
      else if !AllowedFile(filename) then Some(Reply(ErrorBody(InvalidTypeMessage), 400))
      else None
  }

  /** The try/except around save, preprocess and predict. */
  function PipelineReply(outcome: Result<PredictionRecord, string>): (reply: Reply)
    ensures reply.status == 200 <==> outcome.Success?
    ensures outcome.Success? ==> reply.body == ResultBody(outcome.value)
    ensures outcome.Failure? ==> reply == Reply(ErrorBody(FailurePrefix + outcome.error), 500)
  {
    match outcome
    case Success(record) => Reply(ResultBody(record), 200)
    case Failure(e) => Reply(ErrorBody(FailurePrefix + e), 500)
  }

  /** predict_image: the checks, then the pipeline for a request that passes them. */
  function PredictImage(req: Request, outcome: Result<PredictionRecord, string>): (reply: Reply)
    ensures reply.status == 200 <==> Validate(req).None? && outcome.Success?
    ensures reply.status in {200, 400, 500}
    ensures reply.status == 200 <==> reply.body.ResultBody?
  {
    match Validate(req)
    case Some(rejection) => rejection
    case None => PipelineReply(outcome)
  }

  /**
   * All three rejections happen before the upload is saved: a request that
   * fails a check gets the same reply whatever the pipeline would have done.
   */
  lemma RejectionPrecedesPipeline(req: Request, o1: Result<PredictionRecord, string>, o2: Result<PredictionRecord, string>)
    requires Validate(req).Some?
    ensures PredictImage(req, o1) == PredictImage(req, o2) == Validate(req).value
  {
  }

  /**
   * Every error reply carries a non-empty message, and every 500 reply's
   * message starts with "Prediction failed: ".
   */
  lemma ErrorRepliesCarryMessages(req: Request, outcome: Result<PredictionRecord, string>)
    ensures var reply := PredictImage(req, outcome);
      && (reply.body.ErrorBody? ==> reply.body.message != "")
      && (reply.status == 500 ==> reply.body.message[..|FailurePrefix|] == FailurePrefix)
  {
  }

  /** An exception inside `predict` reaches the client with both prefixes. */
  lemma InferenceFailureReply(req: Request, detail: string)
    requires Validate(req).None?
    ensures PredictImage(req, Predict(Raised(detail))) ==
            Reply(ErrorBody(FailurePrefix + ErrorPrefix + detail), 500)
  {
    assert FailurePrefix + (ErrorPrefix + detail) == FailurePrefix + ErrorPrefix + detail;
  }
}
