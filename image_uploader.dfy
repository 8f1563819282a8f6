/**
 * The validation in frontend/src/components/ImageUploader.js. The component
 * has no state of its own: each handler either alerts, forwards the file to
 * `onImageSelect`, or does nothing. The `alert()` popup is modelled as the
 * message it would show.
 */
module ImageUploader {
  import opened Wrappers

  /** A browser File: its name, declared MIME type and size in bytes. */
  datatype File = File(name: string, mimeType: string, size: nat)

  /** 16 MiB, the bound of the picker path. */
  const MaxFileSize: nat := 16 * 1024 * 1024

  const InvalidImageAlert: string := "Please select a valid image file"
  const TooLargeAlert: string := "File size must be less than 16MB"

  /** What a handler does with an event. */
  datatype Outcome = Ignored | Alerted(message: string) | Forwarded(file: File)

  /** String.prototype.startsWith */
  predicate StartsWith(s: string, prefix: string)
  {
    |prefix| <= |s| && s[..|prefix|] == prefix
  }

  predicate IsImageType(file: File)
  {
    StartsWith(file.mimeType, "image/")
  }

  /** handleFileChange: the first picked file, checked for its type and then its size. */
  function HandleFileChange(picked: Option<File>): (r: Outcome)
    ensures picked.None? <==> r.Ignored?
    ensures r.Forwarded? <==> picked.Some? && IsImageType(picked.value) && picked.value.size <= MaxFileSize
    ensures r.Forwarded? ==> r.file == picked.value
    ensures r == Alerted(InvalidImageAlert) <==> picked.Some? && !IsImageType(picked.value)
    ensures r == Alerted(TooLargeAlert) <==>
      picked.Some? && IsImageType(picked.value) && picked.value.size > MaxFileSize
  {
    match picked
    case None => Ignored
    case Some(file) =>
      if !IsImageType(file) then Alerted(InvalidImageAlert)
      else if file.size > MaxFileSize then Alerted(TooLargeAlert)
      else Forwarded(file)
  }

  /** handleDrop: the first dropped file is forwarded if its type is an image type; there is no size check and no alert. */
  function HandleDrop(dropped: Option<File>): (r: Outcome)
    ensures !r.Alerted?
    ensures r.Forwarded? <==> dropped.Some? && IsImageType(dropped.value)
    ensures r.Forwarded? ==> r.file == dropped.value
  {
    match dropped
    case Some(file) => if IsImageType(file) then Forwarded(file) else Ignored
    case None => Ignored
  }

  /** The upload zone (picker and drop target) is rendered only while there is no preview. */
  predicate UploadZoneShown(imagePreview: Option<string>)
  {
    imagePreview.None?
  }

  /** The Analyze and Upload-New buttons: rendered with the preview, disabled while loading. */
  predicate ButtonsEnabled(imagePreview: Option<string>, loading: bool)
  {
    imagePreview.Some? && !loading
  }

  /**
   * The two paths disagree exactly on oversized image files, which the picker
   * refuses and a drop forwards, and on non-image files, which the picker
   * alerts about and a drop silently ignores.
   */
  lemma DropAndPickerDisagreement(file: File)
    ensures HandleDrop(Some(file)) != HandleFileChange(Some(file)) <==>
      !IsImageType(file) || file.size > MaxFileSize
    ensures IsImageType(file) && file.size > MaxFileSize ==>
      HandleFileChange(Some(file)) == Alerted(TooLargeAlert) && HandleDrop(Some(file)) == Forwarded(file)
  {
  }

  /** Every file the picker forwards, a drop forwards too. */
  lemma PickerStricterThanDrop(picked: Option<File>)
    ensures HandleFileChange(picked).Forwarded? ==> HandleDrop(picked) == HandleFileChange(picked)
  {
  }

  /** Type precedes size on the picker path: an oversized non-image gets the type message. */
  lemma TypeCheckFirst()
    ensures HandleFileChange(Some(File("scan.pdf", "application/pdf", MaxFileSize + 1))) == Alerted(InvalidImageAlert)
    ensures HandleFileChange(Some(File("scan.png", "image/png", MaxFileSize))).Forwarded?
  {
    assert !StartsWith("application/pdf", "image/") by {
      assert "application/pdf"[0] != "image/"[0];
    }
    assert StartsWith("image/png", "image/") by {
      assert "image/png"[..6] == "image/";
    }
  }
}
