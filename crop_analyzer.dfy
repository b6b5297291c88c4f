/**
 * The crop image analyzer: a single photo field that must hold a non-empty
 * file, a preview read from the chosen file, a submit button enabled only
 * when nothing is pending and a preview exists, and a submission that reads
 * the file as a data URL and then calls the analysis flow.
 */
module CropAnalyzer {
  import opened Wrappers
  import opened Forms

  /** A browser `File`: only its size takes part in validation. */
  datatype File = File(name: string, size: nat, mimeType: string)

  /** The form's values; `photo` is undefined until a file is chosen (no defaults). */
  datatype PhotoValues = PhotoValues(photo: Option<File>)

  /** zod's own message when `z.instanceof(File)` fails. */
  const NotAFileMessage := "Input not instance of File"
  const EmptyFileMessage := "Please upload an image."

  /**
   * `formSchema`: the photo must be a file, and a non-empty one. A value
   * that is not a file fails the type check alone; the size rule is then
   * not evaluated.
   */
  function PhotoErrors(v: PhotoValues): (errs: seq<FieldError>)
    ensures errs == [] <==> v.photo.Some? && v.photo.value.size > 0
    ensures v.photo.None? ==> errs == [FieldError("photo", NotAFileMessage)]
    ensures v.photo.Some? && v.photo.value.size == 0 ==> errs == [FieldError("photo", EmptyFileMessage)]
  {
    match v.photo
    case None => [FieldError("photo", NotAFileMessage)]
    case Some(file) => if file.size > 0 then [] else [FieldError("photo", EmptyFileMessage)]
  }

  const FailureDescription := "Failed to analyze the image. Please try again."

  datatype AnalysisReply = AnalysisReply(
    healthAnalysis: string, potentialDiseases: string, nutrientDeficiencies: string, generalAssessment: string)

  /** The view: the photo form and the `preview` state. */
  class CropAnalyzerView {
    const form: FormController<PhotoValues, AnalysisReply>
    var preview: Option<string>

    /** The form runs this view's schema and toast, and keeps its own invariant. */
    ghost predicate Valid()
      reads this, form
    {
      && form.Valid()
      && form.validate == PhotoErrors
      && form.failureDescription == FailureDescription
    }

    constructor ()
      ensures fresh(form)
      ensures form.values == PhotoValues(None) && form.validate == PhotoErrors
      ensures form.failureDescription == FailureDescription
      ensures form.result == None && !form.pending && form.requests == [] && form.toasts == []
      ensures form.fieldErrors == [] && !form.submitted && preview == None
      ensures Valid()
    {
      form := new FormController(PhotoValues(None), PhotoErrors, FailureDescription);
      preview := None;
    }

    /**
     * `handleFileChange`: with no file chosen nothing changes. Otherwise the
     * first file becomes the photo and the photo's error is cleared; the
     * preview read it starts ends later, in `PreviewLoadEnd`.
     */
    method HandleFileChange(files: seq<File>)
      requires Valid()
      modifies form
      ensures files == [] ==> unchanged(form)
      ensures files != [] ==> form.values == PhotoValues(Some(files[0])) && form.fieldErrors == []
      ensures form.submitted == old(form.submitted)
      ensures form.result == old(form.result) && form.pending == old(form.pending)
      ensures form.requests == old(form.requests) && form.toasts == old(form.toasts)
      ensures Valid()
    {
      if files != [] {
        form.SetValue(PhotoValues(Some(files[0])));
        form.ClearErrors();
      }
    }

    /**
     * The preview reader's `onloadend`: its result, a data URL, or null
     * when the read failed.
     */
    method PreviewLoadEnd(dataUrl: Option<string>)
      requires Valid() && form.values.photo.Some?
      modifies this`preview
      ensures preview == dataUrl
      ensures Valid()
    {
      preview := dataUrl;
    }

    /** `disabled={isPending || !preview}`, with the empty string falsy. */
    function SubmitEnabled(): (enabled: bool)
      reads this, form
      ensures enabled <==> !form.pending && preview.Some? && preview.value != ""
    {
      !form.pending && match preview { case None => false case Some(url) => url != "" }
    }

    /**
     * Pressing "Analyze Image". A disabled button does nothing; otherwise
     * the form validates the photo and, when it is a non-empty file, clears
     * `result` and starts the submission.
     */
    method Submit() returns (called: bool)
      requires Valid()
      modifies form
      ensures !old(SubmitEnabled()) ==> !called && unchanged(form)
      ensures old(SubmitEnabled()) ==> called == (PhotoErrors(form.values) == [])
      ensures old(SubmitEnabled()) ==> form.submitted && form.fieldErrors == PhotoErrors(form.values)
      ensures called ==> form.result == None && form.pending && form.requests == old(form.requests) + [form.values]
      ensures !called ==> form.result == old(form.result) && form.pending == old(form.pending)
      ensures !called ==> form.requests == old(form.requests)
      ensures form.values == old(form.values) && form.toasts == old(form.toasts)
      ensures Valid()
    {
      if !SubmitEnabled() {
        return false;
      }
      called := form.Submit();
    }

    /**
     * The submission ends. `dataUri` is the result of reading the photo
     * (None when the read rejects), and `flow` stands for the analysis
     * flow. Either failure leaves `result` null and raises the toast.
     */
    method Settle(dataUri: Option<string>, flow: string -> Outcome<AnalysisReply>)
      requires Valid() && form.pending
      modifies form
      ensures !form.pending
      ensures dataUri.None? ==> form.result == None && form.toasts == old(form.toasts) + [Toast(ErrorTitle, FailureDescription)]
      ensures dataUri.Some? && flow(dataUri.value).Failed? ==>
        form.result == None && form.toasts == old(form.toasts) + [Toast(ErrorTitle, FailureDescription)]
      ensures dataUri.Some? && flow(dataUri.value).Replied? ==>
        form.result == Some(flow(dataUri.value).reply) && form.toasts == old(form.toasts)
      ensures form.values == old(form.values) && form.requests == old(form.requests)
      ensures form.fieldErrors == old(form.fieldErrors) && form.submitted == old(form.submitted)
      ensures Valid()
    {
      var outcome := match dataUri { case None => Failed case Some(uri) => flow(uri) };
      form.Settle(outcome);
    }

    /** The "Awaiting Analysis" card: no result and nothing pending. */
    function ShowsAwaiting(): (shown: bool)
      reads this, form
      ensures shown <==> form.result.None? && !form.pending
    {
      !form.ShowsResult() && !form.ShowsLoading()
    }
  }

  /** An empty file passes the file handler but never reaches the flow. */
  lemma EmptyFileRejected(f: File)
    requires f.size == 0
    ensures PhotoErrors(PhotoValues(Some(f))) == [FieldError("photo", EmptyFileMessage)]
  {
  }
}
