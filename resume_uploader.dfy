/** The resume upload widget: the guard a file passes before it is posted,
    the `uploading` and `dragActive` flags, and the parsed-resume panel. */
module ResumeUploader {
  import opened Optional
  import opened Text

  /** A browser `File`, reduced to what the guard reads: its MIME type and its
      size in bytes. */
  datatype File = File(mimeType: string, size: nat)

  /** What the server extracted from a resume. */
  datatype ParsedData = ParsedData(skills: Option<seq<string>>, experience: Option<int>)

  /** The uploaded resume as `response.data` and `user.resume` carry it. */
  datatype ResumeData = ResumeData(url: Option<string>, parsedData: Option<ParsedData>)

  const PdfType := "application/pdf"
  const WordType := "application/msword"
  const DocxType := "application/vnd.openxmlformats-officedocument.wordprocessingml.document"

  /** The MIME allow-list, in the order the component lists it. */
  const AllowedTypes: seq<string> := [PdfType, WordType, DocxType]

  /** 5 MiB. */
  const MaxSize: nat := 5 * 1024 * 1024

  const TypeMessage := "Please upload a PDF or Word document"
  const SizeMessage := "File size must be less than 5MB"
  const FailureMessage := "Upload failed. Please try again."

  /** The outcome of the guard at the top of `handleFileUpload`. */
  datatype Verdict = NoFile | WrongType | TooLarge | Accept

  /** The guard: no file first, then the type, then the size. A file is
      accepted exactly when it is there, of an allowed type and at most
      `MaxSize` bytes; the type is judged before the size. */
  function Check(file: Option<File>): (v: Verdict)
    ensures v == NoFile <==> file.None?
    ensures v == WrongType <==> file.Some? && file.value.mimeType !in AllowedTypes
    ensures v == TooLarge <==> file.Some? && file.value.mimeType in AllowedTypes && file.value.size > MaxSize
    ensures v == Accept <==> file.Some? && file.value.mimeType in AllowedTypes && file.value.size <= MaxSize
  {
    if file.None? then NoFile
    else if file.value.mimeType !in AllowedTypes then WrongType
    else if file.value.size > MaxSize then TooLarge
    else Accept
  }

  /** The size limit is inclusive, and an oversize file of the wrong type
      hears about its type. */
  lemma CheckBoundaries()
    ensures Check(Some(File(PdfType, MaxSize))) == Accept
    ensures Check(Some(File(PdfType, MaxSize + 1))) == TooLarge
    ensures Check(Some(File(DocxType, 4 * 1024 * 1024))) == Accept
    ensures Check(Some(File(WordType, 6 * 1024 * 1024))) == TooLarge
    ensures Check(Some(File("image/png", 6 * 1024 * 1024))) == WrongType
    ensures Check(Some(File("application/PDF", 1))) == WrongType
  {
    assert "application/PDF" != PdfType by { assert "application/PDF"[12] != PdfType[12]; }
  }

  /** Only the size decides between two files of the same type, and a smaller
      file is never worse off than a larger accepted one. */
  lemma CheckMonotoneInSize(t: string, small: nat, large: nat)
    requires small <= large
    ensures Check(Some(File(t, large))) == Accept ==> Check(Some(File(t, small))) == Accept
    ensures Check(Some(File(t, small))) == TooLarge ==> Check(Some(File(t, large))) == TooLarge
  {
  }

  /** `files && files[0]`: the first file of a drop or a selection, if any. */
  function FirstFile(files: Option<seq<File>>): (r: Option<File>)
    ensures r.Some? <==> files.Some? && |files.value| > 0
    ensures r.Some? ==> r.value == files.value[0]
  {
    if files.Some? && |files.value| > 0 then Some(files.value[0]) else None
  }

  /** `handleDrag`: enter and over switch the highlight on, leave switches it
      off, any other event type leaves it as it was. */
  function DragActiveAfter(eventType: string, active: bool): (r: bool)
    ensures eventType == "dragenter" || eventType == "dragover" ==> r
    ensures eventType == "dragleave" ==> !r
    ensures eventType !in {"dragenter", "dragover", "dragleave"} ==> r == active
  {
    if eventType == "dragenter" || eventType == "dragover" then true
    else if eventType == "dragleave" then false
    else active
  }

  /** Repeating a drag event changes nothing more. */
  lemma DragIdempotent(eventType: string, active: bool)
    ensures DragActiveAfter(eventType, DragActiveAfter(eventType, active)) == DragActiveAfter(eventType, active)
  {
  }

  /** The parsed skills the panel shows: none while the resume has no skills
      list, otherwise the first six (an empty list still shows the section). */
  function ShownParsedSkills(current: Option<ResumeData>): (r: Option<seq<string>>)
    ensures r.Some? <==> current.Some? && current.value.parsedData.Some? && current.value.parsedData.value.skills.Some?
    ensures r.Some? ==> var all := current.value.parsedData.value.skills.value;
                        |r.value| == (if |all| < 6 then |all| else 6) && r.value == all[..|r.value|]
  {
    if current.Some? && current.value.parsedData.Some? && current.value.parsedData.value.skills.Some? then
      var all := current.value.parsedData.value.skills.value;
      Some(if |all| < 6 then all else all[..6])
    else None
  }

  /** What the experience slot of the panel renders. `experience && (...)`
      yields the number itself when it is 0, and React prints a 0 as text. */
  datatype ExperienceView = NoExperience | StrayZero | YearsLine(text: string)

  /** The experience slot: nothing when there is no number, a bare "0" for
      zero, and the "N years" block otherwise. */
  function ExperienceLine(current: Option<ResumeData>): (v: ExperienceView)
    ensures v == NoExperience <==> current.None? || current.value.parsedData.None?
                                   || current.value.parsedData.value.experience.None?
    ensures v == StrayZero <==> current.Some? && current.value.parsedData.Some?
                                && current.value.parsedData.value.experience == Some(0)
    ensures v.YearsLine? <==> current.Some? && current.value.parsedData.Some?
                              && current.value.parsedData.value.experience.Some?
                              && current.value.parsedData.value.experience.value != 0
    ensures v.YearsLine? ==> v.text == IntToString(current.value.parsedData.value.experience.value) + " years"
  {
    if current.None? || current.value.parsedData.None? || current.value.parsedData.value.experience.None? then
      NoExperience
    else
      var years := current.value.parsedData.value.experience.value;
      if years == 0 then StrayZero else YearsLine(IntToString(years) + " years")
  }

  /** What `profileAPI.uploadResume` came back with. */
  datatype UploadResponse = Uploaded(data: ResumeData) | UploadFailed

  /** What the widget did outside itself: alerts, the POST (with the value
      `uploading` had when it was sent) and the `onUploadSuccess` callback. */
  datatype Event = Alert(message: string) | UploadRequest(file: File, uploading: bool) | SuccessCallback(data: ResumeData)

  /** The events one call of `handleFileUpload` produces. */
  function UploadEvents(file: Option<File>, response: UploadResponse): (es: seq<Event>)
    ensures Check(file) == NoFile ==> es == []
    ensures Check(file) == WrongType ==> es == [Alert(TypeMessage)]
    ensures Check(file) == TooLarge ==> es == [Alert(SizeMessage)]
    ensures Check(file) == Accept ==> |es| == 2 && es[0] == UploadRequest(file.value, true)
    ensures Check(file) == Accept && response.Uploaded? ==> es[1] == SuccessCallback(response.data)
    ensures Check(file) == Accept && response.UploadFailed? ==> es[1] == Alert(FailureMessage)
    ensures (exists i :: 0 <= i < |es| && es[i].UploadRequest?) <==> Check(file) == Accept
    ensures (exists i :: 0 <= i < |es| && es[i].SuccessCallback?) <==> Check(file) == Accept && response.Uploaded?
  {
    match Check(file)
    case NoFile => []
    case WrongType => [Alert(TypeMessage)]
    case TooLarge => [Alert(SizeMessage)]
    case Accept =>
      var outcome := if response.Uploaded? then SuccessCallback(response.data) else Alert(FailureMessage);
      var es := [UploadRequest(file.value, true), outcome];
      assert es[1] == outcome;
      es
  }

  class Uploader {
    var uploading: bool
    var dragActive: bool
    /** Everything the widget did outside itself, in order. */
    ghost var events: seq<Event>

    /** Between handler calls the widget is never left uploading. */
    ghost predicate Idle()
      reads this
    {
      !uploading
    }

    constructor ()
      ensures Idle() && !dragActive && events == []
    {
      uploading := false;
      dragActive := false;
      events := [];
    }

    /** `handleFileUpload(file)`, with the server's answer as a parameter. */
    method HandleFileUpload(file: Option<File>, response: UploadResponse)
      requires Idle()
      modifies this
      ensures Idle() && dragActive == old(dragActive)
      ensures events == old(events) + UploadEvents(file, response)
    {
      if file.None? {
        return;
      }
      var f := file.value;
      if f.mimeType !in AllowedTypes {
        events := events + [Alert(TypeMessage)];
        return;
      }
      if f.size > MaxSize {
        events := events + [Alert(SizeMessage)];
        return;
      }
      uploading := true;
      events := events + [UploadRequest(f, uploading)];
      if response.Uploaded? {
        events := events + [SuccessCallback(response.data)];
      } else {
        events := events + [Alert(FailureMessage)];
      }
      uploading := false;
    }

    /** `handleDrag` for dragenter, dragover and dragleave. */
    method HandleDrag(eventType: string)
      modifies this
      ensures dragActive == DragActiveAfter(eventType, old(dragActive))
      ensures uploading == old(uploading) && events == old(events)
    {
      if eventType == "dragenter" || eventType == "dragover" {
        dragActive := true;
      } else if eventType == "dragleave" {
        dragActive := false;
      }
    }

    /** `handleDrop`: the highlight always goes off; the first dropped file,
        if any, goes through the upload. */
    method HandleDrop(files: Option<seq<File>>, response: UploadResponse)
      requires Idle()
      modifies this
      ensures Idle() && !dragActive
      ensures events == old(events) + UploadEvents(FirstFile(files), response)
    {
      dragActive := false;
      if files.Some? && |files.value| > 0 {
        HandleFileUpload(Some(files.value[0]), response);
      }
    }

    /** `handleFileSelect`: the first chosen file, if any, goes through the
        upload; the highlight is not touched. */
    method HandleFileSelect(files: Option<seq<File>>, response: UploadResponse)
      requires Idle()
      modifies this
      ensures Idle() && dragActive == old(dragActive)
      ensures events == old(events) + UploadEvents(FirstFile(files), response)
    {
      if files.Some? && |files.value| > 0 {
        HandleFileUpload(Some(files.value[0]), response);
      }
    }
  }
}
