/**
  The resume upload panel (src/components/features/ResumeAnalyzer.jsx). It
  accepts one file by MIME type, shows a progress bar while an "analysis"
  runs, then shows a fixed mock result with a button to start over. No
  text is read from the file: the result is the same for every file. The
  two-second wait becomes an explicit `Complete` step.
 */
module ResumeUpload {
  import opened JsText

  datatype File = File(name: string, mimeType: string)

  datatype Analysis = Analysis(
    score: int,
    strengths: seq<string>,
    improvements: seq<string>,
    keywords: seq<string>,
    suggestions: seq<string>)

  datatype Toast = Toast(title: string, description: string)

  /** The component's three state hooks plus the log of raised toasts. */
  datatype UploadState = UploadState(
    file: Option<File>,
    analyzing: bool,
    analysis: Option<Analysis>,
    toasts: seq<Toast>)

  const Initial: UploadState := UploadState(None, false, None, [])

  const InvalidType: Toast := Toast("Invalid file type", "Please upload a PDF or Word document")

  /** `mockAnalysis`: what every analysis returns. */
  const MockAnalysis: Analysis := Analysis(
    85,
    ["Clear work experience section", "Good use of action verbs", "Includes relevant skills"],
    ["Add quantifiable achievements", "Include a professional summary", "Add more technical skills"],
    ["React", "JavaScript", "Project Management", "Team Leadership"],
    ["Consider adding certifications", "Make achievements more specific with numbers", "Add links to portfolio projects"])

  const PdfType: string := "application/pdf"

  /** The type check of `handleFileUpload`: a file was chosen and its MIME
      type is exactly `application/pdf` or contains `document`
      (case-sensitively). */
  predicate Accepts(uploaded: Option<File>): (r: bool)
    ensures r ==> uploaded.Some?
    ensures uploaded.Some? && uploaded.value.mimeType == PdfType ==> r
    ensures r && uploaded.value.mimeType != PdfType ==> |uploaded.value.mimeType| >= 8
  {
    uploaded.Some? && (uploaded.value.mimeType == PdfType || Contains(uploaded.value.mimeType, "document"))
  }

  /** `handleFileUpload` up to the wait inside `analyzeResume`: an accepted
      file is stored and the analysing flag raised; anything else only
      raises the "Invalid file type" toast. */
  function Upload(s: UploadState, uploaded: Option<File>): (r: UploadState)
    ensures Accepts(uploaded) ==>
      && r.file == uploaded
      && r.analyzing
      && r.analysis == s.analysis
      && r.toasts == s.toasts
    ensures !Accepts(uploaded) ==>
      && r.file == s.file
      && r.analyzing == s.analyzing
      && r.analysis == s.analysis
      && r.toasts == s.toasts + [InvalidType]
  {
    if Accepts(uploaded) then s.(file := uploaded, analyzing := true)
    else s.(toasts := s.toasts + [InvalidType])
  }

  /** The end of the simulated wait in `analyzeResume`: the mock result is
      stored and the analysing flag lowered; the file plays no part. */
  function Complete(s: UploadState): (r: UploadState)
    requires s.analyzing
    ensures !r.analyzing && r.analysis == Some(MockAnalysis)
    ensures r.analysis.value.score == 85
    ensures |r.analysis.value.strengths| == 3 && |r.analysis.value.improvements| == 3
    ensures |r.analysis.value.keywords| == 4 && |r.analysis.value.suggestions| == 3
    ensures r.file == s.file && r.toasts == s.toasts
  {
    s.(analysis := Some(MockAnalysis), analyzing := false)
  }

  /** The "Analyze Another Resume" button. */
  function Reset(s: UploadState): (r: UploadState)
    ensures r.file.None? && r.analysis.None?
    ensures r.analyzing == s.analyzing && r.toasts == s.toasts
  {
    s.(file := None, analysis := None)
  }

  datatype BadgeColor = Green | Yellow

  /** Colour scheme of the score badge. */
  function Badge(score: int): (r: BadgeColor)
    ensures r == Green <==> score >= 80
    ensures score == MockAnalysis.score ==> r == Green
  {
    if score >= 80 then Green else Yellow
  }

  /** Which of the three panels render. */
  predicate ShowsUploadPanel(s: UploadState) { s.file.None? }
  predicate ShowsProgress(s: UploadState) { s.analyzing }
  predicate ShowsResults(s: UploadState) { s.analysis.Some? }

  /** The three phases the component moves through: no file, analysing,
      result. */
  predicate WellFormed(s: UploadState)
  {
    || (s.file.None? && !s.analyzing && s.analysis.None?)
    || (s.file.Some? && Accepts(s.file) && s.analyzing && s.analysis.None?)
    || (s.file.Some? && Accepts(s.file) && !s.analyzing && s.analysis == Some(MockAnalysis))
  }

  /** The events that can reach the handlers: a file can be chosen only while
      the upload panel (which holds the file input) is rendered, the timer
      fires only while analysing, and the reset button exists only in the
      result panel. */
  datatype Event = Choose(uploaded: Option<File>) | TimerFires | ResetClick

  function Step(s: UploadState, e: Event): (r: UploadState)
    ensures e.Choose? && !ShowsUploadPanel(s) ==> r == s
    ensures e.TimerFires? && !s.analyzing ==> r == s
    ensures e.ResetClick? && !ShowsResults(s) ==> r == s
    ensures |s.toasts| <= |r.toasts| <= |s.toasts| + 1
    ensures r.toasts[..|s.toasts|] == s.toasts
  {
    match e
    case Choose(f) => if ShowsUploadPanel(s) then Upload(s, f) else s
    case TimerFires => if s.analyzing then Complete(s) else s
    case ResetClick => if ShowsResults(s) then Reset(s) else s
  }

  /** Every reachable state renders exactly one of the three panels, and a
      shown result carries a green badge. */
  lemma WellFormedShowsOnePanel(s: UploadState)
    requires WellFormed(s)
    ensures ShowsUploadPanel(s) ==> !ShowsProgress(s) && !ShowsResults(s)
    ensures ShowsProgress(s) ==> !ShowsUploadPanel(s) && !ShowsResults(s)
    ensures ShowsResults(s) ==> !ShowsUploadPanel(s) && !ShowsProgress(s)
    ensures ShowsUploadPanel(s) || ShowsProgress(s) || ShowsResults(s)
    ensures ShowsResults(s) ==> Badge(s.analysis.value.score) == Green
  {
  }

  lemma StepKeepsWellFormed(s: UploadState, e: Event)
    requires WellFormed(s)
    ensures WellFormed(Step(s, e))
    ensures ShowsUploadPanel(s) && e.Choose? && Accepts(e.uploaded) ==> ShowsProgress(Step(s, e))
    ensures ShowsProgress(s) && e.TimerFires? ==> ShowsResults(Step(s, e))
    ensures ShowsResults(s) && e.ResetClick? ==> Step(s, e) == Initial.(toasts := s.toasts)
  {
  }

  function Run(s: UploadState, events: seq<Event>): UploadState
    decreases |events|
  {
    if events == [] then s else Run(Step(s, events[0]), events[1..])
  }

  /** From the initial state, any sequence of uploads, timer firings and
      resets stays in the three-phase shape, and toasts are never
      withdrawn. */
  lemma {:induction false} RunKeepsWellFormed(s: UploadState, events: seq<Event>)
    requires WellFormed(s)
    ensures WellFormed(Run(s, events))
    ensures |s.toasts| <= |Run(s, events).toasts|
    ensures Run(s, events).toasts[..|s.toasts|] == s.toasts
    decreases |events|
  {
    if events != [] {
      var t := Step(s, events[0]);
      StepKeepsWellFormed(s, events[0]);
      assert t.toasts[..|s.toasts|] == s.toasts;
      RunKeepsWellFormed(t, events[1..]);
      var u := Run(t, events[1..]);
      assert u.toasts[..|s.toasts|] == u.toasts[..|t.toasts|][..|s.toasts|];
    }
  }

  /** PDF and the Word 2007 MIME type pass the type check. */
  lemma AcceptedTypes(name: string)
    ensures Accepts(Some(File(name, PdfType)))
    ensures Accepts(Some(File(name, "application/vnd.openxmlformats-officedocument.wordprocessingml.document")))
  {
    var head := "application/vnd.openxmlformats-office";
    var tail := ".wordprocessingml.document";
    var docx := "application/vnd.openxmlformats-officedocument.wordprocessingml.document";
    assert docx == head + "document" + tail;
    assert (head + "document" + tail)[|head|..|head| + 8] == "document";
    assert OccursAt(docx, "document", |head|);
  }

  /** Every MIME type with `document` in it passes, whatever surrounds it. */
  lemma AcceptsAnyDocumentType(name: string, before: string, after: string)
    ensures Accepts(Some(File(name, before + "document" + after)))
  {
    var t := before + "document" + after;
    assert t[|before|..|before| + 8] == "document";
    assert OccursAt(t, "document", |before|);
  }

  /** A type other than PDF that lacks one of the letters of `document` is
      refused. */
  lemma RefusesTypeMissingALetter(name: string, t: string, m: nat)
    requires t != PdfType && m < 8 && "document"[m] !in t
    ensures !Accepts(Some(File(name, t)))
  {
    NotContainsMissingChar(t, "document", m);
  }

  /** The legacy Word type `application/msword` (no "document" in it), plain
      text and a missing file are all refused. */
  lemma RefusedTypes(name: string)
    ensures !Accepts(Some(File(name, "application/msword")))
    ensures !Accepts(Some(File(name, "text/plain")))
    ensures !Accepts(None)
  {
    NotContainsMissingChar("application/msword", "document", 3);
    NotContainsMissingChar("text/plain", "document", 0);
  }
}
