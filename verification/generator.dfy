/** The two public operations of `DocumentGenerator`.

    `generate_documents` sends the resume prompt and then the cover-letter prompt to
    the AI service and keeps, from each response, the text of the first part that is
    not a "thought". The service is a function from prompt to response parts, fixed
    for one run. `generate_pdfs` plans the run directory and file names, prepares
    both HTML texts, and fails when the renderer left no PDF files; browser and disk
    are represented only by that last fact. */
module DocumentGenerator {
  import opened Wrappers
  import opened CharClasses
  import opened JobDetails
  import opened Sanitizer
  import opened Prompts
  import opened Timestamps
  import opened OutputNaming
  import opened HtmlEmbed
  import opened Paths

  /** One content part of a response. A missing or `None` `thought` attribute reads as
      `false`; `text` may be `None`. */
  datatype Part = Part(thought: bool, text: Option<string>)

  datatype SelectError = NoParts | NoUsableText

  datatype GenerationError = ResumeFailed(cause: SelectError) | LetterFailed(cause: SelectError)

  /** The `ValueError` message raised for each failure. */
  function Message(e: GenerationError): string {
    match e
    case ResumeFailed(NoParts) => "Failed to generate resume content"
    case ResumeFailed(NoUsableText) => "No valid resume content in response"
    case LetterFailed(NoParts) => "Failed to generate cover letter content"
    case LetterFailed(NoUsableText) => "No valid cover letter content in response"
  }

  /** `k` is the position of the first part that is not a thought. */
  predicate IsFirstAnswer(parts: seq<Part>, k: nat) {
    k < |parts| && !parts[k].thought && forall j :: 0 <= j < k ==> parts[j].thought
  }

  /** The position `next(...)` stops at, searching from `from`. */
  function FirstAnswerFrom(parts: seq<Part>, from: nat): (r: Option<nat>)
    requires from <= |parts|
    requires forall j :: 0 <= j < from ==> parts[j].thought
    ensures r.Some? ==> IsFirstAnswer(parts, r.value)
    ensures r.None? ==> forall j :: 0 <= j < |parts| ==> parts[j].thought
    decreases |parts| - from
  {
    if from == |parts| then None
    else if !parts[from].thought then Some(from)
    else FirstAnswerFrom(parts, from + 1)
  }

  function FirstAnswer(parts: seq<Part>): (r: Option<nat>)
    ensures r.Some? ==> IsFirstAnswer(parts, r.value)
    ensures r.None? ==> forall j :: 0 <= j < |parts| ==> parts[j].thought
  {
    FirstAnswerFrom(parts, 0)
  }

  /** The answer text of one response: the text of the first non-thought part, which
      must be non-empty; later parts are never consulted. */
  function SelectAnswer(parts: seq<Part>): (r: Result<string, SelectError>)
    ensures r == Failure(NoParts) <==> |parts| == 0
    ensures r.Success? <==>
      exists k: nat | k < |parts| :: IsFirstAnswer(parts, k) &&
        parts[k].text.Some? && parts[k].text.value != ""
    ensures r.Success? ==>
      exists k: nat | k < |parts| :: IsFirstAnswer(parts, k) && parts[k].text == Some(r.value)
  {
    if |parts| == 0 then Failure(NoParts)
    else
      match FirstAnswer(parts)
      case None => Failure(NoUsableText)
      case Some(k) =>
        if parts[k].text.Some? && parts[k].text.value != "" then Success(parts[k].text.value)
        else Failure(NoUsableText)
  }

  /** The four failures raise four different messages, so the message tells which
      document failed and why. */
  lemma MessageNamesFailure(a: GenerationError, b: GenerationError)
    ensures Message(a) == Message(b) <==> a == b
  {
  }

  /** Only one part can be the first non-thought part. */
  lemma FirstAnswerUnique(parts: seq<Part>, a: nat, b: nat)
    requires IsFirstAnswer(parts, a) && IsFirstAnswer(parts, b)
    ensures a == b
  {
  }

  /** `generate_documents(resume_content, form_data)` with the AI service `ai`. */
  function GenerateDocuments(ai: string -> seq<Part>, resumeContent: string, fd: FormData,
                             date: string, letterTemplate: string)
    : (r: Result<(string, string), GenerationError>)
    ensures r.Success? ==> r.value.0 != "" && r.value.1 != ""
  {
    match SelectAnswer(ai(ResumePrompt(resumeContent, fd)))
    case Failure(e) => Failure(ResumeFailed(e))
    case Success(resume) =>
      match SelectAnswer(ai(CoverLetterPrompt(resumeContent, fd, date, letterTemplate)))
      case Failure(e) => Failure(LetterFailed(e))
      case Success(letter) => Success((resume, letter))
  }

  /** The run's outcome depends on the service only through its answers to the resume
      prompt and to the cover-letter prompt, and the cover-letter prompt is built from
      the original resume content, not from the customized resume. */
  lemma GenerateDocumentsAsksTwoPrompts(ai1: string -> seq<Part>, ai2: string -> seq<Part>,
                                        resumeContent: string, fd: FormData,
                                        date: string, letterTemplate: string)
    requires ai1(ResumePrompt(resumeContent, fd)) == ai2(ResumePrompt(resumeContent, fd))
    requires ai1(CoverLetterPrompt(resumeContent, fd, date, letterTemplate)) ==
             ai2(CoverLetterPrompt(resumeContent, fd, date, letterTemplate))
    ensures GenerateDocuments(ai1, resumeContent, fd, date, letterTemplate) ==
            GenerateDocuments(ai2, resumeContent, fd, date, letterTemplate)
  {
  }

  /** Success returns the two selected answers; a resume failure is reported before the
      cover letter is looked at. */
  lemma GenerateDocumentsOutcome(ai: string -> seq<Part>, resumeContent: string,
                                 fd: FormData, date: string, letterTemplate: string)
    ensures var r := GenerateDocuments(ai, resumeContent, fd, date, letterTemplate);
      var rs := SelectAnswer(ai(ResumePrompt(resumeContent, fd)));
      var ls := SelectAnswer(ai(CoverLetterPrompt(resumeContent, fd, date, letterTemplate)));
      && (r.Success? <==> rs.Success? && ls.Success?)
      && (r.Success? ==> r.value == (rs.value, ls.value))
      && (rs.Failure? ==> r == Failure(ResumeFailed(rs.error)))
      && (rs.Success? && ls.Failure? ==> r == Failure(LetterFailed(ls.error)))
  {
  }

  /** What `generate_pdfs` leaves behind: the two PDF paths it returns and the two
      HTML files it writes, with their text. */
  datatype PdfRun = PdfRun(resumePdf: OutputPath, letterPdf: OutputPath,
                           resumeHtmlFile: OutputPath, letterHtmlFile: OutputPath,
                           resumeHtml: string, letterHtml: string)

  datatype PdfError = PdfFilesMissing

  /** `generate_pdfs(resume_html, cover_letter_html, job_title)`: `css` is the stylesheet
      file's text and `pdfsExist` whether both PDF files exist after rendering. */
  function GeneratePdfs(cls: Classes, ts: Timestamp, resumeHtml: string,
                        letterHtml: string, jobTitle: string, css: string,
                        pdfsExist: bool): (r: Result<PdfRun, PdfError>)
    requires ts.Valid()
    ensures r.Success? <==> pdfsExist
    ensures r.Success? ==>
      var v := r.value;
      && v.resumePdf.dir == v.letterPdf.dir == v.resumeHtmlFile.dir == v.letterHtmlFile.dir
      && v.resumePdf.dir == DirName(cls, ts, jobTitle)
      && v.resumePdf.name == "Resume_" + Sanitize(cls, jobTitle) + ".pdf"
      && v.letterPdf.name == "Cover_Letter_" + Sanitize(cls, jobTitle) + ".pdf"
      && v.resumeHtmlFile.name == "Resume_" + Sanitize(cls, jobTitle) + ".html"
      && v.letterHtmlFile.name == "Cover_Letter_" + Sanitize(cls, jobTitle) + ".html"
      && v.resumePdf != v.letterPdf
      && v.resumePdf != v.resumeHtmlFile && v.resumePdf != v.letterHtmlFile
      && v.letterPdf != v.resumeHtmlFile && v.letterPdf != v.letterHtmlFile
      && v.resumeHtmlFile != v.letterHtmlFile
    ensures r.Success? && cls.Valid() ==>
      var v := r.value;
      && SafeComponent(v.resumePdf.dir)
      && SafeComponent(v.resumePdf.name) && SafeComponent(v.letterPdf.name)
      && SafeComponent(v.resumeHtmlFile.name) && SafeComponent(v.letterHtmlFile.name)
    ensures r.Success? ==>
      r.value.resumeHtml == Embedded(resumeHtml, css) &&
      r.value.letterHtml == Embedded(letterHtml, css)
  {
    var files := PlanOutput(cls, ts, jobTitle);
    PlanOutputSafe(cls, ts, jobTitle);
    if pdfsExist then
      Success(PdfRun(files.resumePdf, files.letterPdf, files.resumeHtml, files.letterHtml,
                     PrepareHtml(resumeHtml, css), PrepareHtml(letterHtml, css)))
    else Failure(PdfFilesMissing)
  }
}
