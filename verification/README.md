# airg core in Dafny

A Dafny model of the deterministic core of *airg*, a small Flask application.
It tailors a resume and writes a cover letter for one job posting with the help
of a Gemini model, then renders both to PDF. Around the network and browser
calls sit a handful of exact rules, and the model states and proves them:

- **Output naming** (`Sanitizer`, `Timestamps`, `OutputNaming`). The job-title
  sanitizer `re.sub(r'[^\w\s-]', '', t).strip().replace(' ', '_')` is modelled
  over abstract `\w`/`\s` character classes. A run directory is
  `resume_gen/<%Y%m%d_%H%M%S>_<title>`, holding four files.
- **HTML preparation** (`HtmlEmbed`). `prepare_html` deletes the stylesheet link
  and inlines the CSS before every `</head>`. Both steps are Python `str.replace`,
  modelled left to right (`Strings`).
- **Prompts and answers** (`Templates`, `Prompts`, `DocumentGenerator`). The two
  prompts are templates whose holes are filled verbatim. The answer is the text
  of the first non-thought part of the response.
- **Static files and downloads** (`Paths`, `StaticFiles`). The following are
  modelled on component lists: `posixpath.join`, `normpath`, `abspath`,
  `dirname` and `basename`. The whitelist-plus-`startswith` guard of
  `validate_static_path` is modelled, and so is the same test in
  `download_file`.
- **Progress queue** (`ProgressQueue`). `send_update` keeps a queue of at most
  100 entries and drops the oldest when full. The form handler drains the queue
  before generating.
- **Form rules** (`JobDetails`). The declared WTForms rules of
  `JobDetailsForm` are modelled as per-field error lists.

The AI service is a function from prompt text to response parts, fixed for one
run. The clock, the CSS file, the letter template and the existence of the
rendered PDFs are all parameters.

## Model

| member | source | states |
|---|---|---|
| Sanitizer.RemoveDisallowed | airg/services/document_generator.py:25 | only characters in `\w`, `\s` or `-` survive; the text never grows; text made only of such characters is unchanged |
| Sanitizer.RemoveDisallowedAppend | airg/services/document_generator.py:25 | deleting from a concatenation deletes from each part separately, so the kept characters stay in their order |
| Sanitizer.RemoveDisallowedOne | airg/services/document_generator.py:25 | a single character is kept exactly when it is in `\w`, `\s` or `-`; with the previous row this fixes the result on every title |
| Sanitizer.Sanitize | airg/services/document_generator.py:25 | the sanitized title is never longer than the title and contains no space |
| Sanitizer.StripBounds | airg/services/document_generator.py:25 | `strip()` keeps the slice between the first and last non-whitespace characters, and everything cut off is whitespace |
| Sanitizer.SanitizeShape | airg/services/document_generator.py:25 | the sanitized title has no space, only `\w`/`\s`/`-` characters, and no whitespace at either end |
| Sanitizer.SanitizeHasNoSlash | airg/services/document_generator.py:25-27 | no `/` survives sanitizing, so the title cannot add a path level |
| Sanitizer.StripKeeps | airg/services/document_generator.py:25 | text with no whitespace at either end is left alone by `strip()` |
| Sanitizer.SanitizeIdempotent | airg/services/document_generator.py:25 | sanitizing an already sanitized title returns it unchanged |
| Strings.ReplaceIsSplitJoin | airg/services/document_generator.py:102-104 | `s.replace(p, r)` equals `r.join(s.split(p))` |
| Strings.ReplaceAbsent | airg/services/document_generator.py:102-104 | replacing a pattern that does not occur changes nothing |
| Strings.ReplaceCharPointwise | airg/services/document_generator.py:25 | `replace(' ', '_')` keeps the length and maps each character independently |
| Timestamps.Format | airg/services/document_generator.py:24 | the `%Y%m%d_%H%M%S` text is 15 characters with `_` at position 8 |
| Timestamps.FormatParse | airg/services/document_generator.py:24 | the `%Y%m%d_%H%M%S` text of a timestamp reads back as the same timestamp |
| Timestamps.FormatInjective | airg/services/document_generator.py:24 | two timestamps format alike exactly when they are the same second |
| Timestamps.FormatCharacters | airg/services/document_generator.py:24 | the formatted timestamp has the `%Y%m%d_%H%M%S` layout: a decimal digit at every position except the `_` at index 8 |
| Timestamps.ParseFormat | airg/services/document_generator.py:24 | any text that reads back as a valid timestamp is exactly that timestamp's `%Y%m%d_%H%M%S` text, so with FormatParse formatting is a one-to-one correspondence between valid timestamps and their texts |
| Timestamps.PadDecimal | airg/services/document_generator.py:24 | a zero-padded field is recovered from its decimal value: padding the value of a digit string to its own width gives the string back |
| OutputNaming.DirName | airg/services/document_generator.py:24-26 | the run directory is the formatted timestamp, then `_` at index 15, then the sanitized title; its first 15 characters parse back to the run's timestamp |
| OutputNaming.DirNameShared | airg/services/document_generator.py:24-28 | two runs share a directory exactly when they start in the same second and their titles sanitize alike |
| OutputNaming.DirNameIsSafeComponent | airg/services/document_generator.py:24-27 | the directory name is one non-empty path component, neither `.` nor `..`, without `/` |
| OutputNaming.SameSecondRunsCollide | airg/services/document_generator.py:26-28 | runs in the same second with titles that sanitize alike get the same four paths |
| OutputNaming.SanitizedTitleCollides | airg/services/document_generator.py:25-28 | a title and its sanitized form plan identical outputs |
| OutputNaming.PlanOutput | airg/services/document_generator.py:89-119 | the four outputs share the run directory named from timestamp and title, are named `Resume_<t>.html`, `Resume_<t>.pdf`, `Cover_Letter_<t>.html` and `Cover_Letter_<t>.pdf` for the sanitized title `t`, and are pairwise distinct |
| OutputNaming.PlanOutputSafe | airg/services/document_generator.py:89-119 | the run directory and all four file names are single path components, so none can leave `resume_gen` |
| HtmlEmbed.PrepareHtml | airg/services/document_generator.py:101-104 | the two `str.replace` steps equal cutting the page at every link and gluing it back without it, then cutting at every `</head>` and gluing back with the style block in front of each |
| HtmlEmbed.PrepareHtmlUntouched | airg/services/document_generator.py:101-104 | a page with neither the link nor `</head>` is returned unchanged |
| DocumentGenerator.FirstAnswerFrom | airg/services/document_generator.py:46-50 | the search stops at the first part that is not a thought, or reports that every part is one |
| DocumentGenerator.FirstAnswer | airg/services/document_generator.py:46-50 | the `next(...)` position is the first non-thought part |
| DocumentGenerator.FirstAnswerUnique | airg/services/document_generator.py:46-50 | only one part can be the first non-thought part |
| DocumentGenerator.SelectAnswer | airg/services/document_generator.py:42-53 | fails with "no parts" exactly on an empty list; succeeds exactly when the first non-thought part has non-empty text, and returns that text |
| DocumentGenerator.GenerateDocuments | airg/services/document_generator.py:31-81 | on success both returned texts are non-empty |
| DocumentGenerator.GenerateDocumentsOutcome | airg/services/document_generator.py:31-77 | success means both answers were found; the result is the pair (resume answer, letter answer) in that order; a resume failure is reported before the letter is considered |
| DocumentGenerator.MessageNamesFailure | airg/services/document_generator.py:43-74 | the four `ValueError` messages are pairwise different, one per document and cause |
| DocumentGenerator.GenerateDocumentsAsksTwoPrompts | airg/services/document_generator.py:36-60 | the outcome depends on the service only through its answers to the resume prompt and to the cover-letter prompt built from the original resume content |
| DocumentGenerator.GeneratePdfs | airg/services/document_generator.py:83-150 | fails exactly when the PDFs are missing; on success the two PDFs and the two HTML files all lie in the run directory named from timestamp and title, the returned pair is (`Resume_<t>.pdf`, `Cover_Letter_<t>.pdf`) and the HTML files are `Resume_<t>.html` and `Cover_Letter_<t>.html` for the sanitized title `t`, they are four different files with single-component names, and the HTML written is the page with the link cut out and the style block inlined |
| Prompts.Salutation | airg/services/document_generator.py:197 | "Mr." exactly for gender `male`, "Ms." otherwise |
| Prompts.ResumePrompt | airg/services/document_generator.py:156-193 | resume content, job description, company overview and any experience appear verbatim in the prompt, in that order |
| Prompts.ResumeExperienceBlockIff | airg/services/document_generator.py:158-174 | the experience block changes the resume prompt exactly when the experience text is non-empty |
| Prompts.CoverLetterPrompt | airg/services/document_generator.py:195-230 | resume content, title, company, salutation, hirer name, date, description, overview, any experience and the letter template appear verbatim, in that order |
| Prompts.CoverLetterExperienceBlockIff | airg/services/document_generator.py:201-226 | the experience block changes the cover-letter prompt exactly when the experience text is non-empty |
| JobDetails.RequiredTextErrors | airg/forms/job_details.py:7-21 | a required text field passes exactly when it is non-blank, within its length bounds and, for title and company, free of `<>{}`; a blank field reports only "required" |
| JobDetails.HirerNameErrors | airg/forms/job_details.py:69-71 | the hirer name passes exactly when blank or made only of ASCII letters, whitespace, `'` and `-` |
| JobDetails.HirerGenderErrors | airg/forms/job_details.py:28-37 | the gender passes exactly when blank or one of unknown, male, female |
| JobDetails.FormValidIff | airg/forms/job_details.py:6-71 | the form validates exactly when every declared rule holds, field by field |
| JobDetails.OptionalFieldsMayBeOmitted | airg/forms/job_details.py:23-59 | leaving hirer name, gender and experience out never fails the form: the four required fields alone decide |
| JobDetails.ToFormData | airg/app.py:179-187 | each required field's text is copied unchanged into its own key; a missing hirer name or experience becomes `""`, a missing gender the select default `unknown`, and a submitted value is kept as is; the record respects the length and character rules |
| Paths.NormPath | airg/app.py:56-57 | `normpath` never returns empty text, and keeps an absolute path absolute |
| Paths.Join | airg/app.py:56-57 | `join(a, b)` is `b` when `b` is absolute; otherwise it starts with `a`; it always ends with `b`; it is absolute exactly when `a` or `b` is |
| Paths.AbsPath | airg/app.py:56-57 | `abspath` against an absolute working directory gives an absolute path |
| Paths.Dirname | airg/app.py:75 | `dirname(p)` is a prefix of `p`, empty exactly when `p` has no slash |
| Paths.Basename | airg/app.py:78-80 | `basename(p)` contains no slash |
| Paths.JoinAssoc | airg/app.py:77-80 | joining a relative directory and then a relative name is joining their join |
| Paths.NormPathAbs | airg/app.py:56-57 | an absolute path normalizes to its kept leading slashes followed by ordinary names |
| Paths.NormPathIdempotent | airg/app.py:56-57 | normalizing an absolute path twice is normalizing it once |
| Paths.JoinRelative | airg/app.py:57 | joining a relative name onto an absolute path continues the normalization from that path's components |
| Paths.WithinIffPrefix | airg/app.py:56-60 | "equal to the base, or below base plus `/`" means component containment |
| Paths.DirnameBasename | airg/app.py:75-78 | `join(dirname(p), basename(p))` normalizes like `p` |
| Paths.JoinDirnameBasename | airg/app.py:72-80 | joining `dirname(f)` and then `basename(f)` onto an absolute base normalizes like joining `f` |
| StaticFiles.ValidateStaticPath | airg/app.py:50-63 | acceptance needs a whitelisted directory |
| StaticFiles.RootShape | airg/app.py:56 | the served root is the application directory's parent with the route's directory added |
| StaticFiles.StrictIsContainment | airg/app.py:56-60 | the corrected check accepts exactly the requests that normalize inside the served root |
| StaticFiles.StrictImpliesAsWritten | airg/app.py:56-60 | whatever is inside the root, the check as written accepts |
| StaticFiles.PlainFilenameAccepted | airg/app.py:56-60 | for a whitelisted directory, a relative file name without `..` pieces is always accepted |
| StaticFiles.SiblingAccepted | airg/app.py:56-60 | `../sib/x` is accepted whenever the sibling's name starts with the root's, though it lies outside the root |
| StaticFiles.ResumeRouteReachesResumeGen | airg/app.py:53-60 | directory `resume` with `../resume_gen/x` is accepted |
| StaticFiles.ServeStaticFile | airg/app.py:66-82 | a file is only served after the check accepted the request, and the directory and name it is served from lead to exactly the path the check examined |
| StaticFiles.SplitServePath | airg/app.py:72-80 | serving `basename(f)` from `join(root, dirname(f))` reaches the normalized path of `join(root, f)` |
| StaticFiles.SecondCheckRedundant | airg/app.py:72-80 | the second check on `join(dirname, basename)` always gives the first check's answer |
| StaticFiles.ServeStaticFileIff | airg/app.py:66-82 | the route refuses exactly what the check refuses |
| StaticFiles.DownloadFile | airg/app.py:238-269 | sends exactly the existing files whose normalized path has the base as character prefix, under that path and with `basename(filename)` as download name; every refusal is status 500 |
| StaticFiles.MissingDownloadIsServerError | airg/app.py:250-269 | a missing file is answered with 500 |
| StaticFiles.DownloadFileFixed | airg/app.py:242-265 | the corrected download sends exactly the existing files under the base, and refuses with 404 |
| StaticFiles.DownloadFixedIsContainment | airg/app.py:242-254 | the corrected download serves exactly existing files inside `resume_gen` |
| StaticFiles.DownloadReachesSibling | airg/app.py:242-260 | as written, an existing file in a sibling such as `resume_gen_old` is sent; the corrected route refuses it |
| ProgressQueue.SendUpdate | airg/app.py:137-157 | the update goes last; a non-full queue keeps all entries, a full one drops exactly the oldest; the bound is kept |
| ProgressQueue.SendAllIsWindow | airg/app.py:147-157 | any run of updates leaves exactly the newest 100 entries, in sending order |
| ProgressQueue.SendAllBounded | airg/app.py:32-37 | the queue never holds more than 100 updates |
| ProgressQueue.Drain | airg/app.py:191-196 | the drain empties the queue and takes every entry, oldest first |
| ProgressQueue.SubmitForm | airg/app.py:159-200 | an invalid form leaves only the first announcement added; a valid one leaves exactly the "Starting document generation..." update |
| ProgressQueue.SubmitFormDiscardsAnnouncements | airg/app.py:164-196 | the drain throws away the two announcements just sent |

## Left out

- The Gemini client is left out. A response is given as the part list of its first candidate. An empty candidate list, which raises `IndexError` in the source, is not modelled.
- Playwright rendering, every file read and write, `mkdir` and the PDF existence check are left out. They appear only as the parameters `css` and `pdfsExist`.
- `datetime.now()` is left out. Timestamps, the letter date and the queue's ISO timestamps are parameters. Timestamps are restricted to four-digit years.
- The `\w` and `\s` classes are abstract predicates. Only these facts are fixed: `' '` is whitespace and not a word character; `'_'` is a word character and not whitespace; `'-'` and `'/'` are neither; every ASCII letter and digit is a word character and not whitespace.
- WTForms internals and the text of its error messages are left out. Each failed rule is one `FieldError` constructor.
- The prompts' instruction text is included verbatim as constants. Nothing is claimed about what the model answers.
- Flask routing, `send_file`, `send_from_directory`, the error handlers, CSRF, template rendering and the JSON responses are left out. `send_from_directory` does its own checks, and they are not modelled.
- The index handler is modelled only up to the call into the generator, through its progress updates. In the source that call passes one argument without `await`. The module also imports `DocumentGeneratorError`, which `document_generator.py` does not define. The model follows the generator's own signatures instead.
- The SSE `stream` loop, gevent and the queue's thread safety are left out. So is the `(queue.Empty, queue.Full)` branch of `send_update`, which only a concurrent consumer or producer can reach.
- The generator writes to `resume_gen` relative to the working directory. The routes serve it relative to the application file's parent. The two agree only when the server is started from the repository root, and the model does not relate them.
- StaticFiles.StrictIsContainment: assumes an absolute application directory (`__file__` is absolute) and a relative file name (Flask's `path` converter never yields a leading `/`). The same holds for the other `StaticFiles` lemmas that require them.
- Paths.NormPathAbs: stated for absolute paths only. `abspath` never hands `normpath` anything else.

## Findings

| source | as written | input that shows it | evidently intended | confidence | as-written member | corrected member |
|---|---|---|---|---|---|---|
| airg/app.py:56-60 | the containment test is `requested_path.startswith(base_dir)` on text, and `download_file` repeats it at airg/app.py:247 | with the application in `/app/airg`, directory `resume` and file name `../resume_gen/x` give base `/app/resume` and request `/app/resume_gen/x`, and the request is accepted; `download_file` likewise accepts `../resume_gen_old/x` | accept only the base itself or paths below `base + "/"` | high for the check itself, not executed; `send_from_directory` may still refuse in `serve_static_file` | StaticFiles.SiblingAccepted | StaticFiles.StrictIsContainment |
| airg/app.py:240-269 | both `abort(404)` calls sit inside `try ... except Exception`, which catches the raised HTTP exception and answers `abort(500)` | any file name of a file that does not exist, such as `missing.pdf` | answer 404 for a refused or missing file | high, not executed | StaticFiles.MissingDownloadIsServerError | StaticFiles.DownloadFileFixed |
