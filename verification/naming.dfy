/** Where one generation run writes its files: `_create_output_dir` and the file
    names built in `generate_pdfs`.

    The run directory is `resume_gen/<timestamp>_<sanitized title>` and holds
    `Resume_<t>.html`, `Resume_<t>.pdf`, `Cover_Letter_<t>.html` and
    `Cover_Letter_<t>.pdf`. `mkdir(exist_ok=True)` means an existing directory is
    reused, so the lemmas below say exactly when two runs share one. */
module OutputNaming {
  import opened Wrappers
  import opened CharClasses
  import opened Sanitizer
  import opened Timestamps
  import opened Paths

  /** A file `name` inside the run directory `dir`, itself inside `resume_gen`. */
  datatype OutputPath = OutputPath(dir: string, name: string)

  datatype OutputFiles = OutputFiles(
    resumeHtml: OutputPath, resumePdf: OutputPath,
    letterHtml: OutputPath, letterPdf: OutputPath)

  /** The pieces of `a + "_" + b`. */
  lemma UnderscoreJoined(a: string, b: string)
    ensures var r := a + "_" + b;
      && |r| == |a| + 1 + |b|
      && r[..|a|] == a && r[|a|] == '_' && r[|a| + 1..] == b
  {
  }

  /** `f"{timestamp}_{safe_job_title}"` */
  function DirName(cls: Classes, ts: Timestamp, jobTitle: string): (r: string)
    requires ts.Valid()
    ensures |r| >= 16 && r[..15] == Format(ts) && r[15] == '_'
    ensures Parse(r[..15]) == Some(ts)
    ensures r[16..] == Sanitize(cls, jobTitle)
  {
    var f := Format(ts);
    UnderscoreJoined(f, Sanitize(cls, jobTitle));
    FormatParse(ts);
    f + "_" + Sanitize(cls, jobTitle)
  }

  /** Two runs share a directory exactly when they start in the same second and
      their titles sanitize to the same text. */
  lemma DirNameShared(cls: Classes, a: Timestamp, t1: string, b: Timestamp, t2: string)
    requires a.Valid() && b.Valid()
    ensures DirName(cls, a, t1) == DirName(cls, b, t2) <==>
            a == b && Sanitize(cls, t1) == Sanitize(cls, t2)
  {
    var d1, d2 := DirName(cls, a, t1), DirName(cls, b, t2);
    if d1 == d2 {
      assert d1[..15] == Format(a);
      assert d2[..15] == Format(b);
      FormatInjective(a, b);
      assert d1[16..] == Sanitize(cls, t1);
      assert d2[16..] == Sanitize(cls, t2);
    }
  }

  /** The run directory is one safe path component: the job title cannot move it
      outside `resume_gen`. */
  lemma DirNameIsSafeComponent(cls: Classes, ts: Timestamp, jobTitle: string)
    requires cls.Valid() && ts.Valid()
    ensures SafeComponent(DirName(cls, ts, jobTitle))
  {
    var f := Format(ts);
    var s := Sanitize(cls, jobTitle);
    var d := DirName(cls, ts, jobTitle);
    FormatCharacters(ts);
    SanitizeHasNoSlash(cls, jobTitle);
    forall i | 0 <= i < |d| ensures d[i] != '/' {
      if i < 15 { assert d[i] == f[i]; }
      else if i == 15 { assert d[i] == '_'; }
      else { assert d[i] == s[i - 16]; }
    }
    assert d[0] == f[0];
  }

  function ResumeBase(cls: Classes, jobTitle: string): string {
    "Resume_" + Sanitize(cls, jobTitle)
  }

  function CoverLetterBase(cls: Classes, jobTitle: string): string {
    "Cover_Letter_" + Sanitize(cls, jobTitle)
  }

  /** The four output paths of one run. */
  function PlanOutput(cls: Classes, ts: Timestamp, jobTitle: string): (r: OutputFiles)
    requires ts.Valid()
    ensures r.resumeHtml.dir == r.resumePdf.dir == r.letterHtml.dir == r.letterPdf.dir
    ensures r.resumeHtml.dir == DirName(cls, ts, jobTitle)
    ensures r.resumeHtml.name == "Resume_" + Sanitize(cls, jobTitle) + ".html"
    ensures r.resumePdf.name == "Resume_" + Sanitize(cls, jobTitle) + ".pdf"
    ensures r.letterHtml.name == "Cover_Letter_" + Sanitize(cls, jobTitle) + ".html"
    ensures r.letterPdf.name == "Cover_Letter_" + Sanitize(cls, jobTitle) + ".pdf"
    ensures r.resumeHtml.name != r.resumePdf.name
    ensures r.resumeHtml.name != r.letterHtml.name
    ensures r.resumeHtml.name != r.letterPdf.name
    ensures r.resumePdf.name != r.letterHtml.name
    ensures r.resumePdf.name != r.letterPdf.name
    ensures r.letterHtml.name != r.letterPdf.name
  {
    var dir := DirName(cls, ts, jobTitle);
    var rb, cb := ResumeBase(cls, jobTitle), CoverLetterBase(cls, jobTitle);
    var r := OutputFiles(
      OutputPath(dir, rb + ".html"), OutputPath(dir, rb + ".pdf"),
      OutputPath(dir, cb + ".html"), OutputPath(dir, cb + ".pdf"));
    assert (rb + ".html")[0] == 'R' && (rb + ".pdf")[0] == 'R';
    assert (cb + ".html")[0] == 'C' && (cb + ".pdf")[0] == 'C';
    assert |rb + ".html"| != |rb + ".pdf"|;
    assert |cb + ".html"| != |cb + ".pdf"|;
    r
  }

  /** A file name made of a fixed stem, the sanitized title and an extension. */
  lemma LabelledNameSafe(stem: string, t: string, ext: string)
    requires |stem| > 0 && stem[0] != '.'
    requires NoSlash(stem) && NoSlash(t) && NoSlash(ext)
    ensures SafeComponent(stem + t + ext)
  {
    NoSlashAppend(stem, t);
    NoSlashAppend(stem + t, ext);
    assert (stem + t + ext)[0] == stem[0];
  }

  lemma FileNamesSafe(t: string)
    requires NoSlash(t)
    ensures SafeComponent("Resume_" + t + ".html") && SafeComponent("Resume_" + t + ".pdf")
    ensures SafeComponent("Cover_Letter_" + t + ".html")
    ensures SafeComponent("Cover_Letter_" + t + ".pdf")
  {
    assert NoSlash("Resume_") && NoSlash("Cover_Letter_");
    assert NoSlash(".html") && NoSlash(".pdf");
    LabelledNameSafe("Resume_", t, ".html");
    LabelledNameSafe("Resume_", t, ".pdf");
    LabelledNameSafe("Cover_Letter_", t, ".html");
    LabelledNameSafe("Cover_Letter_", t, ".pdf");
  }

  /** Every planned name is one path component: neither the run directory nor a
      file name can climb out of `resume_gen`. */
  lemma PlanOutputSafe(cls: Classes, ts: Timestamp, jobTitle: string)
    requires ts.Valid()
    ensures cls.Valid() ==>
      var r := PlanOutput(cls, ts, jobTitle);
      && SafeComponent(r.resumeHtml.dir)
      && SafeComponent(r.resumeHtml.name) && SafeComponent(r.resumePdf.name)
      && SafeComponent(r.letterHtml.name) && SafeComponent(r.letterPdf.name)
  {
    if cls.Valid() {
      DirNameIsSafeComponent(cls, ts, jobTitle);
      SanitizeHasNoSlash(cls, jobTitle);
      var t := Sanitize(cls, jobTitle);
      FileNamesSafe(t);
      var r := PlanOutput(cls, ts, jobTitle);
      assert r.resumeHtml.name == "Resume_" + t + ".html";
      assert r.resumePdf.name == "Resume_" + t + ".pdf";
      assert r.letterHtml.name == "Cover_Letter_" + t + ".html";
      assert r.letterPdf.name == "Cover_Letter_" + t + ".pdf";
    }
  }

  /** Runs in the same second with titles that sanitize alike get the very same four
      paths, so the later run overwrites the earlier one's files. */
  lemma SameSecondRunsCollide(cls: Classes, ts: Timestamp, t1: string, t2: string)
    requires ts.Valid() && Sanitize(cls, t1) == Sanitize(cls, t2)
    ensures PlanOutput(cls, ts, t1) == PlanOutput(cls, ts, t2)
  {
  }

  /** A title and its own sanitized form are different titles that collide,
      for instance `"Dev Ops"` and `"Dev_Ops"`. */
  lemma SanitizedTitleCollides(cls: Classes, ts: Timestamp, title: string)
    requires cls.Valid() && ts.Valid()
    ensures PlanOutput(cls, ts, Sanitize(cls, title)) == PlanOutput(cls, ts, title)
  {
    SanitizeIdempotent(cls, title);
  }
}
