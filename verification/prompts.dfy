/** The two prompt builders of the document generator, `_create_resume_prompt` and
    `_create_cover_letter_prompt`, as templates of literal text and substituted values.

    The literal text is the source's, character for character, including the
    indentation of its triple-quoted f-strings. The "additional experience" block is
    itself an f-string that is substituted only when `relevant_experience` is
    non-empty; here it is spliced into the template as its own pieces. */
module Prompts {
  import opened Templates
  import opened JobDetails

  const ResumeContextHead: string :=
    "\n" +
    "            Additional Relevant Experience:\n" +
    "            "

  const ContextTail: string :=
    "\n" +
    "            "

  const LetterContextHead: string :=
    "\n" +
    "            Additional Context - Relevant Experience to Highlight:\n" +
    "            "

  const ResumeLit0: string :=
    "\n" +
    "        Given this resume content:\n" +
    "        "

  const ResumeLit1: string :=
    "\n" +
    "        \n" +
    "        And this job description:\n" +
    "        "

  const ResumeLit2: string :=
    "\n" +
    "        \n" +
    "        Company Overview:\n" +
    "        "

  const ResumeLit3: string :=
    "\n" +
    "        "

  const ResumeInstructions: string :=
    "\n" +
    "        \n" +
    "        Instructions:\n" +
    "        1. Analyze the job description, company overview, and any additional relevant experience carefully\n" +
    "        2. IMPORTANT: Do NOT modify any HTML tags or structure - only update the text content within existing elements\n" +
    "        3. Customize ONLY the text content to better match the job requirements while keeping all HTML intact\n" +
    "        4. Highlight relevant skills and experience that match the job description\n" +
    "        5. If additional relevant experience was provided, incorporate it naturally into the appropriate sections\n" +
    "        6. Ensure the modifications are subtle and professional\n" +
    "        7. Keep all existing sections and their HTML structure exactly as is\n" +
    "        8. Add relevant keywords from the job description naturally within the existing text\n" +
    "        \n" +
    "        IMPORTANT: \n" +
    "        - Return ONLY the raw HTML content\n" +
    "        - Do NOT modify ANY HTML tags or attributes\n" +
    "        - Only change the text between tags\n" +
    "        - Keep all HTML structure exactly as provided\n" +
    "        - Do NOT wrap response in markdown code blocks\n" +
    "        - Start directly with <!DOCTYPE html>\n" +
    "        "

  const LetterLit0: string :=
    "\n" +
    "        Given this resume content:\n" +
    "        "

  const LetterLit1: string :=
    "\n" +
    "        \n" +
    "        Create a professional cover letter with the following details:\n" +
    "        - Job Title: "

  const LetterLit2: string :=
    "\n" +
    "        - Company: "

  const LetterLit3: string :=
    "\n" +
    "        - Hiring Manager: "

  const LetterLit4: string :=
    " "

  const LetterLit5: string :=
    " if provided, otherwise omit the name\n" +
    "        - Date: "

  const LetterLit6: string :=
    "\n" +
    "        \n" +
    "        Job Description:\n" +
    "        "

  const LetterLit7: string :=
    "\n" +
    "        \n" +
    "        Company Overview:\n" +
    "        "

  const LetterLit8: string :=
    "\n" +
    "        "

  const LetterLit9: string :=
    "\n" +
    "        \n" +
    "        Instructions:\n" +
    "        1. IMPORTANT: Use EXACTLY this HTML structure - do not modify any tags:\n" +
    "        "

  const LetterInstructions: string :=
    "\n" +
    "\n" +
    "        2. Only modify:\n" +
    "           - [DATE] with the provided date\n" +
    "           - [RECIPIENT] with the hiring manager details\n" +
    "           - The content within the letter-body div\n" +
    "        3. Focus on matching the candidate\'s experience with the job requirements\n" +
    "        4. If additional relevant experience was provided, emphasize it prominently in the letter\n" +
    "        5. Demonstrate understanding of the company\'s values and culture\n" +
    "        6. Keep the tone professional yet engaging\n" +
    "        7. Include a strong call to action in the closing paragraph\n" +
    "        8. Limit to 3-4 paragraphs\n" +
    "        \n" +
    "        IMPORTANT: \n" +
    "        - Return ONLY the raw HTML content\n" +
    "        - Use EXACTLY the HTML structure provided\n" +
    "        - Only modify the marked placeholders and letter body content\n" +
    "        - Do NOT modify any other HTML elements or attributes\n" +
    "        - Do NOT wrap response in markdown code blocks\n" +
    "        - Start directly with <!DOCTYPE html>\n" +
    "        "

  /** `"Mr." if form_data['hirer_gender'] == 'male' else "Ms."` */
  function Salutation(gender: string): (r: string)
    ensures r == "Mr." <==> gender == "male"
    ensures r == "Mr." || r == "Ms."
  {
    if gender == "male" then "Mr." else "Ms."
  }

  /** The `additional_context` block, present only for non-empty experience text. */
  function ExperienceBlock(head: string, experience: string): seq<Piece> {
    if experience == "" then [] else Interleave([head, ContextTail], [experience])
  }

  function ResumeTemplate(resumeContent: string, fd: FormData): seq<Piece> {
    Interleave([ResumeLit0, ResumeLit1, ResumeLit2, ResumeLit3],
               [resumeContent, fd.jobDescription, fd.companyOverview]) +
    ExperienceBlock(ResumeContextHead, fd.relevantExperience) +
    [Lit(ResumeInstructions)]
  }

  /** `_create_resume_prompt(resume_content, form_data)`: the resume content, the job
      description, the company overview and, when given, the relevant experience
      appear verbatim in the prompt, in that order. */
  function ResumePrompt(resumeContent: string, fd: FormData): (r: string)
    ensures InOrder(r, [resumeContent, fd.jobDescription, fd.companyOverview] + Experience(fd))
  {
    RenderKeepsHolesInOrder(ResumeTemplate(resumeContent, fd));
    ResumeParts(resumeContent, fd);
    Render(ResumeTemplate(resumeContent, fd))
  }

  function CoverLetterTemplate(resumeContent: string, fd: FormData, date: string,
                               letterTemplate: string): seq<Piece> {
    Interleave([LetterLit0, LetterLit1, LetterLit2, LetterLit3, LetterLit4, LetterLit5,
                LetterLit6, LetterLit7, LetterLit8],
               [resumeContent, fd.jobTitle, fd.companyName, Salutation(fd.hirerGender),
                fd.hirerName, date, fd.jobDescription, fd.companyOverview]) +
    ExperienceBlock(LetterContextHead, fd.relevantExperience) +
    Interleave([LetterLit9, LetterInstructions], [letterTemplate])
  }

  /** `_create_cover_letter_prompt(resume_content, form_data)`; the date text and the
      letter template file's contents are passed in. */
  function CoverLetterPrompt(resumeContent: string, fd: FormData, date: string,
                             letterTemplate: string): (r: string)
    ensures InOrder(r, [resumeContent, fd.jobTitle, fd.companyName, Salutation(fd.hirerGender),
                        fd.hirerName, date, fd.jobDescription, fd.companyOverview] +
                       Experience(fd) + [letterTemplate])
  {
    RenderKeepsHolesInOrder(CoverLetterTemplate(resumeContent, fd, date, letterTemplate));
    CoverLetterParts(resumeContent, fd, date, letterTemplate);
    Render(CoverLetterTemplate(resumeContent, fd, date, letterTemplate))
  }

  function Experience(fd: FormData): seq<string> {
    if fd.relevantExperience == "" then [] else [fd.relevantExperience]
  }

  lemma ExperienceParts(head: string, fd: FormData)
    ensures Holes(ExperienceBlock(head, fd.relevantExperience)) == Experience(fd)
  {
    if fd.relevantExperience != "" {
      InterleaveParts([head, ContextTail], [fd.relevantExperience]);
      assert [head, ContextTail][1..] == [ContextTail];
      assert [ContextTail][1..] == [];
    }
  }

  lemma ResumeParts(resumeContent: string, fd: FormData)
    ensures Holes(ResumeTemplate(resumeContent, fd)) ==
      [resumeContent, fd.jobDescription, fd.companyOverview] + Experience(fd)
  {
    var a := Interleave([ResumeLit0, ResumeLit1, ResumeLit2, ResumeLit3],
                        [resumeContent, fd.jobDescription, fd.companyOverview]);
    var b := ExperienceBlock(ResumeContextHead, fd.relevantExperience);
    var c := [Lit(ResumeInstructions)];
    RenderAppend(a + b, c);
    RenderAppend(a, b);
    InterleaveParts([ResumeLit0, ResumeLit1, ResumeLit2, ResumeLit3],
                    [resumeContent, fd.jobDescription, fd.companyOverview]);
    ExperienceParts(ResumeContextHead, fd);
    assert c[1..] == [];
  }

  lemma CoverLetterParts(resumeContent: string, fd: FormData, date: string,
                         letterTemplate: string)
    ensures Holes(CoverLetterTemplate(resumeContent, fd, date, letterTemplate)) ==
      [resumeContent, fd.jobTitle, fd.companyName, Salutation(fd.hirerGender),
       fd.hirerName, date, fd.jobDescription, fd.companyOverview] +
      Experience(fd) + [letterTemplate]
  {
    var lits := [LetterLit0, LetterLit1, LetterLit2, LetterLit3, LetterLit4, LetterLit5,
                 LetterLit6, LetterLit7, LetterLit8];
    var vals := [resumeContent, fd.jobTitle, fd.companyName, Salutation(fd.hirerGender),
                 fd.hirerName, date, fd.jobDescription, fd.companyOverview];
    var a := Interleave(lits, vals);
    var b := ExperienceBlock(LetterContextHead, fd.relevantExperience);
    var c := Interleave([LetterLit9, LetterInstructions], [letterTemplate]);
    RenderAppend(a + b, c);
    RenderAppend(a, b);
    InterleaveParts(lits, vals);
    InterleaveParts([LetterLit9, LetterInstructions], [letterTemplate]);
    ExperienceParts(LetterContextHead, fd);
  }

  lemma ExperienceRender(head: string, experience: string)
    ensures Render(ExperienceBlock(head, experience)) ==
      if experience == "" then "" else head + experience + ContextTail
  {
    if experience != "" {
      var t := ExperienceBlock(head, experience);
      assert [head, ContextTail][1..] == [ContextTail];
      assert [experience][1..] == [];
      assert Interleave([ContextTail], []) == [Lit(ContextTail)];
      assert t == Interleave([head, ContextTail], [experience]);
      assert t == [Lit(head), Hole(experience)] + Interleave([ContextTail], []);
      assert t == [Lit(head), Hole(experience), Lit(ContextTail)];
      assert t[1..] == [Hole(experience), Lit(ContextTail)];
      assert t[1..][1..] == [Lit(ContextTail)];
      assert t[1..][1..][1..] == [];
      assert Render(t[1..][1..]) == ContextTail + Render([]);
      assert Render(t[1..]) == experience + ContextTail;
      assert Render(t) == head + (experience + ContextTail);
    }
  }

  /** The "Additional Relevant Experience" block is in the resume prompt exactly when
      the relevant experience is non-empty: otherwise the prompt is the one built
      without any experience. */
  lemma ResumeExperienceBlockIff(resumeContent: string, fd: FormData)
    ensures ResumePrompt(resumeContent, fd) ==
            ResumePrompt(resumeContent, fd.(relevantExperience := "")) <==>
            fd.relevantExperience == ""
  {
    var g := fd.(relevantExperience := "");
    var a := Interleave([ResumeLit0, ResumeLit1, ResumeLit2, ResumeLit3],
                        [resumeContent, fd.jobDescription, fd.companyOverview]);
    var b := ExperienceBlock(ResumeContextHead, fd.relevantExperience);
    var c := [Lit(ResumeInstructions)];
    assert ResumeTemplate(resumeContent, fd) == a + b + c;
    assert ResumeTemplate(resumeContent, g) == a + c by {
      assert ExperienceBlock(ResumeContextHead, "") == [];
      assert a + [] + c == a + c;
    }
    RenderAppend(a + b, c);
    RenderAppend(a, b);
    RenderAppend(a, c);
    ExperienceRender(ResumeContextHead, fd.relevantExperience);
    MiddleMatters(Render(a), Render(b), Render(c));
  }

  /** The experience block is in the cover-letter prompt exactly when the relevant
      experience is non-empty. */
  lemma CoverLetterExperienceBlockIff(resumeContent: string, fd: FormData, date: string,
                                      letterTemplate: string)
    ensures CoverLetterPrompt(resumeContent, fd, date, letterTemplate) ==
            CoverLetterPrompt(resumeContent, fd.(relevantExperience := ""), date,
                              letterTemplate) <==>
            fd.relevantExperience == ""
  {
    var g := fd.(relevantExperience := "");
    var lits := [LetterLit0, LetterLit1, LetterLit2, LetterLit3, LetterLit4, LetterLit5,
                 LetterLit6, LetterLit7, LetterLit8];
    var vals := [resumeContent, fd.jobTitle, fd.companyName, Salutation(fd.hirerGender),
                 fd.hirerName, date, fd.jobDescription, fd.companyOverview];
    var a := Interleave(lits, vals);
    var b := ExperienceBlock(LetterContextHead, fd.relevantExperience);
    var c := Interleave([LetterLit9, LetterInstructions], [letterTemplate]);
    assert CoverLetterTemplate(resumeContent, fd, date, letterTemplate) == a + b + c;
    assert CoverLetterTemplate(resumeContent, g, date, letterTemplate) == a + c by {
      assert ExperienceBlock(LetterContextHead, "") == [];
      assert a + [] + c == a + c;
    }
    RenderAppend(a + b, c);
    RenderAppend(a, b);
    RenderAppend(a, c);
    ExperienceRender(LetterContextHead, fd.relevantExperience);
    MiddleMatters(Render(a), Render(b), Render(c));
  }
}
