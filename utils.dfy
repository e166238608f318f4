/** The helpers of `utils.py`: reading an uploaded resume by its extension (plain
    text, or the pages of a PDF), picking the e-mail token out of a resume, the
    prompt dicts sent to the language model, the all-or-nothing summary loop, and
    the section-pair similarity whose "Overall Score" ranks candidates. */
module Utils {
  import opened Wrappers
  import opened Text
  import opened Dicts
  import opened Chat
  import opened Sections

  // ---------------------------------------------------------------------------
  // Reading uploads (utils.py:30-51)
  // ---------------------------------------------------------------------------

  /** One PDF page as the PDF library sees it: its extracted text (`None` when the
      page has none), or the message of the exception raised while extracting it. */
  datatype Page = Page(text: Option<string>) | PageFails(reason: string)

  /** An uploaded PDF: its pages, or the message of the exception raised on opening it. */
  datatype Pdf = Pdf(pages: seq<Page>) | Unopenable(reason: string)

  /** An uploaded file: its name, its bytes decoded as UTF-8 (`None` when decoding
      raises), and the same bytes read as a PDF. */
  datatype Upload = Upload(name: string, utf8: Option<string>, pdf: Pdf)

  /** The text a PDF read yields so far, or the message of the exception that ended it. */
  datatype PdfRead = Read(text: string) | ReadFails(reason: string)

  /** The message of the exception raised while reading a PDF follows this prefix.
      It is written in pieces so that its characters can be examined a few at a time. */
  const PdfErrorPrefix := "An unexpected error " + "occurred while " + "processing PDF with " + "pdfplumber: "

  const UnsupportedPrefix := "Unsupported file type: "

  /** `page.extract_text() or ""`. */
  function PageString(text: Option<string>): string {
    if text.Some? then text.value else ""
  }

  /** One turn of the page loop. */
  function PageStep(r: PdfRead, p: Page): PdfRead {
    match r
    case ReadFails(_) => r
    case Read(t) =>
      match p
      case PageFails(e) => ReadFails(e)
      case Page(x) => Read(t + PageString(x))
  }

  /** The page loop over all of `pages`. */
  function PagesText(pages: seq<Page>): PdfRead
    decreases |pages|
  {
    if pages == [] then Read("") else PageStep(PagesText(pages[..|pages| - 1]), pages[|pages| - 1])
  }

  /** What `read_pdf_file` returns. */
  function PdfText(pdf: Pdf): string {
    match pdf
    case Unopenable(e) => PdfErrorPrefix + e
    case Pdf(pages) =>
      match PagesText(pages)
      case Read(t) => t
      case ReadFails(e) => PdfErrorPrefix + e
  }

  /** No page raises. */
  predicate AllPagesRead(pages: seq<Page>) {
    forall i :: 0 <= i < |pages| ==> pages[i].Page?
  }

  /** The page texts concatenated, front to back: the reference the page loop is measured against. */
  function Joined(pages: seq<Page>): string
    requires AllPagesRead(pages)
  {
    if pages == [] then "" else PageString(pages[0].text) + Joined(pages[1..])
  }

  lemma {:induction false} JoinedSnoc(pages: seq<Page>, p: Page)
    requires AllPagesRead(pages)
    requires p.Page?
    ensures Joined(pages + [p]) == Joined(pages) + PageString(p.text)
    decreases |pages|
  {
    if pages != [] {
      assert (pages + [p])[1..] == pages[1..] + [p];
      JoinedSnoc(pages[1..], p);
    }
  }

  /** The page loop reads every page when none raises, and then yields the page texts
      joined in page order. */
  lemma {:induction false} PagesTextRead(pages: seq<Page>)
    ensures PagesText(pages).Read? <==> AllPagesRead(pages)
    ensures PagesText(pages).Read? ==> PagesText(pages).text == Joined(pages)
    decreases |pages|
  {
    if pages != [] {
      var front, last := pages[..|pages| - 1], pages[|pages| - 1];
      assert pages == front + [last];
      PagesTextRead(front);
      if !AllPagesRead(front) {
        var i :| 0 <= i < |front| && !front[i].Page?;
        assert !pages[i].Page?;
      } else if last.Page? {
        JoinedSnoc(front, last);
      }
    }
  }

  /** A failed page loop stopped at the first page that raises and keeps that page's message. */
  lemma {:induction false} PagesTextFails(pages: seq<Page>)
    requires PagesText(pages).ReadFails?
    ensures exists k :: 0 <= k < |pages| && pages[k] == PageFails(PagesText(pages).reason)
                        && forall i :: 0 <= i < k ==> pages[i].Page?
    decreases |pages|
  {
    var front, last := pages[..|pages| - 1], pages[|pages| - 1];
    var before := PagesText(front);
    assert PagesText(pages) == PageStep(before, last);
    if before.Read? {
      PagesTextRead(front);
      assert last == PageFails(PagesText(pages).reason);
      assert forall i :: 0 <= i < |front| ==> pages[i] == front[i];
    } else {
      PagesTextFails(front);
      var k :| 0 <= k < |front| && front[k] == PageFails(before.reason)
               && forall i :: 0 <= i < k ==> front[i].Page?;
      assert forall i :: 0 <= i <= k ==> pages[i] == front[i];
    }
  }

  /** Both halves together: read in full exactly when no page raises, otherwise the first raising page's message. */
  lemma PagesTextSpec(pages: seq<Page>)
    ensures PagesText(pages).Read? <==> AllPagesRead(pages)
    ensures PagesText(pages).Read? ==> PagesText(pages).text == Joined(pages)
    ensures PagesText(pages).ReadFails? ==>
      exists k :: 0 <= k < |pages| && pages[k] == PageFails(PagesText(pages).reason)
                  && forall i :: 0 <= i < k ==> pages[i].Page?
  {
    PagesTextRead(pages);
    if PagesText(pages).ReadFails? {
      PagesTextFails(pages);
    }
  }

  /** `read_pdf_file`: the page texts appended one page at a time; an exception at
      any point replaces the text read so far by the error string. */
  method ReadPdfFile(pdf: Pdf) returns (text: string)
    ensures text == PdfText(pdf)
    ensures StartsWith(text, PdfErrorPrefix) || (pdf.Pdf? && AllPagesRead(pdf.pages) && text == Joined(pdf.pages))
  {
    match pdf
    case Unopenable(e) =>
      text := PdfErrorPrefix + e;
      assert text[..|PdfErrorPrefix|] == PdfErrorPrefix;
    case Pdf(pages) =>
      text := "";
      PagesTextSpec(pages);
      for i := 0 to |pages|
        invariant PagesText(pages[..i]) == Read(text)
      {
        assert pages[..i + 1][..i] == pages[..i];
        match pages[i]
        case PageFails(e) =>
          text := PdfErrorPrefix + e;
          FailedReadIsFinal(pages, i + 1);
          assert pages[..|pages|] == pages;
          assert text[..|PdfErrorPrefix|] == PdfErrorPrefix;
          return;
        case Page(t) =>
          text := text + PageString(t);
      }
      assert pages[..|pages|] == pages;
  }

  /** Once a page has raised, the pages after it are not read. */
  lemma {:induction false} FailedReadIsFinal(pages: seq<Page>, n: nat)
    requires n <= |pages| && PagesText(pages[..n]).ReadFails?
    ensures PagesText(pages) == PagesText(pages[..n])
    decreases |pages| - n
  {
    if n == |pages| {
      assert pages[..n] == pages;
    } else {
      assert pages[..n + 1][..n] == pages[..n];
      FailedReadIsFinal(pages, n + 1);
    }
  }

  /** `name.split('.')[-1]`: the text after the last dot, or the whole name when it has none. */
  function LastSegment(name: string): string
    decreases |name|
  {
    if name == [] || name[|name| - 1] == '.' then []
    else LastSegment(name[..|name| - 1]) + [name[|name| - 1]]
  }

  /** The segment is a suffix of the name without a dot, and the whole name or preceded by a dot. */
  lemma {:induction false} LastSegmentSpec(name: string)
    ensures var segment := LastSegment(name);
      |segment| <= |name| && segment == name[|name| - |segment|..]
      && '.' !in segment
      && (|segment| < |name| ==> name[|name| - |segment| - 1] == '.')
    decreases |name|
  {
    if name != [] && name[|name| - 1] != '.' {
      var front := name[..|name| - 1];
      LastSegmentSpec(front);
      var segment := LastSegment(front);
      assert name[|name| - |segment| - 1..] == front[|front| - |segment|..] + [name[|name| - 1]];
    }
  }

  /** The extension `read_text_file` dispatches on. */
  function Extension(name: string): string {
    Lower(LastSegment(name))
  }

  /** What `read_text_file` returns, `None` standing for the decoding error it lets escape. */
  function FileText(f: Upload): (r: Option<string>) {
    var ext := Extension(f.name);
    if ext == "txt" then f.utf8
    else if ext == "pdf" then Some(PdfText(f.pdf))
    else Some(UnsupportedPrefix + ext)
  }

  /** `read_text_file`. A method beside `FileText` because a PDF goes through the looping
      `ReadPdfFile`; its result is proved to be `FileText`. */
  method ReadTextFile(f: Upload) returns (text: Option<string>)
    ensures text == FileText(f)
  {
    var ext := Lower(LastSegment(f.name));
    if ext == "txt" {
      text := f.utf8;
    } else if ext == "pdf" {
      var read := ReadPdfFile(f.pdf);
      text := Some(read);
    } else {
      text := Some(UnsupportedPrefix + ext);
    }
  }

  /** Only a `.txt` upload that is not valid UTF-8 raises; a PDF yields its page texts
      or the PDF error string; any other extension yields the unsupported-type string
      naming the extension. */
  lemma FileTextCases(f: Upload)
    ensures FileText(f).None? <==> Extension(f.name) == "txt" && f.utf8.None?
    ensures Extension(f.name) == "pdf" ==>
      FileText(f).Some? && (StartsWith(FileText(f).value, PdfErrorPrefix)
                           || (f.pdf.Pdf? && AllPagesRead(f.pdf.pages) && FileText(f).value == Joined(f.pdf.pages)))
    ensures Extension(f.name) != "txt" && Extension(f.name) != "pdf" ==>
      FileText(f).Some? && StartsWith(FileText(f).value, UnsupportedPrefix)
      && FileText(f).value[|UnsupportedPrefix|..] == Extension(f.name)
  {
    var ext := Extension(f.name);
    if ext == "pdf" && f.pdf.Pdf? {
      PagesTextSpec(f.pdf.pages);
      if PagesText(f.pdf.pages).ReadFails? {
        assert FileText(f).value[..|PdfErrorPrefix|] == PdfErrorPrefix;
      }
    } else if ext == "pdf" {
      assert FileText(f).value[..|PdfErrorPrefix|] == PdfErrorPrefix;
    } else if ext != "txt" {
      assert FileText(f).value[..|UnsupportedPrefix|] == UnsupportedPrefix;
    }
  }

  /** Lower-casing a name commutes with taking its last segment. */
  lemma {:induction false} LastSegmentLower(name: string)
    ensures LastSegment(Lower(name)) == Lower(LastSegment(name))
    decreases |name|
  {
    if name == [] {
      assert Lower(name) == [];
    } else {
      var front, c := name[..|name| - 1], name[|name| - 1];
      var low := Lower(name);
      assert name == front + [c];
      LowerSnoc(front, c);
      assert low[..|low| - 1] == Lower(front) && low[|low| - 1] == LowerChar(c);
      if c == '.' {
        assert Lower([]) == [];
      } else {
        LastSegmentLower(front);
        LowerSnoc(LastSegment(front), c);
      }
    }
  }

  /** The dispatch ignores the letter case of the file name: `CV.PDF` is read as `cv.pdf` is. */
  lemma DispatchIgnoresCase(f: Upload)
    ensures FileText(f) == FileText(f.(name := Lower(f.name)))
  {
    var g := f.(name := Lower(f.name));
    LastSegmentLower(f.name);
    LowerIdempotent(LastSegment(f.name));
    assert Extension(g.name) == Extension(f.name);
  }

  // ---------------------------------------------------------------------------
  // Contact information (utils.py:57-63)
  // ---------------------------------------------------------------------------

  /** `s[a..b]` is a token: a maximal run of non-whitespace characters. */
  predicate IsToken(s: string, a: int, b: int) {
    0 <= a < b <= |s| && (forall k :: a <= k < b ==> !IsSpace(s[k]))
    && (a == 0 || IsSpace(s[a - 1])) && (b == |s| || IsSpace(s[b]))
  }

  /** The pattern `\S+@\S+` matches inside a token exactly when it holds an `@`
      that is neither its first nor its last character. */
  predicate HasInnerAt(t: string) {
    |t| >= 3 && '@' in t[1..|t| - 1]
  }

  /** Where the run of non-whitespace starting at `i` ends. */
  function TokenEnd(s: string, i: nat): (j: nat)
    requires i <= |s|
    ensures i <= j <= |s| && (forall k :: i <= k < j ==> !IsSpace(s[k])) && (j == |s| || IsSpace(s[j]))
    decreases |s| - i
  {
    if i == |s| || IsSpace(s[i]) then i else TokenEnd(s, i + 1)
  }

  /** The first token at or after `i` holding an inner `@`, as its bounds. */
  function FindEmail(s: string, i: nat): (r: Option<(nat, nat)>)
    requires i <= |s|
    ensures r.Some? ==> i <= r.value.0 < r.value.1 <= |s|
    decreases |s| - i
  {
    if i == |s| then None
    else if IsSpace(s[i]) then FindEmail(s, i + 1)
    else
      var j := TokenEnd(s, i);
      if HasInnerAt(s[i..j]) then Some((i, j)) else FindEmail(s, j)
  }

  /** A token is determined by where it starts. */
  lemma TokenFromStart(s: string, a: int, b: int)
    requires IsToken(s, a, b)
    ensures b == TokenEnd(s, a)
  {
  }

  /** A token starts at a boundary followed by a non-space, runs to `TokenEnd`, and no
      other token starts inside it. */
  lemma TokenAt(s: string, i: nat)
    requires i < |s| && !IsSpace(s[i]) && (i == 0 || IsSpace(s[i - 1]))
    ensures IsToken(s, i, TokenEnd(s, i))
    ensures forall b :: IsToken(s, i, b) ==> b == TokenEnd(s, i)
    ensures forall a, b :: i < a < TokenEnd(s, i) ==> !IsToken(s, a, b)
  {
    var j := TokenEnd(s, i);
    forall a, b | i < a < j ensures !IsToken(s, a, b) {
      assert !IsSpace(s[a - 1]);
    }
    forall b | IsToken(s, i, b) ensures b == j {
      TokenFromStart(s, i, b);
    }
  }

  /** Searching from a token boundary `i` finds nothing only when no token starting
      at or after `i` holds an inner `@`. */
  lemma {:induction false} FindEmailNone(s: string, i: nat)
    requires i <= |s| && (i == 0 || i == |s| || IsSpace(s[i - 1]) || IsSpace(s[i]))
    requires FindEmail(s, i).None?
    ensures forall a, b :: i <= a && IsToken(s, a, b) ==> !HasInnerAt(s[a..b])
    decreases |s| - i
  {
    if i == |s| {
    } else if IsSpace(s[i]) {
      FindEmailNone(s, i + 1);
    } else {
      TokenAt(s, i);
      FindEmailNone(s, TokenEnd(s, i));
    }
  }

  /** What the search from a token boundary `i` finds is a token at or after `i`
      holding an inner `@`. */
  lemma {:induction false} FindEmailFound(s: string, i: nat)
    requires i <= |s| && (i == 0 || i == |s| || IsSpace(s[i - 1]) || IsSpace(s[i]))
    requires FindEmail(s, i).Some?
    ensures var (a, b) := FindEmail(s, i).value; i <= a && IsToken(s, a, b) && HasInnerAt(s[a..b])
    decreases |s| - i
  {
    if IsSpace(s[i]) {
      FindEmailFound(s, i + 1);
    } else {
      TokenAt(s, i);
      if !HasInnerAt(s[i..TokenEnd(s, i)]) {
        FindEmailFound(s, TokenEnd(s, i));
      }
    }
  }

  /** No token between `i` and what the search finds holds an inner `@`. */
  lemma {:induction false} FindEmailFirst(s: string, i: nat)
    requires i <= |s| && (i == 0 || i == |s| || IsSpace(s[i - 1]) || IsSpace(s[i]))
    requires FindEmail(s, i).Some?
    ensures forall a, b :: i <= a < FindEmail(s, i).value.0 && IsToken(s, a, b) ==> !HasInnerAt(s[a..b])
    decreases |s| - i
  {
    if IsSpace(s[i]) {
      FindEmailFirst(s, i + 1);
    } else {
      TokenAt(s, i);
      if !HasInnerAt(s[i..TokenEnd(s, i)]) {
        FindEmailFirst(s, TokenEnd(s, i));
      }
    }
  }

  /** Searching from a token boundary `i` finds the first token starting at or after
      `i` that holds an inner `@`, and finds nothing exactly when there is none. */
  lemma FindEmailSpec(s: string, i: nat)
    requires i <= |s| && (i == 0 || i == |s| || IsSpace(s[i - 1]) || IsSpace(s[i]))
    ensures FindEmail(s, i).None? ==>
      forall a, b :: i <= a && IsToken(s, a, b) ==> !HasInnerAt(s[a..b])
    ensures FindEmail(s, i).Some? ==>
      var (a, b) := FindEmail(s, i).value;
      i <= a && IsToken(s, a, b) && HasInnerAt(s[a..b])
      && forall a', b' :: i <= a' < a && IsToken(s, a', b') ==> !HasInnerAt(s[a'..b'])
  {
    if FindEmail(s, i).None? {
      FindEmailNone(s, i);
    } else {
      FindEmailFound(s, i);
      FindEmailFirst(s, i);
    }
  }

  /** `extract_contact_info`: the leftmost match of `\S+@\S+`, or `''`. */
  function ExtractContactInfo(resumeText: string): string {
    match FindEmail(resumeText, 0)
    case Some((a, b)) => resumeText[a..b]
    case None => ""
  }

  /** The extracted e-mail is the first whitespace-delimited token holding an `@`
      that is neither its first nor its last character, and it is `''` exactly when
      no token has one. */
  lemma ContactInfoSpec(resumeText: string)
    ensures var email := ExtractContactInfo(resumeText);
      (email == "" <==> forall a, b :: IsToken(resumeText, a, b) ==> !HasInnerAt(resumeText[a..b]))
      && (email != "" ==>
            exists a, b :: IsToken(resumeText, a, b) && email == resumeText[a..b] && HasInnerAt(email)
                           && forall a', b' :: a' < a && IsToken(resumeText, a', b') ==> !HasInnerAt(resumeText[a'..b']))
  {
    FindEmailSpec(resumeText, 0);
  }

  // ---------------------------------------------------------------------------
  // Prompts (utils.py:66-172, 241-263)
  // ---------------------------------------------------------------------------

  const Rule := "--------------------"
  const ResumeRole := "You are an ATS (Applicant Tracking System) that extracts relevant information from resumes"
  const ResumeGiven := "Given the following resume text:"
  const JobRole := "You are an ATS (Applicant Tracking System) that extracts structured information from job descriptions."
  const JobGiven := "Given the following job description text:"

  /** The lines of a triple-quoted prompt up to the inserted text, each indented by `indent`. */
  function Opening(indent: string, role: string, given: string): string {
    "\n" + indent + role + "\n" + indent + given + "\n" + indent + Rule + "\n" + indent
  }

  /** The lines of a triple-quoted prompt after the inserted text. */
  function Closing(indent: string, ask: string): string {
    "\n" + indent + Rule + "\n" + indent + ask + "\n" + indent
  }

  /** Every framed text contains the text it frames. */
  lemma FramesContain(frames: seq<(string, string)>, text: string)
    ensures forall i :: 0 <= i < |frames| ==> Contains(frames[i].0 + text + frames[i].1, text)
  {
    forall i | 0 <= i < |frames| ensures Contains(frames[i].0 + text + frames[i].1, text) {
      ContainsInfix(frames[i].0, text, frames[i].1);
    }
  }

  /** A prompt dict: under each key, `text` between that key's opening and closing lines. */
  function Framed(keys: seq<string>, frames: seq<(string, string)>, text: string): (prompts: Dict<string>)
    requires |frames| == |keys|
    ensures Keys(prompts) == keys
    ensures forall i :: 0 <= i < |prompts| ==> prompts[i].1 == frames[i].0 + text + frames[i].1
    ensures forall i :: 0 <= i < |prompts| ==> Contains(prompts[i].1, text)
  {
    FramesContain(frames, text);
    seq(|keys|, i requires 0 <= i < |keys| => (keys[i], frames[i].0 + text + frames[i].1))
  }

  const Indent12 := "            "
  const Indent15 := "               "
  const Indent16 := "                "

  /** The frames of the three resume prompts, in key order. */
  const ResumeFrames := [
    (Opening(Indent12, ResumeRole, ResumeGiven),
     Closing(Indent12, "Directly extract all the sections which indicates qualifications or education of the candidate from the above given resume.")),
    (Opening(Indent15, ResumeRole, ResumeGiven),
     Closing(Indent15, "Directly extract all the sections which indicates Skills and certifications of the candidate from the above given resume.")),
    (Opening(Indent15, ResumeRole, ResumeGiven),
     Closing(Indent15, "Directly extract all the sections which indicates Projects and Work Experience of the candidate from the above given resume."))
  ]

  /** The frames of the five job-description prompts, in key order. */
  const JobFrames := [
    (Opening(Indent16, JobRole, JobGiven),
     Closing(Indent16, "Directly state the company information given in the above job description.")),
    (Opening(Indent12, JobRole, JobGiven),
     Closing(Indent12, "Directly state the role overview  given in the above job description.")),
    (Opening(Indent12, JobRole, JobGiven),
     Closing(Indent12, "Directly list all the required Skills and technologies given in the above job description.")),
    (Opening(Indent12, JobRole, JobGiven),
     Closing(Indent12, "Directly list all the required qualifications or education given in the above job description.")),
    (Opening(Indent12, JobRole, JobGiven),
     Closing(Indent12, "Directly list all the responsibilities and duties given in the above job description."))
  ]

  /** `get_resume_summary_prompts`: the three resume sections, in order, each prompt quoting the resume. */
  function ResumeSummaryPrompts(resumeText: string): (prompts: Dict<string>)
    ensures Keys(prompts) == ResumeSectionNames
    ensures forall i :: 0 <= i < |prompts| ==> Contains(prompts[i].1, resumeText)
  {
    Framed(ResumeSectionNames, ResumeFrames, resumeText)
  }

  /** `get_jd_summary_prompts`: the five job sections, "About Company" first, each prompt quoting the job description. */
  function JobSummaryPrompts(jdText: string): (prompts: Dict<string>)
    ensures Keys(prompts) == JobSectionNames
    ensures forall i :: 0 <= i < |prompts| ==> Contains(prompts[i].1, jdText)
  {
    Framed(JobSectionNames, JobFrames, jdText)
  }

  /** Text placed between fixed pieces is contained in the result. */
  lemma ContainsBoth(a: string, x: string, b: string, y: string, c: string)
    ensures Contains(a + x + b + y + c, x) && Contains(a + x + b + y + c, y)
  {
    ContainsInfix(a, x, b + y + c);
    ContainsInfix(a + x + b, y, c);
    assert a + x + (b + y + c) == a + x + b + y + c;
  }

  const SummaryIntro := "\n" + Indent16 + "You are an expert recruiter. \n"
    + Indent16 + "Analyze the following job description and candidate resume to explain in 3 sentences why this person is a great fit for the role. Focus on matching keywords, skills, experience and be precise.\n"
    + Indent12 + "\n" + Indent16 + "Job Description:\n" + Indent16
  const SummaryMiddle := "\n" + Indent12 + "\n" + Indent16 + "Resume:\n" + Indent16
  const SummaryOutro := "\n" + Indent12 + "\n" + Indent16 + "Summary:\n" + Indent16

  /** `get_summary_prompt`: one prompt under "Summary" quoting the job description, then the resume. */
  function SummaryPrompt(jdText: string, resumeText: string): (prompts: Dict<string>)
    ensures Keys(prompts) == ["Summary"]
    ensures Contains(prompts[0].1, jdText) && Contains(prompts[0].1, resumeText)
  {
    ContainsBoth(SummaryIntro, jdText, SummaryMiddle, resumeText, SummaryOutro);
    [("Summary", SummaryIntro + jdText + SummaryMiddle + resumeText + SummaryOutro)]
  }

  // ---------------------------------------------------------------------------
  // The summary loop (utils.py:175-195)
  // ---------------------------------------------------------------------------

  const SummaryErrorPrefix := "Error generating summary: "

  /** What `generate_summary` returns. */
  function Summarised(prompts: Dict<string>, model: Model): Summary {
    match AskAll(prompts, model)
    case Answered(d) => Sections(d)
    case FailedAt(_, m) => Message(SummaryErrorPrefix + m)
  }

  /** `generate_summary`: asks each prompt in order; the first request that raises
      ends the loop, and the summaries gathered so far are dropped for an error string. */
  method GenerateSummary(prompts: Dict<string>, model: Model) returns (summary: Summary, requests: nat)
    ensures summary == Summarised(prompts, model)
    ensures requests == RequestCount(AskAll(prompts, model), |prompts|)
  {
    var outcome;
    outcome, requests := AskEach(prompts, model);
    match outcome
    case Answered(d) =>
      summary := Sections(d);
    case FailedAt(_, message) =>
      summary := Message(SummaryErrorPrefix + message);
  }

  /** All or nothing: the summary is a section dict exactly when every request is
      answered, and then it holds every prompt key in order with the stripped answer;
      otherwise it is the error string carrying the first failure's message, and no
      request after that one was sent. */
  lemma SummarisedSpec(prompts: Dict<string>, model: Model)
    requires DistinctKeys(prompts)
    ensures Summarised(prompts, model).Sections? <==>
      forall i :: 0 <= i < |prompts| ==> AnswersAt(prompts, model, i)
    ensures Summarised(prompts, model).Sections? ==>
      var d := Summarised(prompts, model).sections;
      Keys(d) == Keys(prompts)
      && forall i :: 0 <= i < |d| ==> model(i, prompts[i].1).Answer? && d[i].1 == Strip(model(i, prompts[i].1).content)
    ensures Summarised(prompts, model).Message? ==>
      var k := AskAll(prompts, model).index;
      k < |prompts| && RequestCount(AskAll(prompts, model), |prompts|) == k + 1
      && model(k, prompts[k].1).Raised?
      && Summarised(prompts, model).text == SummaryErrorPrefix + model(k, prompts[k].1).message
      && StartsWith(Summarised(prompts, model).text, "Error")
  {
    AnsweredIffNoneRaised(prompts, model, |prompts|);
    var a := AskAll(prompts, model);
    if a.Answered? {
      AnsweredSections(prompts, model, |prompts|);
    } else {
      FailedAtFirst(prompts, model, |prompts|);
      assert Summarised(prompts, model).text[..5] == "Error";
    }
  }

  // ---------------------------------------------------------------------------
  // Section similarity (utils.py:198-238)
  // ---------------------------------------------------------------------------

  const OverallScore := "Overall Score"

  /** The key pair `i` is stored under: the bare job section when it was scored,
      the `"R ↔ J"` label when it was set to zero. */
  function PairKey(i: nat, resume: Dict<string>, jd: Dict<string>): string
    requires i < |SectionPairs|
  {
    if Scored(i, resume, jd) then SectionPairs[i].1 else PairLabel(i)
  }

  /** What `compute_section_similarity` returns. */
  function SectionScores(resume: Dict<string>, jd: Dict<string>, sim: Similarity): Dict<real> {
    var s0, s1, s2 := PairScore(0, resume, jd, sim), PairScore(1, resume, jd, sim), PairScore(2, resume, jd, sim);
    [(PairKey(0, resume, jd), s0), (PairKey(1, resume, jd), s1), (PairKey(2, resume, jd), s2),
     (OverallScore, Mean([s0, s1, s2]))]
  }

  /** The possible keys all differ in length, so no two of them coincide. */
  lemma PairKeysDiffer(resume: Dict<string>, jd: Dict<string>, i: nat, j: nat)
    requires i < j < |SectionPairs|
    ensures PairKey(i, resume, jd) != PairKey(j, resume, jd)
    ensures PairKey(i, resume, jd) != OverallScore && PairKey(j, resume, jd) != OverallScore
  {
    PairKeyLength(resume, jd, i);
    PairKeyLength(resume, jd, j);
    assert |OverallScore| == 13;
  }

  /** The length of pair `i`'s key, which depends only on `i` and on whether the pair is scored. */
  lemma PairKeyLength(resume: Dict<string>, jd: Dict<string>, i: nat)
    requires i < |SectionPairs|
    ensures |PairKey(i, resume, jd)| == if Scored(i, resume, jd) then [28, 32, 27][i] else [59, 60, 58][i]
  {
    KeyLengths();
  }

  lemma MeanOfThree(a: real, b: real, c: real)
    ensures Mean([a, b, c]) == (a + b + c) / 3.0
  {
    assert [a][..0] == [];
    assert Sum([a]) == a;
    assert [a, b][..1] == [a];
    assert Sum([a, b]) == a + b;
    assert [a, b, c][..2] == [a, b];
  }

  /** The result holds exactly three pair entries and then "Overall Score", all under
      distinct keys; a pair with an empty or missing side is stored as 0.0 under its
      `"R ↔ J"` label, a scored pair under its bare job key; the overall score is the
      mean of exactly the three pair values, zeros included. */
  lemma SectionScoresSpec(resume: Dict<string>, jd: Dict<string>, sim: Similarity)
    ensures var d := SectionScores(resume, jd, sim);
      |d| == 4 && DistinctKeys(d) && d[3].0 == OverallScore
      && (forall i :: 0 <= i < 3 ==>
            (Scored(i, resume, jd) ==> d[i] == (SectionPairs[i].1, sim(PairTexts(i, resume, jd).0, PairTexts(i, resume, jd).1)))
            && (!Scored(i, resume, jd) ==> d[i] == (PairLabel(i), 0.0)))
      && Get(d, OverallScore, 0.0) == (d[0].1 + d[1].1 + d[2].1) / 3.0
  {
    var d := SectionScores(resume, jd, sim);
    PairKeysDiffer(resume, jd, 0, 1);
    PairKeysDiffer(resume, jd, 0, 2);
    PairKeysDiffer(resume, jd, 1, 2);
    MeanOfThree(d[0].1, d[1].1, d[2].1);
    GetAt(d, 3, 0.0);
  }

  /** Storing pair `i` extends the first `i` entries of the result by its entry. */
  lemma StorePair(resume: Dict<string>, jd: Dict<string>, sim: Similarity, i: nat, d: Dict<real>)
    requires i < |SectionPairs| && d == SectionScores(resume, jd, sim)[..i]
    ensures Set(d, PairKey(i, resume, jd), PairScore(i, resume, jd, sim)) == SectionScores(resume, jd, sim)[..i + 1]
  {
    var target := SectionScores(resume, jd, sim);
    var k := PairKey(i, resume, jd);
    assert target[i] == (k, PairScore(i, resume, jd, sim));
    if i == 1 {
      PairKeysDiffer(resume, jd, 0, 1);
    } else if i == 2 {
      PairKeysDiffer(resume, jd, 0, 2);
      PairKeysDiffer(resume, jd, 1, 2);
    }
    SetAbsent(d, k, PairScore(i, resume, jd, sim));
    assert target[..i + 1] == target[..i] + [target[i]];
  }

  /** Storing the mean of the three pair values completes the result. */
  lemma StoreOverall(resume: Dict<string>, jd: Dict<string>, sim: Similarity, d: Dict<real>)
    requires d == SectionScores(resume, jd, sim)[..3]
    ensures Set(d, OverallScore, Mean(Values(d))) == SectionScores(resume, jd, sim)
  {
    var target := SectionScores(resume, jd, sim);
    PairKeysDiffer(resume, jd, 0, 2);
    PairKeysDiffer(resume, jd, 1, 2);
    SetAbsent(d, OverallScore, Mean(Values(d)));
    assert Values(d) == [target[0].1, target[1].1, target[2].1];
    assert target == d + [target[3]];
  }

  /** `compute_section_similarity`: walks the three pairs in order, scoring a pair
      only when both sides are non-empty, then appends the mean under "Overall Score".
      `encoded` lists the text pairs handed to the embedding model, in order. */
  method ComputeSectionSimilarity(resume: Dict<string>, jd: Dict<string>, sim: Similarity)
    returns (similarities: Dict<real>, encoded: seq<(string, string)>)
    ensures similarities == SectionScores(resume, jd, sim)
    ensures encoded == Encoded(resume, jd, |SectionPairs|)
  {
    similarities := [];
    encoded := [];
    for i := 0 to |SectionPairs|
      invariant similarities == SectionScores(resume, jd, sim)[..i]
      invariant encoded == Encoded(resume, jd, i)
    {
      var (resumeKey, jobKey) := SectionPairs[i];
      var resumeText := Get(resume, resumeKey, "");
      var jobText := Get(jd, jobKey, "");
      StorePair(resume, jd, sim, i, similarities);
      if resumeText == "" || jobText == "" {
        similarities := Set(similarities, resumeKey + " \U{2194} " + jobKey, 0.0);
        continue;
      }
      encoded := encoded + [(resumeText, jobText)];
      similarities := Set(similarities, jobKey, sim(resumeText, jobText));
    }
    var average := Mean(Values(similarities));
    StoreOverall(resume, jd, sim, similarities);
    similarities := Set(similarities, OverallScore, average);
  }
}
