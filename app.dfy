/** The "Find Top Candidates" button of `app.py`: check the inputs, read every
    upload and drop those whose text looks like a read error, extract the job
    description's sections once, score every resume whose own extraction did not
    fail, rank the candidates by overall score, and keep the ranking in the session. */
module App {
  import opened Wrappers
  import opened Text
  import opened Dicts
  import opened Chat
  import opened Sections
  import opened Utils

  // ---------------------------------------------------------------------------
  // Filter-and-collect loops
  // ---------------------------------------------------------------------------

  /** What one turn of a collecting loop does with its item: `continue` past it,
      raise out of the handler, or append a value. */
  datatype Verdict<T> = Skip | Abort | Keep(value: T)

  /** One turn of a collecting loop; `None` means an exception has escaped. */
  function Gather<T>(acc: Option<seq<T>>, v: Verdict<T>): Option<seq<T>> {
    match acc
    case None => None
    case Some(xs) =>
      match v
      case Skip => acc
      case Abort => None
      case Keep(x) => Some(xs + [x])
  }

  /** The loop run over all of `vs`, one turn at a time. */
  function Folded<T>(vs: seq<Verdict<T>>): Option<seq<T>>
    decreases |vs|
  {
    if vs == [] then Some([]) else Gather(Folded(vs[..|vs| - 1]), vs[|vs| - 1])
  }

  /** The kept values in input order, read front to back: the reference for the loop. */
  function Kept<T>(vs: seq<Verdict<T>>): seq<T>
    decreases |vs|
  {
    if vs == [] then [] else (if vs[0].Keep? then [vs[0].value] else []) + Kept(vs[1..])
  }

  lemma {:induction false} KeptSnoc<T>(vs: seq<Verdict<T>>, v: Verdict<T>)
    ensures Kept(vs + [v]) == Kept(vs) + (if v.Keep? then [v.value] else [])
    decreases |vs|
  {
    if vs != [] {
      assert (vs + [v])[1..] == vs[1..] + [v];
      KeptSnoc(vs[1..], v);
    }
  }

  /** The loop raises exactly when some item raises; otherwise it yields the kept
      values in input order. */
  lemma {:induction false} FoldedSpec<T>(vs: seq<Verdict<T>>)
    ensures Folded(vs).None? <==> exists i :: 0 <= i < |vs| && vs[i].Abort?
    ensures Folded(vs).Some? ==> Folded(vs).value == Kept(vs)
    decreases |vs|
  {
    if vs != [] {
      var front, last := vs[..|vs| - 1], vs[|vs| - 1];
      assert vs == front + [last];
      FoldedSpec(front);
      KeptSnoc(front, last);
      if Folded(front).None? {
        var i :| 0 <= i < |front| && front[i].Abort?;
        assert vs[i].Abort?;
      } else if !last.Abort? {
        assert forall i :: 0 <= i < |front| ==> vs[i] == front[i];
      }
    }
  }

  /** Every item asking to keep a value has it kept, and no more are kept than there were items. */
  lemma {:induction false} KeptIncludes<T>(vs: seq<Verdict<T>>)
    ensures |Kept(vs)| <= |vs|
    ensures forall i :: 0 <= i < |vs| && vs[i].Keep? ==> vs[i].value in Kept(vs)
    decreases |vs|
  {
    if vs != [] {
      var rest := vs[1..];
      KeptIncludes(rest);
      forall i | 0 <= i < |vs| && vs[i].Keep? ensures vs[i].value in Kept(vs) {
        if i > 0 {
          assert rest[i - 1] == vs[i];
        }
      }
    }
  }

  /** Every kept value comes from an item asking to keep it. */
  lemma {:induction false} KeptFrom<T>(vs: seq<Verdict<T>>, x: T)
    requires x in Kept(vs)
    ensures exists i :: 0 <= i < |vs| && vs[i] == Keep(x)
    decreases |vs|
  {
    var rest := vs[1..];
    if vs[0] != Keep(x) {
      assert Kept(vs) == (if vs[0].Keep? then [vs[0].value] else []) + Kept(rest);
      KeptFrom(rest, x);
      var i :| 0 <= i < |rest| && rest[i] == Keep(x);
      assert vs[i + 1] == Keep(x);
    }
  }

  // ---------------------------------------------------------------------------
  // Reading the uploads (app.py:32-38)
  // ---------------------------------------------------------------------------

  datatype Resume = Resume(name: string, fullText: string)

  /** The two markers the filter looks for, case-sensitively. */
  const UnsupportedMarker := "unsupported"
  const FailedMarker := "Failed to read"

  /** The filter on the text read from an upload. */
  predicate IsReadFailure(text: string) {
    Contains(text, UnsupportedMarker) || Contains(text, FailedMarker)
  }

  /** What the reading loop does with one upload. */
  function ReadVerdict(f: Upload): Verdict<Resume> {
    match FileText(f)
    case None => Abort
    case Some(t) => if IsReadFailure(t) then Skip else Keep(Resume(f.name, t))
  }

  function ReadVerdicts(files: seq<Upload>): seq<Verdict<Resume>> {
    seq(|files|, i requires 0 <= i < |files| => ReadVerdict(files[i]))
  }

  /** One verdict per upload, in upload order. */
  lemma ReadVerdictsSpec(files: seq<Upload>)
    ensures |ReadVerdicts(files)| == |files|
    ensures forall i :: 0 <= i < |files| ==> ReadVerdicts(files)[i] == ReadVerdict(files[i])
  {
  }

  /** The resumes the reading loop collects, `None` when a decoding error escapes. */
  function ReadAll(files: seq<Upload>): Option<seq<Resume>> {
    Folded(ReadVerdicts(files))
  }

  /** Turn `i` of the reading loop: read upload `i`, and skip it when its text
      contains either marker. A method beside `ReadVerdict` because it reads through
      `ReadTextFile`, which runs the page loop; its result is proved to be `ReadVerdict`'s. */
  method ReadOne(files: seq<Upload>, i: nat) returns (verdict: Verdict<Resume>)
    requires i < |files|
    ensures |ReadVerdicts(files)| == |files| && verdict == ReadVerdicts(files)[i]
  {
    ReadVerdictsSpec(files);
    var f := files[i];
    var fullText := ReadTextFile(f);
    if fullText.None? {
      return Abort;
    }
    if IsReadFailure(fullText.value) {
      return Skip;
    }
    verdict := Keep(Resume(f.name, fullText.value));
  }

  /** The reading loop over the uploads, in order. */
  method ReadResumes(files: seq<Upload>) returns (resumes: Option<seq<Resume>>)
    ensures resumes == ReadAll(files)
  {
    ghost var vs := ReadVerdicts(files);
    var collected: seq<Resume> := [];
    for i := 0 to |files|
      invariant Folded(vs[..i]) == Some(collected)
    {
      var verdict := ReadOne(files, i);
      Turn(vs, i, collected);
      match verdict
      case Abort =>
        return None;
      case Skip =>
      case Keep(resume) =>
        collected := collected + [resume];
    }
    assert vs[..|vs|] == vs;
    resumes := Some(collected);
  }

  /** Turn `i` of a collecting loop that has so far collected `acc`: a skipped item
      leaves it, a kept one is appended, and a raising one ends the whole loop. */
  lemma Turn<T>(vs: seq<Verdict<T>>, i: nat, acc: seq<T>)
    requires i < |vs| && Folded(vs[..i]) == Some(acc)
    ensures vs[i].Skip? ==> Folded(vs[..i + 1]) == Some(acc)
    ensures vs[i].Keep? ==> Folded(vs[..i + 1]) == Some(acc + [vs[i].value])
    ensures vs[i].Abort? ==> Folded(vs).None?
  {
    FoldedStep(vs, i);
    if vs[i].Abort? {
      FailureAborts(vs, i + 1);
    }
  }

  /** One more turn of the loop. */
  lemma FoldedStep<T>(vs: seq<Verdict<T>>, i: nat)
    requires i < |vs|
    ensures Folded(vs[..i + 1]) == Gather(Folded(vs[..i]), vs[i])
  {
    assert vs[..i + 1][..i] == vs[..i];
  }

  /** Once an item has raised, the items after it change nothing. */
  lemma {:induction false} FailureAborts<T>(vs: seq<Verdict<T>>, n: nat)
    requires n <= |vs| && Folded(vs[..n]).None?
    ensures Folded(vs).None?
    decreases |vs| - n
  {
    if n == |vs| {
      assert vs[..n] == vs;
    } else {
      assert vs[..n + 1][..n] == vs[..n];
      FailureAborts(vs, n + 1);
    }
  }

  /** One upload raises exactly when reading it raises, and is kept, under its own
      name, exactly when its text is free of both markers. */
  lemma ReadVerdictSpec(f: Upload)
    ensures ReadVerdict(f).Abort? <==> FileText(f).None?
    ensures ReadVerdict(f).Keep? <==> FileText(f).Some? && !IsReadFailure(FileText(f).value)
    ensures ReadVerdict(f).Keep? ==> ReadVerdict(f).value == Resume(f.name, FileText(f).value)
  {
  }

  /** The reading loop raises exactly when some `.txt` upload is not valid UTF-8. */
  lemma ReadAllRaises(files: seq<Upload>)
    ensures ReadAll(files).None? <==> exists i :: 0 <= i < |files| && FileText(files[i]).None?
  {
    var vs := ReadVerdicts(files);
    ReadVerdictsSpec(files);
    FoldedSpec(vs);
    forall i | 0 <= i < |files| ensures vs[i].Abort? <==> FileText(files[i]).None? {
      ReadVerdictSpec(files[i]);
    }
  }

  /** Otherwise every collected resume is an upload's name with its text, that text
      free of both markers, and every upload whose text is free of them is collected. */
  lemma ReadAllKeeps(files: seq<Upload>)
    requires ReadAll(files).Some?
    ensures var rs := ReadAll(files).value;
      |rs| <= |files|
      && (forall r :: r in rs ==>
            !IsReadFailure(r.fullText)
            && exists i :: 0 <= i < |files| && files[i].name == r.name && FileText(files[i]) == Some(r.fullText))
      && (forall i :: 0 <= i < |files| && FileText(files[i]).Some? && !IsReadFailure(FileText(files[i]).value) ==>
            Resume(files[i].name, FileText(files[i]).value) in rs)
  {
    var vs := ReadVerdicts(files);
    var rs := ReadAll(files).value;
    ReadVerdictsSpec(files);
    FoldedSpec(vs);
    KeptIncludes(vs);
    forall r | r in rs
      ensures !IsReadFailure(r.fullText)
      ensures exists i :: 0 <= i < |files| && files[i].name == r.name && FileText(files[i]) == Some(r.fullText)
    {
      KeptFrom(vs, r);
      var i :| 0 <= i < |vs| && vs[i] == Keep(r);
      ReadVerdictSpec(files[i]);
    }
    forall i | 0 <= i < |files| && FileText(files[i]).Some? && !IsReadFailure(FileText(files[i]).value)
      ensures Resume(files[i].name, FileText(files[i]).value) in rs
    {
      ReadVerdictSpec(files[i]);
      assert vs[i] == Keep(Resume(files[i].name, FileText(files[i]).value));
    }
  }

  /** The unsupported-type message holds "unsupported" exactly when the extension
      does, and never holds "Failed to read": the message itself begins with a capital `U`. */
  lemma UnsupportedMessageFilter(ext: string)
    requires 'F' !in ext
    ensures IsReadFailure(UnsupportedPrefix + ext) <==> Contains(ext, UnsupportedMarker)
  {
    assert UnsupportedPrefix == "Unsupported file type: ";
    assert UnsupportedMarker == "unsupported" && FailedMarker == "Failed to read";
    assert NoStartWithin(UnsupportedPrefix, UnsupportedMarker);
    ContainsAfter(UnsupportedPrefix, ext, UnsupportedMarker);
    assert FailedMarker[0] !in UnsupportedPrefix + ext;
    NotContainsWithoutFirst(UnsupportedPrefix + ext, FailedMarker);
  }

  /** The filter looks for lower-case "unsupported", while `read_text_file` writes
      "Unsupported file type: …": an upload of any other type is skipped only when
      its own extension contains "unsupported", and is otherwise kept. */
  lemma UnsupportedTypeSkippedOnlyByName(f: Upload)
    requires Extension(f.name) != "txt" && Extension(f.name) != "pdf"
    ensures ReadVerdict(f).Skip? <==> Contains(Extension(f.name), UnsupportedMarker)
    ensures ReadVerdict(f).Keep? <==> !Contains(Extension(f.name), UnsupportedMarker)
  {
    var ext := Extension(f.name);
    assert FileText(f) == Some(UnsupportedPrefix + ext);
    LowerHasNoCapitalF(LastSegment(f.name));
    UnsupportedMessageFilter(ext);
  }

  /** No occurrence of "unsupported" can begin inside the pieces of the PDF error prefix. */
  lemma PdfPrefixAvoidsUnsupported()
    ensures NoStartWithin("An unexpected error ", UnsupportedMarker) && NoStartWithin("occurred while ", UnsupportedMarker)
    ensures NoStartWithin("processing PDF with ", UnsupportedMarker) && NoStartWithin("pdfplumber: ", UnsupportedMarker)
  {
  }

  /** No occurrence of "Failed to read" can begin inside the pieces of the PDF error prefix. */
  lemma PdfPrefixAvoidsFailed()
    ensures NoStartWithin("An unexpected error ", FailedMarker) && NoStartWithin("occurred while ", FailedMarker)
    ensures NoStartWithin("processing PDF with ", FailedMarker) && NoStartWithin("pdfplumber: ", FailedMarker)
  {
  }

  /** Prefixing the PDF error message neither creates nor hides a marker. */
  lemma PdfPrefixTransparent(e: string, w: string)
    requires w == UnsupportedMarker || w == FailedMarker
    ensures Contains(PdfErrorPrefix + e, w) <==> Contains(e, w)
  {
    var a, b, c, d := "An unexpected error ", "occurred while ", "processing PDF with ", "pdfplumber: ";
    assert PdfErrorPrefix + e == a + (b + (c + (d + e)));
    if w == UnsupportedMarker {
      PdfPrefixAvoidsUnsupported();
    } else {
      PdfPrefixAvoidsFailed();
    }
    ContainsAfter(d, e, w);
    ContainsAfter(c, d + e, w);
    ContainsAfter(b, c + (d + e), w);
    ContainsAfter(a, b + (c + (d + e)), w);
  }

  /** A PDF that fails to read is skipped only when the library's own message holds
      a marker; otherwise the error string goes on as if it were the resume. */
  lemma PdfErrorSkippedOnlyByMessage(e: string)
    ensures IsReadFailure(PdfErrorPrefix + e) <==> IsReadFailure(e)
  {
    PdfPrefixTransparent(e, UnsupportedMarker);
    PdfPrefixTransparent(e, FailedMarker);
  }

  // ---------------------------------------------------------------------------
  // Scoring the resumes (app.py:44-62)
  // ---------------------------------------------------------------------------

  /** `extract_key_sections_from_resume`, whose code is not part of this model: call
      number `n` (counted over the resumes of one run) on a text gives a section dict
      or a string. */
  type ResumeExtractor = (nat, string) -> Summary

  /** `extract_key_sections_from_jd`, whose code is not part of this model. */
  type JobExtractor = string -> Summary

  datatype Candidate = Candidate(name: string, score: real, text: string, sectionScores: Dict<real>)

  const ErrorMarker := "Error"

  /** A resume is dropped when its extraction is a string starting with "Error". */
  predicate IsExtractionError(s: Summary) {
    s.Message? && StartsWith(s.text, ErrorMarker)
  }

  /** What the scoring loop does with resume `i`. Any other string in place of a
      section dict makes `compute_section_similarity` call `.get` on a string,
      which raises. */
  function Judge(i: nat, r: Resume, jobSections: Summary, extract: ResumeExtractor, sim: Similarity): Verdict<Candidate> {
    var resumeSections := extract(i, r.fullText);
    if IsExtractionError(resumeSections) then Skip
    else if resumeSections.Message? || jobSections.Message? then Abort
    else
      var similarities := Utils.SectionScores(resumeSections.sections, jobSections.sections, sim);
      Keep(Candidate(r.name, Get(similarities, OverallScore, 0.0), r.fullText, similarities))
  }

  function Judgements(resumes: seq<Resume>, jobSections: Summary, extract: ResumeExtractor, sim: Similarity): (vs: seq<Verdict<Candidate>>)
    ensures |vs| == |resumes| && forall i :: 0 <= i < |resumes| ==> vs[i] == Judge(i, resumes[i], jobSections, extract, sim)
  {
    seq(|resumes|, i requires 0 <= i < |resumes| => Judge(i, resumes[i], jobSections, extract, sim))
  }

  /** The candidates the scoring loop builds, `None` when an exception escapes. */
  function ScoreAll(resumes: seq<Resume>, jobSections: Summary, extract: ResumeExtractor, sim: Similarity): Option<seq<Candidate>> {
    Folded(Judgements(resumes, jobSections, extract, sim))
  }

  /** The scoring loop: extract each resume's sections, skip it on an "Error" string,
      otherwise compare its sections with the job's and append a candidate. */
  method ScoreResumes(resumes: seq<Resume>, jobSections: Summary, extract: ResumeExtractor, sim: Similarity)
    returns (candidates: Option<seq<Candidate>>)
    ensures candidates == ScoreAll(resumes, jobSections, extract, sim)
  {
    ghost var vs := Judgements(resumes, jobSections, extract, sim);
    var collected: seq<Candidate> := [];
    for i := 0 to |resumes|
      invariant Folded(vs[..i]) == Some(collected)
    {
      Turn(vs, i, collected);
      assert vs[i] == Judge(i, resumes[i], jobSections, extract, sim);
      var resumeSections := extract(i, resumes[i].fullText);
      if resumeSections.Message? && StartsWith(resumeSections.text, ErrorMarker) {
        continue;
      }
      if resumeSections.Message? || jobSections.Message? {
        return None;
      }
      var similarities, encoded := Utils.ComputeSectionSimilarity(resumeSections.sections, jobSections.sections, sim);
      collected := collected + [Candidate(resumes[i].name, Get(similarities, OverallScore, 0.0), resumes[i].fullText, similarities)];
    }
    assert vs[..|vs|] == vs;
    candidates := Some(collected);
  }

  /** Resume `i` is skipped exactly on an "Error" string, raises on any other
      string (its own or the job's), and otherwise yields a candidate carrying its
      name and text, the four section scores, and as its score the mean of the three
      pair values. */
  lemma JudgeSpec(i: nat, r: Resume, jobSections: Summary, extract: ResumeExtractor, sim: Similarity)
    ensures Judge(i, r, jobSections, extract, sim).Skip? <==> IsExtractionError(extract(i, r.fullText))
    ensures Judge(i, r, jobSections, extract, sim).Abort? <==>
      !IsExtractionError(extract(i, r.fullText)) && (extract(i, r.fullText).Message? || jobSections.Message?)
    ensures Judge(i, r, jobSections, extract, sim).Keep? ==>
      var c := Judge(i, r, jobSections, extract, sim).value;
      var s := extract(i, r.fullText);
      s.Sections? && jobSections.Sections?
      && c.name == r.name && c.text == r.fullText && |c.sectionScores| == 4
      && (forall k :: 0 <= k < 3 ==> c.sectionScores[k].1 == PairScore(k, s.sections, jobSections.sections, sim))
      && c.sectionScores[3].0 == OverallScore
      && c.score == Get(c.sectionScores, OverallScore, 0.0)
      && c.score == (PairScore(0, s.sections, jobSections.sections, sim) + PairScore(1, s.sections, jobSections.sections, sim)
                     + PairScore(2, s.sections, jobSections.sections, sim)) / 3.0
  {
    var s := extract(i, r.fullText);
    if !IsExtractionError(s) && s.Sections? && jobSections.Sections? {
      SectionScoresSpec(s.sections, jobSections.sections, sim);
    }
  }

  /** A resume whose summary loop failed part-way is always skipped: the error
      string of `generate_summary` starts with "Error". */
  lemma SummaryFailureSkipped(i: nat, r: Resume, jobSections: Summary, extract: ResumeExtractor, sim: Similarity,
                              prompts: Dict<string>, model: Model)
    requires DistinctKeys(prompts)
    requires extract(i, r.fullText) == Summarised(prompts, model)
    requires exists k :: 0 <= k < |prompts| && !AnswersAt(prompts, model, k)
    ensures Judge(i, r, jobSections, extract, sim) == Skip
  {
    SummarisedSpec(prompts, model);
  }

  // ---------------------------------------------------------------------------
  // Ranking (app.py:68)
  // ---------------------------------------------------------------------------

  /** Non-increasing by score. */
  predicate Descending(cs: seq<Candidate>) {
    forall i, j :: 0 <= i < j < |cs| ==> cs[i].score >= cs[j].score
  }

  /** The candidates with score `v`, in order. */
  function WithScore(cs: seq<Candidate>, v: real): seq<Candidate>
    decreases |cs|
  {
    if cs == [] then []
    else WithScore(cs[..|cs| - 1], v) + (if cs[|cs| - 1].score == v then [cs[|cs| - 1]] else [])
  }

  /** Places `c` after every candidate scoring at least as much. */
  function Insert(sorted: seq<Candidate>, c: Candidate): seq<Candidate>
    decreases |sorted|
  {
    if sorted == [] || sorted[|sorted| - 1].score >= c.score then sorted + [c]
    else Insert(sorted[..|sorted| - 1], c) + [sorted[|sorted| - 1]]
  }

  /** `list.sort(key=score, reverse=True)`, which is stable: candidates are inserted in list order. */
  function SortByScore(cs: seq<Candidate>): seq<Candidate>
    decreases |cs|
  {
    if cs == [] then [] else Insert(SortByScore(cs[..|cs| - 1]), cs[|cs| - 1])
  }

  lemma WithScoreSnoc(cs: seq<Candidate>, c: Candidate, v: real)
    ensures WithScore(cs + [c], v) == WithScore(cs, v) + (if c.score == v then [c] else [])
  {
    assert (cs + [c])[..|cs|] == cs;
  }

  /** Inserting keeps every candidate and adds `c`. */
  lemma {:induction false} InsertPermutes(sorted: seq<Candidate>, c: Candidate)
    ensures multiset(Insert(sorted, c)) == multiset(sorted) + multiset{c}
    decreases |sorted|
  {
    if sorted != [] && sorted[|sorted| - 1].score < c.score {
      var front := sorted[..|sorted| - 1];
      assert sorted == front + [sorted[|sorted| - 1]];
      InsertPermutes(front, c);
    }
  }

  /** Inserting into a descending list keeps it descending. */
  lemma {:induction false} InsertDescending(sorted: seq<Candidate>, c: Candidate)
    requires Descending(sorted)
    ensures Descending(Insert(sorted, c))
    decreases |sorted|
  {
    if sorted != [] && sorted[|sorted| - 1].score < c.score {
      var front, last := sorted[..|sorted| - 1], sorted[|sorted| - 1];
      var inner := Insert(front, c);
      InsertDescending(front, c);
      InsertPermutes(front, c);
      forall i | 0 <= i < |inner| ensures inner[i].score >= last.score {
        assert inner[i] in multiset(inner);
        if inner[i] != c {
          var k :| 0 <= k < |front| && front[k] == inner[i];
        }
      }
    }
  }

  /** `c` goes after every candidate of its own score, and the others of each score keep their order. */
  lemma {:induction false} InsertStable(sorted: seq<Candidate>, c: Candidate, v: real)
    ensures WithScore(Insert(sorted, c), v) == WithScore(sorted, v) + (if c.score == v then [c] else [])
    decreases |sorted|
  {
    if sorted == [] || sorted[|sorted| - 1].score >= c.score {
      WithScoreSnoc(sorted, c, v);
    } else {
      var front, last := sorted[..|sorted| - 1], sorted[|sorted| - 1];
      assert sorted == front + [last];
      InsertStable(front, c, v);
      WithScoreSnoc(Insert(front, c), last, v);
      WithScoreSnoc(front, last, v);
    }
  }

  /** The ranking is a permutation of the candidates, non-increasing by score, and
      stable: the candidates of any one score keep their list order. */
  lemma {:induction false} SortByScoreSpec(cs: seq<Candidate>)
    ensures multiset(SortByScore(cs)) == multiset(cs)
    ensures Descending(SortByScore(cs))
    ensures forall v :: WithScore(SortByScore(cs), v) == WithScore(cs, v)
    decreases |cs|
  {
    if cs != [] {
      var front, last := cs[..|cs| - 1], cs[|cs| - 1];
      assert cs == front + [last];
      SortByScoreSpec(front);
      InsertPermutes(SortByScore(front), last);
      InsertDescending(SortByScore(front), last);
      forall v ensures WithScore(SortByScore(cs), v) == WithScore(cs, v) {
        InsertStable(SortByScore(front), last, v);
        WithScoreSnoc(front, last, v);
      }
    }
  }

  // ---------------------------------------------------------------------------
  // The button handler (app.py:20-70)
  // ---------------------------------------------------------------------------

  /** How a press of the button ends. */
  datatype Outcome =
    | JobDescriptionMissing   // "Please enter a job description."
    | UploadsMissing          // "Please upload at least one resume."
    | NoValidResumes          // "No valid resumes were processed."
    | NoCandidates            // "No candidates could be processed for scoring."
    | Ranked(candidates: seq<Candidate>)
    | Crashed                 // an exception escaped the handler

  /** The handler gets as far as extracting the job description's sections. */
  predicate ReachesScoring(jobDescription: string, uploads: seq<Upload>) {
    jobDescription != "" && uploads != [] && ReadAll(uploads).Some? && ReadAll(uploads).value != []
  }

  /** How the handler ends on these inputs. */
  function Run(jobDescription: string, uploads: seq<Upload>, extractJob: JobExtractor,
               extractResume: ResumeExtractor, sim: Similarity): Outcome {
    if jobDescription == "" then JobDescriptionMissing
    else if uploads == [] then UploadsMissing
    else
      match ReadAll(uploads)
      case None => Crashed
      case Some(resumes) =>
        if resumes == [] then NoValidResumes
        else
          match ScoreAll(resumes, extractJob(jobDescription), extractResume, sim)
          case None => Crashed
          case Some(candidates) =>
            if candidates == [] then NoCandidates else Ranked(SortByScore(candidates))
  }

  /** A ranking holds every scored candidate once, best first, equal scores in
      upload order, and is never empty. */
  lemma RankedSpec(jobDescription: string, uploads: seq<Upload>, extractJob: JobExtractor,
                   extractResume: ResumeExtractor, sim: Similarity)
    requires Run(jobDescription, uploads, extractJob, extractResume, sim).Ranked?
    ensures var ranked := Run(jobDescription, uploads, extractJob, extractResume, sim).candidates;
      var resumes := ReadAll(uploads).value;
      var scored := Kept(Judgements(resumes, extractJob(jobDescription), extractResume, sim));
      ranked != [] && Descending(ranked) && multiset(ranked) == multiset(scored)
      && (forall v :: WithScore(ranked, v) == WithScore(scored, v))
  {
    var resumes := ReadAll(uploads).value;
    var vs := Judgements(resumes, extractJob(jobDescription), extractResume, sim);
    FoldedSpec(vs);
    SortByScoreSpec(Folded(vs).value);
  }

  /** The browser session's state. */
  class Session {
    var results: Option<seq<Candidate>>

    /** A new session has no results. */
    constructor ()
      ensures results == None
    {
      results := None;
    }

    /** One press of "Find Top Candidates". The job description is checked before
        the uploads, and a missing one leaves the results as they were, as does an
        exception; the two "nothing to show" ends clear them; a ranking replaces them.
        The job description's sections are extracted once, and only when some
        resume survived reading. */
    method FindTopCandidates(jobDescription: string, uploads: seq<Upload>, extractJob: JobExtractor,
                             extractResume: ResumeExtractor, sim: Similarity)
      returns (outcome: Outcome, jobExtractions: nat)
      modifies this
      ensures outcome == Run(jobDescription, uploads, extractJob, extractResume, sim)
      ensures jobExtractions == if ReachesScoring(jobDescription, uploads) then 1 else 0
      ensures outcome.Ranked? ==> results == Some(outcome.candidates)
      ensures outcome == NoValidResumes || outcome == NoCandidates ==> results == None
      ensures outcome == JobDescriptionMissing || outcome == UploadsMissing || outcome == Crashed ==>
        results == old(results)
    {
      jobExtractions := 0;
      if jobDescription == "" {
        return JobDescriptionMissing, jobExtractions;
      }
      if uploads == [] {
        return UploadsMissing, jobExtractions;
      }
      var resumes := ReadResumes(uploads);
      if resumes.None? {
        return Crashed, jobExtractions;
      }
      if resumes.value == [] {
        results := None;
        return NoValidResumes, jobExtractions;
      }
      var jobSections := extractJob(jobDescription);
      jobExtractions := jobExtractions + 1;
      var candidates := ScoreResumes(resumes.value, jobSections, extractResume, sim);
      if candidates.None? {
        return Crashed, jobExtractions;
      }
      if candidates.value == [] {
        results := None;
        return NoCandidates, jobExtractions;
      }
      var ranked := SortByScore(candidates.value);
      results := Some(ranked);
      outcome := Ranked(ranked);
    }
  }
}
