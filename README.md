# Candidate recommender — a Dafny model of its core

The candidate recommender is a small Streamlit application. A recruiter pastes a job
description and uploads resumes (`.txt` or `.pdf`). For each upload the application:

1. reads the file's text and drops uploads whose text looks like a read error;
2. splits the job description and every resume into sections through
   `extract_key_sections_from_jd` and `extract_key_sections_from_resume`, which the
   repository calls but does not define;
3. compares three resume sections with their job-description counterparts by the cosine
   similarity of sentence embeddings;
4. averages the three values into an "Overall Score";
5. ranks the candidates by that score, best first.

The experiment script `similarity_logic_test.py` holds an earlier version of the summarisers
and of the section comparison.

This project models that core in Dafny and proves what it does.

| file | models |
|---|---|
| `wrappers.dfy` | `Option` |
| `text.dfy` | Python string behaviour the code relies on: `str.isspace`/`\s`, `w in s`, `str.startswith`, `str.strip`, `str.lower` |
| `dicts.dfy` | a Python `dict` with string keys as an association list in insertion order, with `get`, `d[k] = v`, `keys()` and `values()` |
| `chat.dfy` | the language model as an oracle, and the loop both summarisers share (send each prompt in order, keep the stripped answer under the prompt's key) |
| `sections.dfy` | the section names, the fixed resume-to-job section mapping, the per-pair score with its empty-side rule, and `np.mean` |
| `utils.dfy` | `utils.py`: `read_pdf_file`, `read_text_file`, `extract_contact_info`, the three prompt builders, `generate_summary`, `compute_section_similarity` |
| `similarity_logic_test.dfy` | `similarity_logic_test.py`: the two summarisers and its variant of `compute_section_similarity` |
| `app.dfy` | `app.py`: the "Find Top Candidates" handler — the reading loop, the scoring loop, the ranking and the session state |

Outside effects become parameters:

- **Language model.** `Chat.Model` maps a request's index (counted from 0 within one run
  over a prompt dict) and its prompt to either the answer text or the message of the
  exception the request raised. Nothing assumes that the model is deterministic.
- **Embedding and cosine similarity.** `Sections.Similarity` is an uninterpreted function
  from a resume text and a job text to a real.
- **Section extractors.** `app.py` calls `extract_key_sections_from_resume` and
  `extract_key_sections_from_jd`. These are not defined in the repository's sources, so
  they are the parameters `App.ResumeExtractor` and `App.JobExtractor`. Each returns a
  section dict or a string.
- **Uploads.** An upload is its name, its UTF-8 decoding (`None` when the bytes are not
  valid UTF-8) and what the PDF library makes of it: pages that each give a text, no
  text, or raise; or a file that cannot be opened.

The methods (`ReadPdfFile`, `ReadTextFile`, `AskEach`, `GenerateSummary`, both
`ComputeSectionSimilarity`, `ReadResumes`, `ScoreResumes`, `Session.FindTopCandidates`)
are each proved equal to a specification function; those that run a loop of the source
carry the loop invariants that tie it to that function. The properties the application relies
on are proved about those functions as lemmas.

Where the code and its documentation differ, the model follows the code:

- In `utils.py`, a scored pair is stored under its bare job-section name. A pair set to
  zero is stored under the `"R ↔ J"` label. So the keys of the result depend on the input
  (`Utils.PairKey`).
- The reading filter in `app.py` looks for the lower-case word "unsupported". The message
  `read_text_file` writes for other file types begins "Unsupported file type". That upload
  is therefore kept, and the message is scored as if it were a resume, unless the
  extension itself contains "unsupported" (`App.UnsupportedTypeSkippedOnlyByName`).
- A PDF that fails to read yields an error string. That string passes the filter unless
  the library's own message contains a marker (`App.PdfErrorSkippedOnlyByMessage`).
- An extraction that returns any string other than one starting with "Error" reaches
  `compute_section_similarity`, whose `.get` on a string raises. The same happens when the
  job description's extraction is a string. The model's handler then ends in `Crashed`,
  which leaves the session's results as they were.

## Model

| member | source | states |
|---|---|---|
| Chat.AskEach | utils.py:181-195 | The shared loop returns exactly the outcome of asking every prompt in order. The request count is every prompt when all are answered, otherwise the requests up to and including the first one that raised. |
| Chat.FailureIsFinal | utils.py:192-193 | Once a request has raised, later prompts change nothing. |
| Chat.AnsweredIffNoneRaised | utils.py:184-193 | After `n` prompts the loop is still collecting exactly when each of the first `n` requests was answered. |
| Chat.AnsweredSections | utils.py:184-191 | When every request is answered, the result has one entry per prompt, in prompt order, under the prompt's key, holding the stripped answer. |
| Chat.FailedAtFirst | utils.py:184-193 | When the loop fails, the recorded request is the first one that raised, and its message is the one kept. |
| Text.StripSpec | utils.py:191 | `strip` keeps a contiguous piece of the text that neither starts nor ends with whitespace. It removes only whitespace on either side, and it is empty exactly when the text is all whitespace. |
| Sections.EmptySideScoresZero | utils.py:220-226 | A pair with a missing or empty section on either side scores 0.0. Only non-empty texts reach the embedding model. |
| Sections.EncodedNonEmpty | utils.py:220-229 | At most one embedding request is made per pair, and each carries two non-empty texts. |
| Utils.PagesTextRead | utils.py:32-37 | The page loop reads every page exactly when no page raises, and then yields the page texts joined in page order, with a page without text counting as "". |
| Utils.PagesTextFails | utils.py:33-39 | A failed page loop stopped at the first page that raised, and keeps that page's message. |
| Utils.PagesTextSpec | utils.py:30-39 | Both of the above together. |
| Utils.FailedReadIsFinal | utils.py:35-39 | After a page has raised, the pages after it are not read. |
| Utils.ReadPdfFile | utils.py:30-39 | The text read from a PDF either starts with the pdfplumber error prefix, or it is the text of all pages joined in order, with every page read. |
| Utils.LastSegmentSpec | utils.py:44 | `split('.')[-1]` is the suffix of the name after its last dot: it holds no dot, and it is the whole name or is preceded by a dot. |
| Utils.ReadTextFile | utils.py:42-51 | `read_text_file` returns what the dispatch on the lower-cased extension gives. |
| Utils.FileTextCases | utils.py:42-51 | Only a `.txt` upload that is not valid UTF-8 raises. A `.pdf` yields its page texts or the PDF error string. Any other extension yields "Unsupported file type: " followed by that extension. |
| Utils.LastSegmentLower | utils.py:44 | Lower-casing a name commutes with taking its last segment. |
| Utils.DispatchIgnoresCase | utils.py:44-51 | Reading an upload gives the same result as reading it under its lower-cased name. |
| Utils.FindEmailNone | utils.py:61-63 | A search from a token boundary finds nothing only when no token from there on holds an `@` that is neither its first nor its last character. |
| Utils.FindEmailFound | utils.py:61 | What the search finds is a whitespace-delimited token holding such an inner `@`. |
| Utils.FindEmailFirst | utils.py:61 | No token before the one found holds an inner `@`. |
| Utils.FindEmailSpec | utils.py:61-63 | Both directions together, from a token boundary. |
| Utils.ContactInfoSpec | utils.py:57-63 | The extracted e-mail is the leftmost token matching `\S+@\S+`, and it is `''` exactly when no token matches. |
| Utils.Framed | utils.py:72-105 | A prompt dict has exactly the given keys in order. Each prompt is the given text between that key's opening and closing lines, so it contains the text. |
| Utils.ResumeSummaryPrompts | utils.py:66-107 | The keys are the three resume sections in order, and every prompt quotes the resume text. |
| Utils.JobSummaryPrompts | utils.py:110-172 | The keys are the five job sections, "About Company" first, and every prompt quotes the job description. |
| Utils.SummaryPrompt | utils.py:241-263 | One prompt under "Summary", quoting both the job description and the resume. |
| Utils.GenerateSummary | utils.py:175-195 | `generate_summary` returns the section dict or the error string of the shared loop, and sends one request per prompt up to and including the first that raises. |
| Utils.SummarisedSpec | utils.py:175-195 | All or nothing: a section dict exactly when every request is answered, holding every key in order with its stripped answer. Otherwise the result is "Error generating summary: " followed by the first failure's message; it starts with "Error", and no later request was sent. |
| Utils.PairKeysDiffer | utils.py:220-236 | Whether each pair is scored or not, the three pair keys and "Overall Score" are pairwise distinct. |
| Utils.MeanOfThree | utils.py:235 | `np.mean` of three values is their sum divided by three. |
| Utils.SectionScoresSpec | utils.py:198-238 | The result has four distinct keys. Pair `i`'s key is its bare job section when both sides are non-empty and its `"R ↔ J"` label otherwise, and it holds the pair's score. "Overall Score" comes last and is the mean of the three values, zeros included. |
| Utils.ComputeSectionSimilarity | utils.py:198-238 | The loop returns exactly those four entries. It sends to the embedding model only the pairs with two non-empty texts, in mapping order. |
| SimilarityLogicTest.ResumePrompts | similarity_logic_test.py:20-53 | The keys are the three resume sections in order, distinct, and every prompt quotes the resume text. |
| SimilarityLogicTest.JobPrompts | similarity_logic_test.py:77-131 | The keys are the five job sections in order, distinct, and every prompt quotes the job description. |
| SimilarityLogicTest.Summarize | similarity_logic_test.py:55-65 | A section dict exactly when every request is answered, with the prompt keys in order and the stripped answers. Otherwise the exception of the last request sent escapes: that request was not answered, and every request before it was. |
| SimilarityLogicTest.SummarizeResumeIntoSections | similarity_logic_test.py:11-65 | The three resume sections, in order, each holding the stripped answer to its prompt, exactly when all three requests are answered. |
| SimilarityLogicTest.SummarizeJobDescriptionIntoSections | similarity_logic_test.py:67-143 | The five job sections, in order, each holding the stripped answer to its prompt, exactly when all five requests are answered. |
| SimilarityLogicTest.LabelsDiffer | similarity_logic_test.py:167-183 | The three `"R ↔ J"` labels and "Average Similarity" are pairwise distinct. |
| SimilarityLogicTest.SectionScoresSpec | similarity_logic_test.py:145-185 | Whatever the input, the keys are the three labels in mapping order followed by "Average Similarity", all distinct. Each pair holds its score, and the average is the mean of the three values, zeros included. |
| SimilarityLogicTest.VariantsAgreeOnValues | similarity_logic_test.py:167-183 | This variant and the one in `utils.py` compute the same four values. A pair's key is the same in both exactly when the pair was not scored. |
| SimilarityLogicTest.ComputeSectionSimilarity | similarity_logic_test.py:145-185 | The loop returns exactly those four entries, embedding only pairs with two non-empty texts. |
| App.FoldedSpec | app.py:32-38 | A collecting loop raises exactly when some item raises. Otherwise it yields the kept values in input order. |
| App.KeptIncludes | app.py:33-38 | Every item asking to be kept is kept, and no more values are kept than there were items. |
| App.KeptFrom | app.py:33-38 | Every kept value comes from an item that asked to keep it. |
| App.ReadVerdictSpec | app.py:34-38 | An upload raises exactly when reading it raises. It is kept, under its own name with its text, exactly when that text holds neither "unsupported" nor "Failed to read". |
| App.ReadOne | app.py:34-38 | One turn of the reading loop gives that upload's verdict. |
| App.ReadResumes | app.py:32-38 | The reading loop returns exactly what reading and filtering the uploads in order gives. |
| App.ReadAllRaises | app.py:32-38 | The reading loop raises exactly when some `.txt` upload is not valid UTF-8. |
| App.ReadAllKeeps | app.py:32-38 | Every collected resume is some upload's name with its text, and that text is free of both markers. Every upload whose text is free of them is collected. |
| App.UnsupportedMessageFilter | app.py:35 | "Unsupported file type: " followed by an extension contains a marker exactly when the extension contains "unsupported". |
| App.UnsupportedTypeSkippedOnlyByName | app.py:35 | An upload of any other type is skipped exactly when its lower-cased extension contains "unsupported", and kept otherwise. |
| App.PdfPrefixTransparent | app.py:35 | Putting the PDF error prefix in front of a message neither creates nor hides either marker. |
| App.PdfErrorSkippedOnlyByMessage | app.py:35 | A PDF error string is skipped exactly when the library's own message holds a marker. |
| App.Turn | app.py:33-53 | One turn of a collecting loop: a skipped item leaves the collection as it was, a kept one is appended, and a raising one ends the whole loop. |
| App.JudgeSpec | app.py:49-62 | A resume is skipped exactly on an extraction string starting with "Error". Any other string on either side raises. Otherwise both extractions are section dicts, the candidate carries the resume's name and text, its first three section scores are the pair values of those sections, the fourth is keyed "Overall Score", and its score is the value under that key, the mean of the three pair values. |
| App.SummaryFailureSkipped | app.py:49-53 | A resume whose summary loop failed part-way is always skipped, since the error string starts with "Error". |
| App.ScoreResumes | app.py:44-62 | The scoring loop returns exactly what judging the resumes in order gives. |
| App.InsertPermutes | app.py:68 | Inserting a candidate into the ranking keeps every candidate and adds that one. |
| App.InsertDescending | app.py:68 | Inserting into a non-increasing ranking keeps it non-increasing. |
| App.InsertStable | app.py:68 | The inserted candidate goes after all candidates of its own score, and the others of each score keep their order. |
| App.SortByScoreSpec | app.py:68 | `sort(key=score, reverse=True)` returns a permutation of the candidates, non-increasing by score, and stable: candidates of equal score keep their list order. |
| App.RankedSpec | app.py:40-69 | A ranking is never empty and holds every scored candidate once, best first, with equal scores in upload order. |
| App.Session.constructor | app.py:20-21 | A new session has no results. |
| App.Session.FindTopCandidates | app.py:23-70 | The handler ends as the specification function says. A missing job description or missing uploads leaves the results as they were, and so does an escaping exception. The two "nothing to show" ends clear the results, and a ranking replaces them. The job description is extracted once, and only when some resume survived reading. |

## Left out

- Embedding and cosine similarity: `SentenceTransformer.encode` and `cosine_similarity` are the uninterpreted `Sections.Similarity`. A zero-norm embedding and floating-point rounding are not modelled. Scores are reals, and `np.mean` is exact division.
- `load_sbert_model` and `get_groq_client`, with its `ValueError` when no API key is set: client and model creation are configuration outside the modelled logic. The language model itself is the oracle `Chat.Model`.
- pdfplumber and UTF-8 decoding internals: an upload carries their results as data.
- `str.lower` is modelled on ASCII letters only. The dispatch on "txt" and "pdf" is unaffected. Only the extension echoed in the unsupported-type message can differ for non-ASCII names.
- `create_zip_file_for_resumes` (utils.py:266-282): it builds an archive in memory and has no logic beyond formatting.
- The Streamlit page: layout, widgets, warnings and success messages, caching, `load_dotenv`, and the rendering of the top candidate (app.py:72-97). The call `generate_summary(job_description, top_candidate['text'])` at app.py:86 passes two arguments to a one-argument function, so it always raises and the page shows its error; it is rendering only and is not modelled.
- The demo resume and job text and the module-level calls at the end of `similarity_logic_test.py`.
- `extract_key_sections_from_resume` and `extract_key_sections_from_jd` are called by `app.py` but not defined in its sources. They are parameters of the handler.
- Chat.AskEach: reports how many requests it sent, not the log of the prompts themselves. The prompt of request `i` is the `i`-th prompt by construction.
- SimilarityLogicTest.Summarize: the exception a failing request raises out of the summarisers is `None`. Its message is not kept.
- App.SortByScoreSpec: `list.sort` is a library call, so it is the specification function `App.SortByScore` rather than a loop.
