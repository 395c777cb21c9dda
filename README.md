# AI Career Companion: a verified model of its deterministic core

AI Career Companion is a one-page Streamlit app. It takes a resume and a job
description, sends prompts built from them to a hosted language model, shows
the replies, and lets the user ask follow-up questions. Almost all of `app.py`
is UI code and remote calls. This project models the three parts whose
behaviour does not depend on the remote services, and proves what they
promise:

- **File-format dispatch** (`extract_text_from_file` and the temp-file
  naming of uploads). A path is routed to the PDF, DOCX or TXT extractor by
  its lower-cased suffix. Any other suffix raises the unsupported-format
  error before any file is read. An upload is saved as `temp_resume.<ext>` or
  `temp_job.<ext>`, where `<ext>` is the last `.`-separated segment of the
  upload's name. Module `Extraction`.
- **Grammar-report post-processing** (the body of `grammar_check_resume`
  after the HTTP call). Matches are filtered. The flagged span of each kept
  match's context sentence is wrapped in `**`. Its replacements are joined
  with `", "`. The issues go under a fixed header, or a fixed sentence says
  there are none. The filtering loop is a method, `Grammar.GrammarReport`,
  proved against the specification function `Grammar.Report`. Module
  `Grammar`.
- **Session controller** (the `st.session_state` bookkeeping of
  `create_streamlit_app`). It has three keys: `prev_analysis_type`, `result`
  and `messages`. Three events change them: choosing a kind, pressing
  Generate, and asking a follow-up. Pure step functions specify each event.
  The class `Session.SessionState` holds the three keys as fields, and its
  methods are proved to perform those steps. The invariant `Consistent` is
  kept by every step: `result` and `messages` are present together, the
  transcript alternates user and assistant turns, and a stored result never
  belongs to Grammar Check. Module `Session`.

`PyStr` gives the Python string builtins these use, with Python's own
semantics: `lower` (on ASCII letters), `endswith`, substring `in`, slicing with clamped and
negative bounds, `join`, `strip` (with Python's exact whitespace set) and
`split('.')[-1]`. `Wrappers` holds `Option` and `Result`.

The hosted model is a parameter `model: Prompt -> string`. A `Prompt` records
which template was used and exactly which values it interpolates. So the
follow-up prompt can be seen to carry only the question, the resume and the
job text, never the earlier turns. The two-step industry feedback embeds the
first reply, stripped of surrounding whitespace.

The "Grammar Check on Resume" kind is offered by the selector, but its
dispatch branch is commented out. Pressing Generate with it reaches the
assignment of `result` with `result` unbound, so the rerun raises. The model
makes this an explicit error case: `GenerateStep` returns `None`,
`RerunStep` reports `raised`, and the session state is left as the
selection step made it.

The TXT branch's `open(...).read()` (app.py:43-44) is not wrapped in a
`try`, so a missing file or invalid UTF-8 raises. The TXT reader therefore
returns a `Result`, and `ExtractText` passes its failure on as `ReadFailed`.
The PDF and DOCX extractors catch everything, so their readers always return
a string.

## Model

| member | source | states |
|---|---|---|
| `Extraction.Classify` | app.py:36-46 | A path goes to PDF, DOCX or TXT exactly when its lower-cased form ends in ".pdf", ".docx" or ".txt", and is unsupported exactly when it ends in none of them |
| `Extraction.SuffixesExclusive` | app.py:38-42 | No path ends in two of the three suffixes, so the order of the tests cannot change the routing |
| `Extraction.ClassifyByExtension` | app.py:38-46 | A path `p + "." + seg` with a dot-free `seg` is routed by `seg` alone, ignoring case |
| `Extraction.SameExtension` | app.py:38-46 | A name containing a '.' is routed by its last '.'-segment |
| `Extraction.TempFileKeepsFormat` | app.py:232-243 | The saved temp file is routed by the upload's last extension, and exactly as the upload's own name would be when that name has a '.' |
| `Extraction.ExtractText` | app.py:36-46 | Unsupported-format error exactly for unsupported paths. PDF and DOCX always yield the extractor's text. TXT yields the file's text or the read failure |
| `Extraction.UnsupportedReadsNothing` | app.py:45-46 | For an unsupported path the outcome is the same error whatever the extractors do: nothing is read before the raise |
| `Extraction.ExtractUpload` | app.py:238-243 | Extracting a saved upload fails with the unsupported-format error exactly when the upload's last extension is not pdf, docx or txt in any case |
| `Extraction.RtfUploadRefused` | app.py:238-242 | An upload named "resume.rtf" fails with the unsupported-format error, whatever the extractors |
| `PyStr.DottedSuffix` | app.py:38-42 | A name ending in "." plus a dot-free segment ends in "." + ext exactly when the segment is ext |
| `PyStr.SplitLast` | app.py:232 | `split('.')[-1]` is a dot-free suffix of the name, preceded by a '.' whenever it is not the whole name |
| `PyStr.SplitLastDecompose` | app.py:232 | A name containing a '.' is what precedes its last '.', that '.', and the last segment |
| `PyStr.SplitLastAfterDot` | app.py:232 | The last segment of `p + "." + seg` is `seg` when `seg` has no '.' |
| `PyStr.ContainsMeansOccurs` | app.py:170 | The substring test `pat in s` holds exactly when `pat` occurs in `s` at some index |
| `PyStr.JoinShort` | app.py:173 | Joining no replacements gives "", and joining one gives that replacement unchanged, with no separator |
| `PyStr.JoinConcat` | app.py:173 | Joining two non-empty lists equals joining each and putting one separator between, so the parts stay in order |
| `PyStr.JoinLength` | app.py:173 | The joined text is the parts' total length plus one separator between each two parts |
| `PyStr.Strip` | app.py:201 | `strip()` returns the infix of its input that starts after the leading whitespace. Everything removed is whitespace, the result neither starts nor ends with whitespace, and it is empty exactly when the input is all whitespace |
| `Grammar.Normalize` | app.py:162-167 | A present key's value is used as it is. An absent key takes its default: "" for the message, [] for the replacements, and "", 0, 0 for the context's text, offset and length, whether the context itself or only that key inside it is missing |
| `Grammar.KeptMeaning` | app.py:169-171 | A match is kept exactly when it has a replacement and "whitespace" occurs nowhere in its lower-cased message |
| `Grammar.HighlightMarksSpan` | app.py:174 | For non-negative offset and length, the markers go around the flagged span clamped to the sentence end. The result is 4 characters longer, and deleting the two markers gives back the sentence |
| `Grammar.FormatIssue` | app.py:176-179 | An issue starts with the U+1F539 "**Issue:**" label and the message on its own line, and ends with the U+1F4A1 "**Suggestion:**" line holding the replacements joined by ", " and a final newline. The line between them is the U+1F538 "**Line:**" label followed by the context sentence with its flagged span highlighted, as `Highlight` builds it |
| `Grammar.KeptMatches` | app.py:169-171 | The surviving matches are at most as many as the matches. Each is a kept input match, and every kept input match survives |
| `Grammar.KeptMatchesConcat` | app.py:161-180 | Filtering distributes over concatenation, so surviving issues keep the input order |
| `Grammar.Report` | app.py:182-185 | The report is "No major grammar issues found!" exactly when no match is kept, and otherwise starts with the "### Grammar Issues Found:" header |
| `Grammar.ReportLists` | app.py:173-185 | When a match is kept, the report is the header followed by the formatted kept matches joined with "\n", and there are between 1 and as many issues as matches |
| `Grammar.IssuesStep` | app.py:169-180 | Walking one more match appends that match's issue if it is kept, and nothing otherwise |
| `Grammar.GrammarReport` | app.py:160-185 | The loop over `result.get('matches', [])` returns the report of the normalized matches |
| `Session.Analyze` | app.py:190-280 | No analysis exactly for Grammar Check, whose branch is commented out. Each of the five one-call kinds gives the model's unmodified reply to its own prompt on the resume and the job text. Industry feedback embeds the stripped reply to the label prompt in its second prompt |
| `Session.SelectStep` | app.py:260-263 | The chosen kind is recorded. A different kind removes `result` and `messages`, and the same kind changes nothing |
| `Session.GenerateStep` | app.py:265-291 | Generate raises exactly for Grammar Check. Otherwise it stores the kind's analysis as `result`, sets `messages` to empty, and keeps the selected kind |
| `Session.FollowUpStep` | app.py:307-335 | With a result shown and a non-empty question, exactly the user turn and then the model's answer to (question, resume, job) are appended. Otherwise nothing changes. The invariant is kept |
| `Session.RerunStep` | app.py:238-335 | A rerun keeps the invariant. It raises exactly when the resume or the job description fails to extract, or Generate is pressed on Grammar Check. A failed extraction of either upload raises with the state untouched. A rerun that raises with a changed state is a Generate on Grammar Check after the selection. A completed rerun records the chosen kind |
| `Session.SelectIdempotent` | app.py:260-263 | Choosing the same kind twice is the same as choosing it once |
| `Session.StepsKeepConsistent` | app.py:260-291 | Selection and a successful Generate keep the invariant |
| `Session.SwitchClearsChat` | app.py:260-305 | From any state, after switching to another kind no result or transcript is present and a follow-up question changes nothing |
| `Session.FollowUps` | app.py:307-335 | Any run of follow-ups keeps the invariant |
| `Session.FollowUpsAppend` | app.py:309-335 | A run of non-empty questions appends their exchanges in order, leaves every earlier turn unchanged, and keeps `result` |
| `Session.ConversationTurns` | app.py:309-335 | Turn 2i is the i-th question from the user. Turn 2i+1 is the model's answer to a prompt built only from that question, the resume and the job text |
| `Session.SessionState.constructor` | app.py:250-251 | A new session has no `result`, no `messages`, and `prev_analysis_type` None |
| `Session.SessionState.Select` | app.py:260-263 | The fields are updated as `SelectStep` says, and the invariant is kept |
| `Session.SessionState.Generate` | app.py:265-291 | Reports a raise exactly when `GenerateStep` does, leaving the state unchanged then. Otherwise the fields become `GenerateStep`'s state |
| `Session.SessionState.FollowUp` | app.py:307-335 | Appends the user turn, asks the model, appends its answer. The fields end as `FollowUpStep` says |
| `Session.SessionState.Rerun` | app.py:238-335 | One rerun changes the fields and reports a raise exactly as `RerunStep` says |

## Left out

- Streamlit rendering, widgets, spinners and `st.markdown` output are UI code. The state machine runs only when an API key and both uploads are present (app.py:230); the model starts at that point.
- `setup_gemini_api` and the `generate_content` calls are remote. The model is a parameter function, so the same prompt always gets the same reply. A model call that raises is not modelled. In particular, a follow-up whose call fails would leave the user turn appended without an answer.
- The literal prompt templates are fixed f-strings. A `Prompt` keeps only the values they interpolate.
- The PDF and DOCX extraction internals and the UTF-8 file read are foreign library calls and I/O. They are the parameters `Readers`.
- `requests.post`, JSON decoding and the catch-all error string of `grammar_check_resume` (app.py:157-158, 187-188) are network I/O. Errors that this catch-all turns into a string are not modelled either. Examples: a replacement without a `value` key, or a non-string message.
- Writing uploads to the shared temp files (app.py:232-235) is file I/O. Collisions between concurrent sessions are a concurrency concern.
- The uploader's own restriction to pdf, docx and txt (app.py:227-228) is Streamlit behaviour. The model accepts any upload name.
- PyStr.Lower: lower-cases ASCII letters only, where Python lower-cases all of Unicode. The only non-ASCII characters whose lower case contains an ASCII letter are U+0130 (to "i" plus a combining dot) and U+212A (to "k"). Neither can complete ".pdf", ".docx", ".txt" or "whitespace", so the routing and the filter are unaffected.
- Grammar.HighlightMarksSpan: stated for non-negative offset and length, the values the grammar service reports. `Highlight` itself follows Python's slicing for negative values too.
