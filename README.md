# trans-app translation workflow, modelled in Dafny

trans-app is a Streamlit page that translates text between English, French and
Arabic. The user types text and picks a destination language. The page detects
the source language, runs one or two translation engines (MarianMT, the
pairwise engine, and NLLB, the broad one), lets the user approve one result and
appends it to `translations.csv`. This project models the logic of
`translation_app.py` with the page, the detector and the engines abstracted
away:

- `languages.dfy` (module `Languages`) holds the two language-code tables and
  the dispatch policy. The policy decides which engines run for a (detected
  source, destination) pair, and in which order. The module also builds the
  MarianMT model name, with a parser as its inverse.
- `records.dfy` (module `Records`) holds the CSV file: a class `CsvFile` with
  an existence flag, a header and a sequence of rows. `Save` is specified by
  the function `Saved` and `Load` by the function `Loaded`.
- `workflow.dfy` (module `Workflow`) holds the five `st.session_state` fields
  as a class `Session`. The "Traduire" button is `Submit` and the "Approve
  Translation" button is `Approve`. Each is specified by a function on a
  `SessionState` value (`Submitted` and `Approved`). Lemmas cover whole
  series of user actions.
- `wrappers.dfy` holds an `Option` datatype.

The language detector's answer is a parameter. Each engine is a function
parameter: `marian(modelName, text)` and `nllb(text, srcCode, tgtCode)`. So
the contracts also state which model and which language codes each engine is
called with. Whether writing the file succeeds is a boolean parameter.

Behaviour of the code that the model keeps as written:

- A submission never clears a candidate. It only overwrites the field of an
  engine that runs. A MarianMT candidate left by an earlier submission can be
  offered, and saved, next to the text of a later one
  (`Workflow.StaleCandidateIsSaved`).
- A submission whose detected language is not en, fr or ar still overwrites
  `user_text` and `src_lang`. It writes no candidate.
- A pair with the same source and destination (such as en to en) matches no
  branch. No engine runs and no message is shown beyond the detected language.
- `dest_lang_iso` is written only when the session is initialised and by the
  reset after a successful save, both times to the empty string. It is never
  read, and it always holds `''` (`Workflow.Coherent`). The destination selector is a widget, not session
  state, and the reset does not touch it.
- The radio control starts on 'MarianMT' (translation_app.py:271-274). So
  approving two candidates without touching it saves the MarianMT candidate:
  an explicit choice is never required. The model's `choice` parameter is the
  radio's value, whether the user set it or not.
- In both approval branches, the saved `Target Language` is the destination
  selected when "Approve Translation" is pressed. The destination used at submission
  does not matter.

## Model

| member | source | states |
|---|---|---|
| `Languages.CodeTables` | translation_app.py:138-148 | the NLLB and MarianMT tables cover exactly en, fr and ar; every NLLB code is non-empty; each MarianMT code is the ISO code itself |
| `Languages.Label` | translation_app.py:271-274 | an engine's label is "MarianMT" or "NLLB", the two radio options |
| `Languages.LabelInjective` | translation_app.py:271-274 | the two engines carry different labels, so the `Model` column identifies the engine |
| `Languages.SelectEngines` | translation_app.py:225-265 | some engine runs exactly when both codes are known and differ; MarianMT runs exactly for those pairs with a non-English destination; NLLB runs for English destinations and for fr->ar and en->fr; at most two engines run, with no repeats, and two means MarianMT then NLLB |
| `Languages.SelectEnginesTable` | translation_app.py:225-265 | the six rows of the dispatch table, and no engine for a same-language pair |
| `Languages.MarianModelName` | translation_app.py:162 | the model name of a pair whose source code has no dash parses back to exactly that pair, so the name determines the pair |
| `Languages.ParseMarianModelName` | translation_app.py:162 | a parsed model name yields a source code without a dash |
| `Languages.MarianModelNameInjective` | translation_app.py:160-166 | two pairs of MarianMT codes give the same model name only if they are the same pair, so distinct pairs load distinct hub models |
| `Records.Cells` | translation_app.py:277-283 | a row has one cell per header column, each cell is the field its column names, and reading the cells back gives the row again |
| `Records.Loaded` | translation_app.py:189-194 | loading an absent file gives no rows; loading a well-formed file gives exactly its rows |
| `Records.Saved` | translation_app.py:175-186 | a failed save changes nothing; a successful save makes the file exist, and the file then loads as its old rows plus the new row; the first save writes the header and that one row; a later save keeps the header |
| `Records.SavedAllAppendOnly` | translation_app.py:175-186 | after any series of save attempts, the file loads as its original rows followed by exactly the rows whose save succeeded, in order |
| `Records.CsvFile.constructor` | translation_app.py:171-172 | the file object starts as whatever well-formed file is on disk |
| `Records.CsvFile.Save` | translation_app.py:175-186 | reports the outcome of the write and updates the file as `Saved` says |
| `Records.CsvFile.Load` | translation_app.py:189-194 | returns the file's rows, or none when the file does not exist |
| `Workflow.Submitted` | translation_app.py:209-267 | empty text changes nothing and only asks for text; otherwise `user_text` and `src_lang` take the text and the detected code; an unknown source or destination code is reported and writes no candidate; otherwise the engines run are `SelectEngines` of the pair; MarianMT is called with the pair's model name, and NLLB with the pair's NLLB codes; each engine that runs overwrites its own candidate, and the candidate of an engine that does not run keeps its old value; `dest_lang_iso` never changes |
| `Workflow.ApprovalRow` | translation_app.py:270-303 | a row exists exactly when some candidate is non-empty; its source, target and original text are `src_lang`, the current destination and `user_text`; its translation is non-empty and equals the candidate of the engine named in `Model`; with two candidates `Model` is the radio choice; with one, it is that candidate's engine |
| `Workflow.Approved` | translation_app.py:270-312 | the approval saves exactly when the write succeeds and some candidate exists, and reports a failed save exactly when a candidate exists and the write fails; a save resets the session to its initial values and appends the approval row; otherwise the session and the file are unchanged |
| `Workflow.Session.constructor` | translation_app.py:196-206 | a new session has empty text and candidates, `src_lang` 'en' and an empty `dest_lang_iso` |
| `Workflow.Session.Submit` | translation_app.py:209-267 | the if/elif chain of "Traduire" leaves the session, and reports the engines run, exactly as `Submitted` says |
| `Workflow.Session.Reset` | translation_app.py:287-292 | the five fields return to their initial values |
| `Workflow.Session.Approve` | translation_app.py:270-312 | the two approval branches update the session and the file, and report the outcome, exactly as `Approved` says |
| `Workflow.InitialCoherent` | translation_app.py:196-206 | the initial session satisfies the session invariant |
| `Workflow.StepAppendsGoodRows` | translation_app.py:209-312 | one submission or approval keeps the session invariant and the file well formed; it only appends to the file, and every row it appends has non-empty text, a non-empty translation and an engine label |
| `Workflow.RunAppendsGoodRows` | translation_app.py:196-312 | the same holds for any series of submissions and approvals: rows already saved are never changed or removed |
| `Workflow.StaleCandidateIsSaved` | translation_app.py:246-283 | after fr->en runs only NLLB, an older MarianMT candidate survives, and approving MarianMT saves it with the new original text |
| `Workflow.ArabicToFrenchScenario` | translation_app.py:225-312 | Arabic text to French runs MarianMT alone; approving saves one MarianMT row whatever the radio holds, and resets the session |
| `Workflow.EnglishToFrenchScenario` | translation_app.py:251-283 | English text to French runs MarianMT then NLLB; choosing NLLB saves the NLLB output labelled NLLB |
| `Workflow.UnsupportedSourceScenario` | translation_app.py:209-222 | text detected as `de` is reported as unsupported; it updates only `user_text` and `src_lang`; from a fresh session it leaves nothing to approve and the file untouched |

## Left out

- Page layout, CSS, images and their base64 encoding (translation_app.py:9-132): presentation only.
- `nltk.download` (translation_app.py:135): network I/O whose result the page never uses.
- Loading and running the models through `transformers`, and the `st.cache_resource` memoisation (translation_app.py:150-169): each engine is an opaque function parameter. The cache is library behaviour. Its key is the pair, and `Languages.MarianModelNameInjective` shows that distinct pairs name distinct models.
- Engine exceptions: a failing model load or inference raises, and the code does not catch it. The model assumes that each engine returns a string.
- `langdetect.detect` (translation_app.py:212): its answer is a parameter. The exception it raises on text it cannot classify is not modelled.
- The text area pre-filled from `st.session_state.user_text` and the destination selector limited to en, fr and ar (translation_app.py:126-129): both are widget values, passed in as `text` and `dest`. `dest` may be any string, which the code also handles.
- `dict.get` returning `None` for a missing key is modelled as the empty string. Both are falsy, and the code only tests their truthiness.
- CSV serialisation by pandas: the file is a sequence of typed rows. Type coercion when the file is read back (empty cells as NaN, for example) is not modelled.
- A `translations.csv` the application did not create is not modelled. This covers a file with another header, and an empty file, on which `pd.read_csv` raises (translation_app.py:191). `save_to_csv` appends to any existing file (translation_app.py:181-182); the model starts from a well-formed file.
- The exception path of `save_to_csv` (translation_app.py:184-186): failure is the boolean `ok`. A failed write leaves the file unchanged; a partial write is not modelled.
- The "Show CSV content" and "Close CSV content" buttons (translation_app.py:315-323): they only display what `load_csv` returns, which `Records.CsvFile.Load` models.
- Status messages written with `st.write`: only their choice is modelled (`Notice`, `ApproveResult`), not their text.
