# EduAI core logic in Dafny

EduAI is a study assistant. A user uploads lecture material (PDF or slides).
The backend extracts the pages, indexes them for retrieval and returns a
summary, a glossary and quiz questions. The browser client keeps a library of
uploaded documents, each with its own chat transcript, and the user asks
questions about the document on screen. This project models and proves
properties of two small parts of that system.

- **The client** (`frontend/src/App.js`):
  - The session state is the class `Session.ClientSession`. It holds the library of documents, the id of the document on screen, the picked file, the upload busy flag, the upload options, the quiz tab and the chat input box.
  - The upload and send handlers are split at their `await`. `UploadStart`/`UploadSettle` run before and after the upload request. `SendStart`/`SendSettle` run before and after the chat request. The settle step takes the request's outcome as a parameter: an upload response or a failure, and a chat answer or an exception.
  - `HandleUpload` and `HandleSendMessage` compose the two steps; `FirstUpload` and `UploadThenAsk` chain them into a first visit.
  - `activeDoc` is modelled as `IndexOfDoc`/`ActiveDoc`.
  - The glossary importance badge is the pure classifier `Importance.Classify`.
  - The quiz tab filter and the field-alias fallbacks are in `Questions`.
- **The backend retrieval service** (`backend/services/rag_llamaindex.py`):
  - Page-to-document conversion is `Rag.BuildDocuments`, a loop proved equal to the map-then-filter function `Converted`.
  - The per-document chat-engine memo is the class `Rag.ChatEngineCache`, whose `engines` map stands for `_CHAT_ENGINES`.
  - The `sources` list of a chat reply is `Rag.BuildSources`, and the reply itself is `ChatWithRag`.

Supporting modules:
- `Wrappers` provides `Option`.
- `Seqs` provides a generic filter and its lemmas.
- `Text` provides:
  - substring search proved against an existential definition;
  - ASCII lower-casing;
  - the JavaScript `trim()` and Python `str.strip()` whitespace sets;
  - a strip function proved to remove exactly the surrounding whitespace.

The backend's `sources` entries carry the node score through `float(...)`.
Here the score is an optional `real` that is passed on unchanged.

The comment above the High test (`frontend/src/App.js:36`) reads
"매우 중요, 핵심" ("very important, core"). The test itself at
`frontend/src/App.js:37` looks only for the Korean "매우" ("very"), "high",
"핵심" and "most". So the English "Very important" has no High marker. It
matches the Mid marker "important" and is Mid.
`Importance.EnglishVeryImportantIsMid` proves this outcome.

## Model

| member | source | states |
|---|---|---|
| Text.IncludesIsSubstring | frontend/src/App.js:37 | `includes` is true exactly when the marker occurs at some position of the text |
| Text.Lower | frontend/src/App.js:30 | lower-casing keeps the length, maps each character on its own and leaves no upper-case ASCII letter |
| Text.LowerIdempotent | frontend/src/App.js:30 | lower-casing twice is lower-casing once |
| Text.StrippedUnique | backend/services/rag_llamaindex.py:11 | a string has at most one stripped form: two slices that both satisfy the stripping conditions are equal, so together with StripSpec the strip result is determined |
| Text.StripSpec | backend/services/rag_llamaindex.py:11 | the stripped text is a slice of the input with only whitespace before and after it; it neither starts nor ends with whitespace |
| Text.StripEmptyIffBlank | frontend/src/App.js:102 | the stripped (trimmed) text is empty exactly when every character of the input is whitespace |
| Importance.Normalize | frontend/src/App.js:30 | a missing value becomes the empty string; a present one becomes its lower-cased form, of the same length and with no upper-case letter |
| Importance.IncludesAnyIsHasMarker | frontend/src/App.js:37-42 | the `\|\|` chain of `includes` tests is true exactly when some marker of the list occurs in the text |
| Importance.Classify | frontend/src/App.js:29-46 | total: High exactly when a High marker occurs in the lower-cased text; Mid exactly when no High marker but a Mid marker occurs; Low exactly when neither does |
| Importance.LabelText | frontend/src/App.js:33-43 | the shown label text is "High", "Mid" or "Low" for the three labels |
| Importance.ClassifyIdempotent | frontend/src/App.js:29-46 | classifying the shown label again gives the same label |
| Importance.NoHighMarkerInMid | frontend/src/App.js:37 | the shown "Mid" holds none of the High markers |
| Importance.MidLabelIsMid | frontend/src/App.js:37-43 | the shown "Mid" is Mid again |
| Importance.NoMarkerInLow | frontend/src/App.js:37-42 | the shown "Low" holds no High and no Mid marker |
| Importance.MissingIsLow | frontend/src/App.js:30-33 | a missing importance value is Low |
| Importance.HighWins | frontend/src/App.js:36-40 | any High marker in the lower-cased text gives High, whatever Mid markers are also present |
| Importance.MidUnlessHigh | frontend/src/App.js:41-45 | a text with a Mid marker is Mid exactly when it has no High marker, and is never Low |
| Importance.CaseInsensitive | frontend/src/App.js:30 | a string and its lower-cased form get the same label |
| Importance.UpperCaseHigh | frontend/src/App.js:30-40 | "HIGH" and "Most relevant" are High |
| Importance.VeryImportantIsHigh | frontend/src/App.js:36-40 | "매우 중요" holds both a High and a Mid marker and is High |
| Importance.MostImportantIsHigh | frontend/src/App.js:37-40 | "Most important" is High, not Mid |
| Importance.NoHighMarkerInVeryImportant | frontend/src/App.js:37 | "very important" contains none of the four High markers |
| Importance.EnglishVeryImportantIsMid | frontend/src/App.js:36-45 | "Very important" is Mid, because only the Korean "매우" counts as "very" |
| Questions.VisibleContents | frontend/src/App.js:375 | a tab shows exactly the questions it accepts, each as often as in the list, and filtering a concatenation filters each part in order |
| Questions.TabsPartition | frontend/src/App.js:375 | the mcq tab and the other tab split the questions between them: their sizes add up to the total and together they hold the same multiset |
| Questions.FirstTruthy | frontend/src/App.js:376 | the `a \|\| b \|\| c \|\| default` chain gives the first present, non-empty candidate, or the default when there is none |
| Questions.DisplayText | frontend/src/App.js:376 | the question text is stem, else question, else text, else the fixed "no content" message |
| Questions.ExplanationText | frontend/src/App.js:379 | the explanation is rationale, else explanation, else the fixed "no explanation" message |
| Questions.ChoicesOf | frontend/src/App.js:377 | the choices are `choices` when present, else `options` |
| Session.Greeting | frontend/src/App.js:85 | the seeded greeting starts with the fixed prefix, ends with the fixed suffix and contains the file name |
| Session.NewDocument | frontend/src/App.js:79-87 | the new document has the response id, summary, glossary and questions, the picked file name and the captured options, and a transcript of exactly one assistant message that names the file |
| Session.Reply | frontend/src/App.js:123-133 | the settled message is an assistant message holding the answer, or the fixed fallback text when the request threw |
| Session.IndexOfDoc | frontend/src/App.js:21 | the lookup finds the first document with the id, or none when no document has it |
| Session.AppendToMatching | frontend/src/App.js:109-113 | the length is kept; every document with the id gets the message appended; every other document is unchanged |
| Session.AppendKeepsLookup | frontend/src/App.js:109-113 | appending to transcripts leaves every lookup by id where it was |
| Session.ExchangeAppendsTwo | frontend/src/App.js:109-133 | the two appends of one send add exactly the user message and the reply to the documents with the captured id, and change nothing else |
| Session.AppendToMatchingGrows | frontend/src/App.js:109-113 | appending by id only extends transcripts: no document is removed, reordered or otherwise edited |
| Session.ClientSession.ActiveDoc | frontend/src/App.js:21 | the active document is the first document of the library with the current id; with a valid selection it exists exactly when an id is selected |
| Session.ClientSession.constructor | frontend/src/App.js:6-17 | the initial state: no file, not uploading, an empty library, no selection, the mcq tab, novice, understanding, an empty input |
| Session.ClientSession.ChooseFile | frontend/src/App.js:55-59 | a picked file replaces the selection; an empty pick changes nothing |
| Session.ClientSession.SetAudience | frontend/src/App.js:246 | sets the audience option |
| Session.ClientSession.SetPurpose | frontend/src/App.js:264 | sets the purpose option |
| Session.ClientSession.SetChatInput | frontend/src/App.js:463 | sets the chat input box |
| Session.ClientSession.SelectTab | frontend/src/App.js:366 | sets the quiz tab |
| Session.ClientSession.SelectDocument | frontend/src/App.js:188 | a clicked library entry becomes the active document |
| Session.ClientSession.ClearSelection | frontend/src/App.js:166-174 | clearing the selection leaves no active document |
| Session.ClientSession.UploadStart | frontend/src/App.js:61-68 | without a file it returns nothing and leaves the busy flag alone; with one it raises the busy flag and captures the file and options |
| Session.ClientSession.UploadSettle | frontend/src/App.js:70-98 | success appends exactly one document at the end, makes it current and clears the file; failure changes nothing but the busy flag; the busy flag ends false; the library only grows; a new id makes the new document the active one |
| Session.ClientSession.HandleUpload | frontend/src/App.js:61-99 | with no file nothing changes; otherwise the busy flag ends false, and success appends the new document, selects it and clears the file while failure leaves the library, selection and file alone |
| Session.ClientSession.SendStart | frontend/src/App.js:101-113 | with a blank input or no active document nothing changes; otherwise the input is cleared, the user message is appended to the documents with the active id, and that id and the message are captured |
| Session.ClientSession.SendSettle | frontend/src/App.js:115-134 | the reply or fallback is appended to the documents with the captured id, whatever is on screen now; the selection is kept |
| Session.ClientSession.HandleSendMessage | frontend/src/App.js:101-135 | a guarded no-op, or input cleared and the user message then the reply appended to the documents with the id captured at the start |
| Session.FirstUpload | frontend/src/App.js:61-99 | a file picked and uploaded on a fresh session: the library is exactly the new document, it is current, the file is cleared and the busy flag is down |
| Session.UploadThenAsk | frontend/src/App.js:61-135 | after the first upload, one question: the session has one current document whose transcript is the greeting, the question and the reply |
| Rag.PageTextSpec | backend/services/rag_llamaindex.py:11 | the page text is the stripped text; it is empty exactly when the text is missing, None or all whitespace |
| Rag.BuildDocuments | backend/services/rag_llamaindex.py:7-28 | the loop returns the page documents with non-empty stripped text, in page order |
| Rag.ConvertedDocuments | backend/services/rag_llamaindex.py:10-26 | every non-blank page gives a document with its stripped text, the given id and file name and its index; every document has text and comes from a page; there are never more documents than pages |
| Rag.ConvertedAppend | backend/services/rag_llamaindex.py:10-26 | conversion keeps page order: the documents of concatenated pages are those of the first part followed by those of the second |
| Rag.BlankDocumentGivesNothing | backend/services/rag_llamaindex.py:10-13 | with no `pages` key or only blank pages the result is empty |
| Rag.ChatEngine.constructor | backend/services/rag_llamaindex.py:121-125 | an engine is built for one document id |
| Rag.BuildSources | backend/services/rag_llamaindex.py:144-153 | one source per node, in order, with the page and id of its metadata (None without metadata) and its score, None staying None |
| Rag.ChatEngineCache.constructor | backend/services/rag_llamaindex.py:5 | the cache starts empty |
| Rag.ChatEngineCache.GetOrCreate | backend/services/rag_llamaindex.py:100-130 | a hit returns the cached engine and changes nothing; a miss builds one new engine, caches it under the id and keeps every other entry |
| Rag.ChatEngineCache.ChatWithRag | backend/services/rag_llamaindex.py:132-158 | the reply holds the engine's answer and one source per source node, in order; missing source nodes give none; the engine is reused or created as in the cache lookup |
| Rag.SecondLookupReuses | backend/services/rag_llamaindex.py:100-130 | two lookups of the same id return the same engine, and the cache gains at most that one entry |

## Left out

- Network and browser I/O is not modelled: `fetch`, `FormData`, `alert`, `console.error` and `response.json()`. Each request is an outcome parameter, success or failure.
- Presentation is not modelled: JSX, CSS classes, `SidebarItem`, the auto-scroll effect and the date string. The badge's style string is one of these; only its label is modelled.
- Concurrent sends whose requests race are not modelled. Only a start step followed by its own settle step is. Document ids are not assumed unique: every document with the captured id gets the messages, as `map` does.
- Session.Reply: the chat handler never checks `response.ok`, so a JSON body without `answer` appends `undefined`. The model has only an answer string or the exception fallback.
- Session.ClientSession.HandleSendMessage: does not restate that the other documents and the list order are untouched. That follows from `AppendToMatching`'s contract and `ExchangeAppendsTwo`.
- Text.Lower: `toLowerCase` is modelled for ASCII A-Z only. Hangul has no case; other cased scripts are not covered.
- Importance.Normalize: `toString()` of a non-string importance (a number, an object) is not modelled. The value is a string or missing.
- Rag.PagesOf: a `pages` key present with the value None makes the Python loop raise. This is not modelled; None stands for the absent key.
- Rag.ChatEngineCache.ChatWithRag: the engine's answer and source nodes are a parameter. The LlamaIndex `chat` call, its conversation memory and `str(resp)` are not modelled.
- Rag.BuildSources: `float(node.score)` is not modelled. The score is an optional real passed on unchanged.
- Index building and loading are not modelled: `_init_llama_settings`, `build_index_with_lancedb`, `load_index_from_lancedb`, the retriever and the `ContextChatEngine` construction. They are LlamaIndex, LanceDB and Vertex AI calls. An engine is an opaque object made by a constructor.
- `backend/main.py` is not part of this model. It holds the HTTP endpoints, file handling, text extraction and storage calls.
