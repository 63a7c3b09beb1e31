# questionario — a Dafny model of its wizard and its two API routes

The application publishes ten questions, each with an audio clip, and collects
one respondent's answers, which it hands to the mail client rather than
storing them. This project models three pieces of its logic:

- **The questionnaire wizard** (`app/page.tsx`, module `Wizard`): the fixed
  questions and audio clips, the cursor `currentQuestion` moved by the
  Next/Previous buttons, the answers array edited one slot at a time, the
  progress value, the decorative icon per question, and the e-mail body that
  `sendAnswersByEmail` builds. The component state is the class
  `Questionnaire`; the body-building loop is the method `BuildEmailBody`,
  proved against the function `EmailBody`.
- **The question-document route** (`app/api/questions/route.ts`, module
  `QuestionsRoute`): one JSON document `{questions, audioUrls}` in a file.
  GET reads it, and serves `{questions: [], audioUrls: []}` while the file is
  absent. POST checks that `questions` is an array and then replaces the whole
  document. The data directory and the file are the fields of the class
  `QuestionStore`.
- **The audio upload route** (`app/api/upload/route.ts`, module
  `UploadRoute`): it checks that the form has a file and a question id, names
  the file `question_<id>_<timestamp>.mp3`, writes the bytes into the upload
  directory, and returns `/uploads/<name>`. The directory is a map from file
  name to bytes, a field of the class `UploadDir`.

Shared modules: `Wrappers` (Option, Result), `Decimal` (how a whole number is
printed inside a template literal, with its inverse), and `Http` (parsed JSON
values, responses, file-system error codes, and the `mkdir` error handling
that both routes copy).

Replacements for what cannot be modelled directly:

- The clock (`Date.now()`) is the parameter `now` of `UploadDir.Post`.
- What `mkdir`, `readFile` and `writeFile` report on a request is the
  parameter `env: FsEnv`. Each field is None for success or an error code.
- A request body that does not parse is `None`, for both `request.json()`
  and `request.formData()`.
- `JSON.stringify` followed by `JSON.parse` is the identity on the modelled
  values. The file therefore holds the parsed value itself
  (`FileContent.Wellformed`), or `Malformed` for text that does not parse.

The model follows the code as written; in particular:

- Validation happens in the POST handler, not in `writeData`.
- Any array is accepted as `questions`: an empty one, one with non-string
  items, or one whose length differs from `audioUrls`. `audioUrls` is not
  checked at all, and when it is missing the stored object has no
  `audioUrls` key.
- A JSON body of `null` makes the destructuring throw, so POST answers 500,
  not 400. Any other non-object body answers 400.
- `readData` catches every ENOENT inside its `try`, including one from
  `mkdir`. In that case it also serves the empty document.
- A non-empty string sent as the `file` part passes the 400 check and then
  fails at `arrayBuffer()`, giving 500. A File sent as `questionId` is
  printed as `[object File]` in the name.
- The generated name, as a string, fixes both the question id and the
  timestamp (`FileNameInjective`). So for ids without `/`, `\` or `..`, on a
  case-sensitive file system, two distinct uploads write the same file only
  when they carry the same id in the same millisecond. In that case the
  second upload silently overwrites the first (`SameMillisecondUploads`).

## Model

| member | source | states |
|---|---|---|
| `Decimal.NatToString` | app/api/upload/route.ts:41 | a whole number prints as at least one decimal digit, all digits, with a leading `0` only for zero |
| `Decimal.ParseNatToString` | app/page.tsx:100 | reading the printed digits back gives the number (round trip) |
| `Decimal.NatToStringInjective` | app/api/upload/route.ts:40-41 | distinct numbers print as distinct texts, and equal texts come only from equal numbers |
| `Http.EnsureDirResult` | app/api/questions/route.ts:10-20 | `ensureDirectoryExists` succeeds exactly when `mkdir` succeeds or reports EEXIST; any other error is re-thrown unchanged |
| `Http.WriteOutcome` | app/api/questions/route.ts:38-41 | a write fails exactly when the directory step or `writeFile` fails; a directory error comes first, otherwise the `writeFile` error is reported |
| `Wizard.NextCursor` | app/page.tsx:68-75 | Next keeps an in-bounds cursor in bounds; it advances by exactly one below the last question and stays put from the last question onward |
| `Wizard.PreviousCursor` | app/page.tsx:77-81 | Previous keeps an in-bounds cursor in bounds; it steps back by exactly one above 0 and is a no-op at 0 |
| `Wizard.CursorStaysInBounds` | app/page.tsx:13-81 | starting in bounds, any sequence of Next/Previous presses leaves the cursor in `[0, 10)`, so the question, clip and answer at the cursor exist |
| `Wizard.NextsStopAtLast` | app/page.tsx:68-75 | k presses of Next from cursor c reach `min(c + k, 9)` |
| `Wizard.PreviousesStopAtFirst` | app/page.tsx:77-81 | k presses of Previous from cursor c reach `max(c - k, 0)` |
| `Wizard.Progress` | app/page.tsx:187 | for an in-bounds cursor the progress value lies in 10..100, is 100 exactly at the last question, and is a multiple of 10 |
| `Wizard.JsRemainder` | app/page.tsx:124 | JavaScript's `%` agrees with the mathematical remainder for non-negative dividends and lies in `(-b, 0]` for negative ones |
| `Wizard.QuestionIcon` | app/page.tsx:117-125 | for a non-negative index the icon is `icons[index mod 4]`; an icon exists exactly when the index is non-negative or a multiple of 4, and every multiple of 4 (negative ones included) gets the heart |
| `Wizard.QuestionIconPeriodic` | app/page.tsx:117-125 | every question index has an icon, and the icons repeat every four questions |
| `Wizard.AnswerText` | app/page.tsx:101 | the rendered answer is never empty: it is the answer when one is present and non-empty, otherwise `Sem resposta` |
| `Wizard.EmailBodyLayout` | app/page.tsx:97-102 | the body is the header, then the entries before question i, then `"<i+1>. <question>\n"` and `"Resposta: <answer>\n\n"` for question i, then the entries after it |
| `Wizard.BlankLooksLikePlaceholder` | app/page.tsx:101 | an empty answer and the literal answer `Sem resposta` give identical e-mail bodies |
| `Wizard.BuildEmailBody` | app/page.tsx:97-102 | the `+=` loop over the questions produces exactly `EmailBody(questions, answers)` |
| `Wizard.Questionnaire.constructor` | app/page.tsx:13-47 | the first render starts at question 0, with ten empty answers and the fixed ten questions and ten clips |
| `Wizard.Questionnaire.HandleAnswerChange` | app/page.tsx:62-66 | an edit keeps the length and the cursor, puts the new answer in the current slot and leaves every other slot unchanged |
| `Wizard.Questionnaire.HandleNext` | app/page.tsx:68-75 | the cursor moves as `NextCursor` says; below the last question no e-mail is produced; at the last question the body of all answers is produced and the confirmation is shown |
| `Wizard.Questionnaire.HandlePrevious` | app/page.tsx:77-81 | the cursor moves as `PreviousCursor` says, and the answers are unchanged |
| `Wizard.Questionnaire.SendAnswersByEmail` | app/page.tsx:95-114 | the body is `EmailBody` of the questions and current answers, and the confirmation is shown |
| `Wizard.Questionnaire.ProgressValue` | app/page.tsx:186-187 | in every valid state the progress bar value lies in 10..100 |
| `QuestionsRoute.DocumentJson` | app/api/questions/route.ts:63 | the stored object has only the keys `questions` and `audioUrls`; `questions` is the given array, and `audioUrls` is present exactly when it was given |
| `QuestionsRoute.ReadOutcome` | app/api/questions/route.ts:23-35 | ENOENT never escapes; a successful read gives the empty document or the stored value; on a healthy request a missing file reads as `{questions: [], audioUrls: []}`, a stored value reads back unchanged and an unparsable file fails; a `mkdir` error other than EEXIST or ENOENT fails the read; a `mkdir` ENOENT gives the default document; once `mkdir` succeeds or reports EEXIST, a `readFile` error other than ENOENT fails with that error, a `readFile` ENOENT gives the default document, and with no `readFile` error a missing file gives the default, a stored value comes back and an unparsable file is a parse error |
| `QuestionsRoute.DecidePost` | app/api/questions/route.ts:55-61 | an unreadable or `null` body crashes (500); the payload is accepted exactly when `questions` is an array, and the accepted document is `{questions, audioUrls}` taken from the payload |
| `QuestionsRoute.AnyQuestionsArrayAccepted` | app/api/questions/route.ts:57-63 | any `questions` array is accepted, whatever `audioUrls` and any extra members hold, and the document keeps only those two members |
| `QuestionsRoute.DocumentJsonRoundTrip` | app/api/questions/route.ts:57-63 | a stored document, posted back, is accepted as that same document |
| `QuestionsRoute.QuestionStore.constructor` | app/api/questions/route.ts:7 | the store starts with the given directory and file |
| `QuestionsRoute.QuestionStore.EnsureDirectoryExists` | app/api/questions/route.ts:10-20 | the thrown error is `EnsureDirResult` of the `mkdir` result; the directory is taken to exist afterwards if it existed already or `mkdir` reported no error |
| `QuestionsRoute.QuestionStore.ReadData` | app/api/questions/route.ts:23-35 | the result is `ReadOutcome` of the file; the file is unchanged |
| `QuestionsRoute.QuestionStore.WriteData` | app/api/questions/route.ts:38-41 | on success the file holds exactly the given value; on failure the file is unchanged |
| `QuestionsRoute.QuestionStore.Get` | app/api/questions/route.ts:44-52 | GET answers 200 with what `readData` read, or 500 with `Falha ao ler dados`; nothing is written; the directory flag is set exactly when it was set or `mkdir` reported no error |
| `QuestionsRoute.QuestionStore.Post` | app/api/questions/route.ts:55-70 | 400 or 500 with the store untouched on a bad or unreadable payload; otherwise 200 with `{success: true}` and the file replaced wholesale by `{questions, audioUrls}`, or 500 with the file unchanged when writing fails |
| `QuestionsRoute.PostThenGet` | app/api/questions/route.ts:44-70 | after a successful POST, a GET returns exactly the posted `{questions, audioUrls}` |
| `QuestionsRoute.ReplaceScenario` | app/api/questions/route.ts:44-70 | a fresh server serves the empty document; a two-question document reads back as written; a one-question document then replaces it with no merge |
| `UploadRoute.TemplateText` | app/api/upload/route.ts:41 | a string id prints as itself; a non-empty text comes out, except for the empty string |
| `UploadRoute.FileName` | app/api/upload/route.ts:41 | the name splits into `question_`, the id, `_`, the decimal timestamp and `.mp3`, at the stated positions |
| `UploadRoute.PublicPath` | app/api/upload/route.ts:48 | the public path is `/uploads/` followed by exactly the file name |
| `UploadRoute.FileNameInjective` | app/api/upload/route.ts:40-41 | two generated names are equal exactly when both the ids and the timestamps are equal |
| `UploadRoute.DecideUpload` | app/api/upload/route.ts:22-31 | 400 exactly when `file` or `questionId` is missing or empty; accepted exactly when the id is present and non-empty and `file` is a File, with its bytes and a non-empty id text |
| `UploadRoute.UploadDir.constructor` | app/api/upload/route.ts:35 | the directory starts with the given existence and files |
| `UploadRoute.UploadDir.EnsureDirectoryExists` | app/api/upload/route.ts:8-17 | EEXIST is tolerated and other errors are thrown; the directory is taken to exist afterwards if it existed already or `mkdir` reported no error |
| `UploadRoute.UploadDir.Post` | app/api/upload/route.ts:19-59 | 400 with the directory untouched on missing input; 500 with no file changed on any other failure; otherwise 200 with `{success: true, filePath: "/uploads/<name>"}`, the generated name holding exactly the uploaded bytes and every other entry unchanged |
| `UploadRoute.SameMillisecondUploads` | app/api/upload/route.ts:40-45 | two uploads for one id in the same millisecond report the same path, and only the second content is kept |
| `UploadRoute.DistinctMillisecondUploads` | app/api/upload/route.ts:40-45 | two uploads for one id in distinct milliseconds report distinct paths, and each name holds its own content |

## Left out

- QuestionsRoute.QuestionStore.EnsureDirectoryExists / UploadRoute.UploadDir.EnsureDirectoryExists: after a swallowed EEXIST the model sets the directory flag, although with `recursive: true` an EEXIST means a non-directory occupies the path; no response or file content in the model depends on that flag.
- Rendering, the Tailwind styling, the animation keyframes, the "Pergunta n de 10" label and the disabled/label state of the buttons (app/page.tsx:127-252): these are presentation only.
- Loading and saving the answers in `localStorage` (app/page.tsx:50-60). This is browser storage plus `JSON.parse` of stored text. The model's answers always have ten slots. `AnswerText` and `EmailBody` still handle a shorter array as JavaScript does.
- `encodeURIComponent`, the `mailto:` link and `window.open` (app/page.tsx:105-110). These are browser calls. `SendAnswersByEmail` returns the unencoded body instead.
- The admin login with its hardcoded password, and the router navigation (app/page.tsx:83-92). app/admin/page.tsx is not part of this model; it renders two constant lists.
- File-system semantics. The model does not constrain which error `mkdir`, `readFile` or `writeFile` may report in a given state. These results are inputs, not derived from the state.
- Paths: `path.join`, `process.cwd()` and the concrete directory names are implicit in the two classes.
- UploadRoute.UploadDir.Post / FileNameInjective: the upload directory is keyed by the generated name as a flat string, so the path normalisation that `path.join` applies to the question id is not captured. In the program, ids such as `x/../1` and `y/../1` reach the same file in the same millisecond, an id with `../` writes outside the upload directory, an id with `/` names a missing sub-directory (the real write fails with 500 where the model answers 200), and on a case-insensitive file system `A` and `a` collide. None of these is modelled.
- A failed `writeFile` is modelled as leaving the old content in place. The real call may leave a truncated file. Corrupt files enter the model only as a `Malformed` initial content.
- JSON text itself: pretty-printing, key order, duplicate keys and number precision. Numbers are integers here.
- A form field that is sent several times. `formData.get` returns the first value, and the model keeps one value per key.
- Concurrency between requests, and async suspension. Each request is one sequential method call, so last-writer-wins races are not modelled.
- Logging with `console.error`.
- The commented-out database and cloud-storage variants (app/api/questions/route.ts:76-193, app/api/upload/route.ts:65-160). They are not live code.
