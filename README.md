# Quiz bot core in Dafny

A model of a Telegram bot that turns plain-text question files into quiz polls and
turns forwarded quiz polls back into plain text. The model covers five parts:

- **the question extractor** (`extract_questions_from_text`):
  - it normalises the text, then splits it into numbered blocks;
  - each block goes through a fixed cascade of checks and becomes either one
    question record or one skip record;
- **the quiz formatter** (`format_quiz_as_text`) and the **round trip** between the
  formatter and the extractor;
- **the dispatcher** (`send_telegram_quizzes`):
  - it numbers the questions from a per-chat counter, sends them and writes the
    counter back;
  - whether each send succeeds is an input;
- **the conversation handlers** of handlers.py:
  - the per-user state machine, the forwarded-quiz batches and the upload rate limit;
  - the 4000-character inline/document/parts rule and the skipped-questions summary;
- **access control**:
  - the middleware and the admin commands of handlers_admin.py;
  - the JSON user store of filedb.py.

Files:

- `wrappers.dfy`: `Option`.
- `pytext.dfy`: the Python string operations the code relies on, such as `strip`,
  `str(int)`, `int(str)`, `join`, `startswith` and `repr`.
- `extractor.dfy`: the extractor. Each regular expression is an explicit scanning
  function, derived from how Python's `re` backtracks.
- `codec.dfy`: the formatter.
- `roundtrip.dfy`: the round trip, plus worked examples.
- `dispatcher.dfy`: the dispatcher. The `quiz_counter` dictionary is the
  class `QuizCounter`.
- `states.dfy`: the four user states.
- `filedb.dfy`: the two JSON files, as the class `JsonStore`.
- `admin.dfy`: the middleware and the admin commands.
- `handlers.dfy`: the module-level dictionaries of handlers.py, as the class `Session`.

Everything the bot gets from outside is a parameter:

- the clock;
- the text read from an uploaded file;
- whether the file could be saved;
- whether each poll send succeeds;
- `ADMIN_IDS` and `MIN_INTERVAL_BETWEEN_FILES`.

## Behaviour worth noting

- **Normalisation is not idempotent.** Normalising is `replace('\r\n', '\n')` followed
  by `strip()`, and doing it twice can change the text again. `"a\r\r\nb"` becomes
  `"a\r\nb"`, and that becomes `"a\nb"`.
- **Extraction is a single pass.** Each block is parsed once by one cascade of
  patterns, and runs of whitespace inside a block are kept as they are.
- **The answer search is not case-blind throughout:**
  - the search for the answer letter ignores case;
  - the look-ahead that ends the options span (`\n\s*Answer\s*:`) does not.
  - So a block whose answer line reads `answer: b` is skipped as
    "No options found.", not accepted.

## Model

| member | source | states |
|---|---|---|
| Extractor.Normalize | utils.py:81 | The result has no whitespace at either end. A text with no CR-LF pair that is already trimmed comes back unchanged. |
| Extractor.NormalizeNotIdempotent | utils.py:81 | Normalising `a\r\r\nb` gives `a\r\nb`. Normalising that again gives `a\nb`. |
| Extractor.SplitBlocksJoin | utils.py:89 | Joining the blocks with newlines gives back the normalised text: splitting loses nothing but the separating newlines. |
| Extractor.SplitBlocksNoBreak | utils.py:89 | A text with no newline followed by a question number is a single block. |
| Extractor.FirstOptionAhead | utils.py:99 | Finds the first position from which an option-marker line follows. `None` means no such position exists. |
| Extractor.MatchHeader | utils.py:99-106 | A matched header has a non-empty all-digit number. A header only matches when an option-marker line follows somewhere in the block. |
| Extractor.CleanText | utils.py:106 | A cleaned stem or option text has no newline. A trimmed single-line text is left unchanged. |
| Extractor.FindAnswerLeftmost | utils.py:117 | The answer search returns the letter of the leftmost case-insensitive `Answer\s*:\s*letter` match. It returns `None` exactly when there is no match anywhere. |
| Extractor.FindAnswerAt | utils.py:117 | A match at `q`, with no match between `p` and `q`, is the one the search returns. |
| Extractor.AnswerLetter | utils.py:117-122 | A found answer letter is lower-case. |
| Extractor.FindOptionsSpan | utils.py:125 | A span found begins at an option-marker line and ends at the first `\n\s*Answer\s*:` after its first marker. |
| Extractor.FindOptionsSpanLeftmost | utils.py:125 | The span found is the leftmost one. `None` means no position starts a span. |
| Extractor.FirstEntryEnd | utils.py:132 | An option's text runs to the nearest next option marker, or to the end of the span. |
| Extractor.OptionEntries | utils.py:132 | Every entry found has a letter. A span that starts with an option line yields at least one entry. |
| Extractor.BlockEntries | utils.py:125-132 | When an options span exists, it yields at least one entry. |
| Extractor.LettersOf | utils.py:141 | The letters are lower-cased, one per entry, in order. |
| Extractor.TextsOf | utils.py:140 | The texts are the cleaned entry texts, one per entry, in order. |
| Extractor.IndexOf | utils.py:143-148 | `list.index`: gives the first position of the letter. `None`, where Python raises, exactly when the letter is absent. |
| Extractor.ParseBlock | utils.py:97-156 | An accepted question is structurally valid: non-empty stem, at least two options, correct index in range. Its stem was not accepted before. |
| Extractor.ParseBlockAccepted | utils.py:134-155 | An accepted question carries the header's number and cleaned stem, and the cleaned option texts in order. Its index is that of the first option whose lower-cased letter equals the answer letter. |
| Extractor.SkipPrecedence | utils.py:99-137 | Each skip reason is given exactly when every earlier check passed and its own check failed. The order is: no pattern (labelled `Block i+1`), empty stem, duplicate, no answer line, no options, fewer than two options. |
| Extractor.LetterMissingExactly | utils.py:143-148 | A block that passes every other check is skipped as letter-not-in-options exactly when the answer letter is not among its option letters. |
| Extractor.DuplicateSkipped | utils.py:112-114 | A block whose cleaned stem was already accepted is skipped as a duplicate, whatever follows. |
| Extractor.ExtractPartition | utils.py:92-161 | Whatever the block parser, each block that is non-empty after stripping adds exactly one record, to the questions or to the skips. |
| Extractor.ParseBlockSound | utils.py:106-156 | The block cascade accepts only valid questions, and only ones whose stem is not in the set of stems seen so far. |
| Extractor.ExtractInvariant | utils.py:92-156 | With a block parser of that kind, all accepted questions are valid and their stems are pairwise distinct. |
| Extractor.ExtractMonotone | utils.py:92-161 | Later blocks only append. Earlier questions and skips stay in block order. |
| Extractor.ExtractFacts | utils.py:70-163 | The extraction of any text has valid questions with distinct stems, and one record per non-blank block. |
| Extractor.ExtractFromBlocks | utils.py:92-156 | The loop over the split blocks computes the extraction fold over the stripped blocks. It strips each block, passes over blank ones and keeps the set of accepted stems. |
| Extractor.ExtractQuestions | utils.py:70-163 | The loop over the blocks, with its set of accepted stems, computes the extraction function. The result is valid and duplicate-free, and its record count equals the count of non-blank blocks. |
| Codec.Letter | utils.py:240 | `chr(97 + i)` is the character with code 97 + i. |
| Codec.FormatQuizAsText | utils.py:216-254 | The string-building loop returns the quiz text: prefix, stem, one `letter) text` line per option, then the answer line. It returns the error text when formatting raises. |
| Codec.OptionLinesLength | utils.py:237-240 | The option lines start with `a) ` and take at least four characters per option. |
| Codec.ErrorExactly | utils.py:252-254 | The formatter returns "Error formatting quiz" exactly when formatting raises. That happens when the index is out of range for indexing or for `chr`. |
| Codec.StemFirst | utils.py:228-229 | A formatted quiz starts with the optional `n. ` prefix, then the stem, then a newline. |
| Codec.AnswerMarked | utils.py:243-246 | With a valid index k, the last line is `Answer: ` then the k-th letter, `) ` and the k-th option's text. |
| Codec.NotProvided | utils.py:247-248 | Without a correct index, the text ends with `Answer: Not provided`. |
| Codec.FranceExample | utils.py:228-248 | The France quiz formats to `Capital of France?`, `a) Paris`, `b) Lyon`, `Answer: a) Paris`. |
| Codec.OutOfRangeExample | utils.py:244-254 | Index 2 for two options gives the error text. |
| RoundTrip.RoundTrip | utils.py:228-248 | Extracting the text formatted with number n gives exactly one question: number `str(n)`, the same stem, the same option texts in order, the same correct index, and no skip. |
| RoundTrip.QuizTextCanonical | utils.py:228-248 | A formatted quiz is the header line, one `\nletter) text` piece per option, and the answer tail. |
| RoundTrip.LinesMarked | utils.py:237-240 | The formatter's option lines, after a leading newline, are the option pieces followed by a newline. |
| RoundTrip.MarkedEntries | utils.py:132 | The options `findall` over the option pieces returns each piece's letter and text, in order. |
| RoundTrip.CanonicalHeader | utils.py:99-106 | The header match on a formatted quiz returns `str(n)` and the stem. |
| RoundTrip.CanonicalAnswer | utils.py:117-122 | The answer search on a formatted quiz finds the answer-line letter. |
| RoundTrip.CanonicalEntries | utils.py:125-141 | The options span of a formatted quiz yields one entry per option, lettered a, b, c, and so on. |
| RoundTrip.ParseCanonical | utils.py:99-155 | A formatted block is either a duplicate of an accepted stem, or accepted with index letter − `a`, or skipped because the letter is past the last option. |
| RoundTrip.ExtractCanonical | utils.py:99-155 | A whole formatted text extracts to that one question, or to that one skip. |
| RoundTrip.ExtractWithoutAnswer | utils.py:116-121 | A formatted quiz without an answer line is skipped as "No answer line found." under its number. |
| RoundTrip.SampleAccepted | utils.py:99-155 | `1. What is 2+2?`, `a) 3`, `b) 4`, `Answer: b` yields question "1", stem "What is 2+2?", options ["3", "4"], index 1. |
| RoundTrip.SampleNoAnswer | utils.py:117-121 | The same block without its answer line is skipped as "No answer line found.". |
| RoundTrip.SampleLetterMissing | utils.py:143-148 | `Answer: c` with options a and b is skipped, naming `c` and the letters `['a', 'b']`. |
| Dispatcher.StripNumbering | utils.py:190 | Removes a leading `\d+\s*[.)]\s*` token exactly when there is one, and only that prefix. What remains does not start with whitespace. |
| Dispatcher.QuizCounter.constructor | utils.py:165 | The counter holds the given map. |
| Dispatcher.SendTelegramQuizzes | utils.py:165-214 | The loop's counts, failed labels and sent polls are those of the dispatch function. The counter afterwards maps this chat to the next number, and no other key changes. |
| Dispatcher.DispatchCounts | utils.py:183-212 | sent + errors equals the number of questions. Failed labels are one per error. Polls are one per success. The next number is the start plus sent. |
| Dispatcher.DispatchFailed | utils.py:206-209 | The failed labels are those of the failed questions, in input order. |
| Dispatcher.DispatchPolls | utils.py:185-204 | The polls are the delivered questions in order, numbered consecutively from the start. A failed send uses up no number. |
| Dispatcher.AllDeliveredPolls | utils.py:185-204 | When every send succeeds, the polls are all questions numbered from the start. |
| Dispatcher.AllSentNumbered | utils.py:192-204 | When every send succeeds, poll j shows number start + j in front of question j's stem. |
| Dispatcher.CounterExample | utils.py:183-212 | Counter 5 and three successful sends give polls numbered 5, 6 and 7, and leave the counter at 8. |
| Dispatcher.FailureKeepsNumber | utils.py:203-209 | A failed first send is recorded as an error, and the next success still gets number 1. |
| Dispatcher.RenumberExample | utils.py:190-193 | `3) What is 2+2?` sent as number 12 reads `12. What is 2+2?`. |
| FileDb.Load | filedb.py:11-18 | A missing or unparsable file reads as the empty list. |
| FileDb.Upserted | filedb.py:26-40 | After an upsert the id is present. The list is unchanged when the id was already there; otherwise the entry is appended. |
| FileDb.FirstWithId | filedb.py:42-47 | Returns the first record with the id. `None` exactly when no record has it. |
| FileDb.WithoutId | filedb.py:68 | The filter keeps exactly the records whose id differs, and none with the id remains. |
| FileDb.WithoutIdShrinks | filedb.py:69 | The filtered list is as long as the original exactly when no record had the id. |
| FileDb.WithoutIdKeepsOrder | filedb.py:68 | Without a matching record, the filter returns the list itself. |
| FileDb.WithoutIdAppend | filedb.py:68 | The filter distributes over concatenation, so kept records keep their order. |
| FileDb.UpsertKeepsUnique | filedb.py:26-40 | Upserting keeps ids unique. |
| FileDb.UpsertIdempotent | filedb.py:26-40 | A second upsert with the same id changes nothing. |
| FileDb.WithoutIdKeepsUnique | filedb.py:66-72 | Removing keeps ids unique. |
| FileDb.JsonStore.constructor | filedb.py:6-7 | The store holds the two given files. |
| FileDb.JsonStore.UpsertUser | filedb.py:26-40 | Returns True. Leaves the users file alone when the id exists. Otherwise writes the list with one new entry, whose name fields default to ''. Never touches the allow-list. |
| FileDb.JsonStore.GetUserById | filedb.py:42-47 | `None` exactly when no user record has the id. Otherwise the record carries the id and no earlier record does. |
| FileDb.JsonStore.ListAllUsers | filedb.py:49-50 | Every listed user can be looked up by its id. A missing or unreadable users file lists nobody. |
| FileDb.JsonStore.AddAllowedUserFromUser | filedb.py:54-61 | Returns True. Appends the record only when its id is absent. Afterwards the id is allowed. |
| FileDb.JsonStore.ListAllowedUsers | filedb.py:63-64 | Every listed user is allowed. A missing or unreadable allow-list lists nobody. |
| FileDb.JsonStore.RemoveAllowedUser | filedb.py:66-72 | Returns True exactly when some record had the id. It then writes the filtered list, and otherwise changes nothing. Afterwards the id is not allowed. |
| FileDb.JsonStore.IsUserAllowed | filedb.py:74-76 | True exactly when some record of the allow-list has the id. A missing or unreadable allow-list allows nobody. |
| FileDb.EmptyWhenUnreadable | filedb.py:11-18 | A missing or unreadable file allows nobody and knows nobody. |
| Admin.Middleware | handlers_admin.py:107-123 | The handler is refused, with the refusal text, exactly when three things hold: the text starts with no open command, the sender is no admin, and the sender has no truthy id on the allow-list. |
| Admin.OpenCommandPasses | handlers_admin.py:110-112 | Text starting with an open command passes, whoever sends it. |
| Admin.AdminPasses | handlers_admin.py:115-117 | An admin always passes. |
| Admin.OthersRefused | handlers_admin.py:119-123 | Anyone else is refused, including id 0 and every non-admin when the allow-list is missing or unreadable. |
| Admin.MyAccessBehindMiddleware | handlers_admin.py:95-103 | A `/myaccess` that got past the middleware is never answered "NOT allowed". |
| Admin.AllowUserGuard | handlers_admin.py:12-26 | The guards run in order: not admin, no arguments, not an integer, not in the user list, and only then promote. Each guard is reached exactly when the earlier ones pass. |
| Admin.AllowUserCommand | handlers_admin.py:10-30 | Only the promote step writes the allow-list, and afterwards that user is allowed. Every other step leaves both files unchanged. |
| Admin.RemoveUserCommand | handlers_admin.py:32-45 | Non-admins and missing arguments are answered before anything is removed. A non-integer argument raises. Otherwise the id is removed and the reply says whether it was there. |
| Admin.MyAccess | handlers_admin.py:95-103 | Admins are answered first. Anyone else is "NOT allowed" exactly when they are absent from the allow-list. |
| Admin.OrNA | handlers_admin.py:57 | `x or 'N/A'` is never empty, and a non-empty name is shown as it is. |
| Admin.AllowedLines | handlers_admin.py:56-58 | One line per allowed user, in order. |
| Admin.UserLines | handlers_admin.py:70-72 | One line per known user, in order. |
| Admin.ListUsers | handlers_admin.py:47-59 | The refusal exactly when the sender is not an admin. For an admin, "No allowed users found." exactly when the allow-list is empty, and otherwise a reply headed "Allowed users:". |
| Admin.UserList | handlers_admin.py:61-73 | The refusal exactly when the sender is not an admin. For an admin, "No users found." exactly when the users file is empty, and otherwise a reply headed "All users in users.json:". |
| Admin.ListUsersNamesEveryone | handlers_admin.py:47-59 | An admin's `/listusers` reply contains every allowed user's line. |
| Admin.UserListNamesEveryone | handlers_admin.py:61-73 | An admin's user list contains every known user's line. |
| Admin.ListingsNeedAdmin | handlers_admin.py:47-73 | A non-admin gets only the refusal, whatever the files hold. |
| Admin.AdminButtonReply | handlers_admin.py:75-92 | Non-admins get no reply. The two list buttons give the listings. Allow and Remove give their command instructions, and Back gives the return text. A missing text and any other text get no reply. |
| Admin.StateTable.constructor | handlers_admin.py:7 | The state table holds the given map. |
| Admin.HandleAdminTextMessage | handlers_admin.py:75-92 | Only an admin's Back button changes state, setting that admin to IDLE. |
| Handlers.ChunksRebuild | handlers.py:353 | The parts concatenate to the text. Each part has 1 to 4000 characters, all but the last exactly 4000. There are ⌈len/4000⌉ parts. |
| Handlers.DeliverCarriesBody | handlers.py:338-358 | Text of up to 4000 characters goes inline after the summary. Longer text goes as one document when saved. Otherwise it goes as the summary followed by numbered parts that rebuild the text. |
| Handlers.SkippedSummaryEmpty | handlers.py:238-239 | The skipped summary is empty exactly when nothing was skipped. |
| Handlers.SkippedSummaryMore | handlers.py:243-244 | More than five skips: the summary ends with ` and N more`, where N = len − 5. |
| Handlers.SkippedSummaryFew | handlers.py:241-244 | At most five skips: there is no ` more` ending. |
| Handlers.ResultMessage | handlers.py:228-244 | The reply opens with the found and sent counts and ends with the skipped summary. With no failed send, nothing comes between them. |
| Handlers.ResultListsFailures | handlers.py:232-235 | After a failed send the reply gives the number of failures and names every failed question. |
| Handlers.SkippedSummaryLists | handlers.py:241-242 | The summary contains each of the first five skip records. |
| Handlers.Stage | handlers.py:163-212 | The checks of `handle_file` in order: the state is not WAITING_FOR_FILE, then the rate limit with its wait, then the file name and text. An extraction is reached only with an accepted name, non-blank text and at least one question. |
| Handlers.StageReachesExtraction | handlers.py:163-212 | A waiting user with no earlier upload, or whose last upload is at least the minimum interval old, whose accepted file holds non-blank text with at least one question reaches the extraction stage, carrying that extraction. |
| Handlers.SampleFileExtracted | handlers.py:163-212 | A waiting user's `quiz.txt` holding one well-formed question passes every check and reaches the send. |
| Handlers.FinishTexts | handlers.py:324-333 | One formatted text per forwarded quiz. Formatted plus skipped equals forwarded, with the skipped list always empty. |
| Handlers.FormatBatch | handlers.py:321-330 | The loop formats quiz k with number k + 1. |
| Handlers.FinishNumbersFromOne | handlers.py:324-326 | The k-th text is the formatter's output with number k + 1, and a formattable quiz's text starts `k+1. stem`. |
| Handlers.ValidQuestionFormats | handlers.py:386-392 | A stored question fails to format only when it has more options than letters. |
| Handlers.AppendOptionLines | handlers.py:389-390 | The inner loop appends exactly the formatter's option lines for the stored options. |
| Handlers.ShowQuestionText | handlers.py:387-392 | The nested loop for question i gives exactly `format_quiz_as_text` with number i and the stored index. `None` exactly when that raises. |
| Handlers.ShownTexts | handlers.py:385-392 | Every shown text is the formatter's output with its position from 1. `None` exactly when one question fails. |
| Handlers.FormatShown | handlers.py:385-392 | The formatting loop computes the shown texts. |
| Handlers.Session.constructor | handlers.py:32-37 | Every dictionary starts empty. |
| Handlers.Session.Start | handlers.py:94 | The user becomes IDLE, and nothing else changes. |
| Handlers.Session.CreateQuizButton | handlers.py:124-138 | The user becomes WAITING_FOR_FILE and gets the prompt. |
| Handlers.Session.ExtractQuizzesButton | handlers.py:140-155 | The user becomes COLLECTING with an empty batch. |
| Handlers.Session.TextMessage | handlers.py:465-478 | The Create and Extract buttons set the state their handlers set and reply with those handlers' prompts. Help changes nothing; its text is not modelled. Any other text gets the reminder and changes nothing. |
| Handlers.Session.Intake | handlers.py:160-200 | Computes the stage of the checks. The upload time is recorded once the rate limit passes, before the file type is checked. It stays unchanged when the user is not waiting for a file or is rate-limited. |
| Handlers.Session.HandleFile | handlers.py:157-263 | With the counter passed: a file that yields questions stores the extraction, sends the questions, replies with the counts and skipped summary, and sets EXTRACTING_QUIZZES. Otherwise only the stage reply, and nothing changes unless the state was WAITING_FOR_FILE. |
| Handlers.Session.HandleFileAsWritten | handlers.py:225 | As written: once questions are stored, the three-argument call raises. The reply is the error text and the state stays WAITING_FOR_FILE. |
| Handlers.Session.HandleForwardedQuiz | handlers.py:265-305 | Only a forwarded quiz from a collecting user is stored. The batch grows by exactly one, and the reply reports the new length. |
| Handlers.Session.FinishExtraction | handlers.py:307-365 | No batch or an empty batch gives "No quizzes saved" and changes nothing. Otherwise the batch is popped, the quizzes are formatted from 1 and delivered, and the user becomes IDLE. |
| Handlers.Session.ShowQuestions | handlers.py:367-423 | Replies from the stored extraction through the 4000-character rule, and changes nothing. |
| Handlers.Session.CancelExtraction | handlers.py:425-437 | The batch is deleted and the user becomes IDLE. |
| Handlers.Session.CancelProcessing | handlers.py:439-451 | The stored extraction is deleted and the user becomes IDLE. |
| Handlers.DirectQuizReply | handlers.py:453-463 | The reply starts with `Extracted Quiz:`. When the quiz formats, the stem line follows and the reply ends with the answer line, which shows the correct option or `Not provided`. |
| PyText.Strip | utils.py:93 | `strip()`: the result is trimmed and no longer than the input. It is empty exactly when the input is all whitespace, and a trimmed input is returned unchanged. |

## Left out

### I/O, Telegram and runtime
- File and PDF reading, including the page clean-up at utils.py:38-39. These are file-system I/O, so the text read from a file is a parameter.
- Saving and temp-file paths, and temp-file removal. Whether saving succeeded is the parameter `saved`.
- db.py, the MySQL store. `/start` upserts through it, so `start_command` only sets IDLE here.
- Its two failure replies are left out with it.
- main.py, the event loop and handler registration. Middleware placement and concurrency are not modelled.
- keyboards.py and the keyboard builders. They are UI markup only.
- The start and help texts, which have no data effect. The help button is `None`.
- Telegram calls: `send_poll`, `reply`, `answer`, `download` and `delete`. Each send's success is the `delivered` list in the dispatcher, or the `sendOk` function in the handlers.
- The processing message and its deletion.
- Callback-query toasts.
- Logging.
- `asyncio.sleep(0.5)`, which paces sends and has no data effect.
- The `expires_at` timestamps. They are stored but never read.
- The `timestamp` field of a stored extraction. It is never read.
- The upload clock uses whole seconds (`int`) instead of floats.
- The wait shown to the user is `MIN_INTERVAL - diff` without float truncation.

### Extractor and text handling
- `PyText.PyInt`: Python's `int()` also accepts non-ASCII decimal digits, such as Arabic-Indic or full-width digits. The model accepts only ASCII `0-9`.
- `Admin.AllowUserGuard`: because of `PyInt`, an id written in non-ASCII digits gets "Invalid user_id." here, where the source parses it at handlers_admin.py:19 and goes on to promote a known user.
- `Admin.RemoveUserCommand`: because of `PyInt`, an id written in non-ASCII digits gives `Raised` here, where the source parses it at handlers_admin.py:41 and removes that id.
- Non-ASCII case folding in the ignore-case answer search, such as `ſ` or the Kelvin sign, and Unicode digits in `\d`. Only ASCII letters and digits are modelled.
- `repr` of non-ASCII non-printable characters in the skip records shown to the user. These are characters Python escapes as `\x..`, `\u....` or `\U........`. The model covers the quote choice and the ASCII escapes, and keeps every other character as it is.
- `Codec.Letter`: a Dafny `char` cannot be a surrogate. A poll with more than 0xD800 − 97 options is therefore treated as a formatting failure, where Python would still build surrogate letters.
- The `except Exception` of the block loop (utils.py:159-161). Nothing in the block code raises on a `str`.

### Handlers and stores
- `finish_extraction_callback`'s own `except` is not modelled. The formatter catches everything itself, so no quiz is ever skipped there.
- `handle_forwarded_quiz`'s own `except` is not modelled either, for the same reason: nothing in it raises on the modelled inputs.
- `show_questions_callback`'s `except` is modelled, as the `None` of `ShownTexts`.
- states.py is not part of this model. handlers_admin.py writes `user_states` through it, so the admin Back button writes a `StateTable` of its own.
- JSON records that lack `id`, and other malformed records, make filedb.py raise. Only records with all four fields are modelled.
- `filedb.upsert_user` is modelled although no handler calls it. `/start` calls the MySQL store instead.

### Round trip
- `RoundTrip.RoundTrip`: the round trip is proved under these conditions:
  - the stem and every option text are non-empty, trimmed, single-line and free of the word "answer" in any case;
  - there are 2 to 26 options. Fewer than two is rejected by the extractor. More than 26 runs past `z`.
  - the index is non-negative.
- These conditions are sufficient, not necessary. Some quizzes outside them still come back: a stem containing `answer is` is passed over by the answer search, which needs a colon after the word.
- `ExtractWithoutAnswer` is about a canonical block with its answer line removed. The formatter never writes such a block, so it is not a round-trip failure: it pins down the skip reason for that input.

## Findings

| source | as written | input that shows it | evidently intended | confidence | as-written member | corrected member |
|---|---|---|---|---|---|---|
| handlers.py:225 | `send_telegram_quizzes(message.bot, questions, message.chat.id)` passes three arguments to a function of four (utils.py:165). The `TypeError` is caught at handlers.py:252, the user gets "Error processing the file", no poll is sent and the state never becomes EXTRACTING_QUIZZES. | A user waiting for a file sends `quiz.txt` holding `1. What is 2+2?` / `a) 3` / `b) 4` / `Answer: b` (`Handlers.SampleFileExtracted`). | Pass the per-chat quiz counter as the fourth argument. The questions are then sent, numbered from the counter, and the user moves to EXTRACTING_QUIZZES. | high; not executed | Handlers.Session.HandleFileAsWritten | Handlers.Session.HandleFile |
