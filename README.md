# Exam session engine of a psychometric testing bot

A Dafny model of the core of a Telegram bot that runs multiple-choice
personality tests. The model covers three parts:

- **The exam engine** (`ExamEngine`). It works out which question comes next from the test catalog and from the order a `nav` callback carries, or the order the catalog holds for the question an `answer` callback names. No session is stored. It upserts answers and groups a user's answer history by test slug, producing the payload for the analysis service.
- **The callback handler** (`CallbackHandler`). It decodes inline-keyboard callback data such as `answer:t:q:o` into an action and drives the engine. It records what it sends to the chat as an event log.
- **The access middleware** (`AuthMiddleware`). It makes the new/blocked/active decision and the admin check.

Files and modules:

| file | module | contents |
|---|---|---|
| `results.dfy` | `Results` | `Option` (PHP null) and `Result` (a return or an exception) |
| `php.dfy` | `Php` | `explode`/`implode` on one character, the `(int)` cast of a string, decimal rendering |
| `repositories.dfy` | `Repositories` | the catalog (the questions table in stored row order), the user directory, the answer table and their lookups and upsert |
| `exam_engine.dfy` | `Exam` | `start`, `getQuestionByOrder`, `getNext`, the class `ExamEngine` with `saveAnswer` and `aggregateResultsForAI` |
| `callback_handler.dfy` | `Callback` | callback parsing, the dispatch specification `Respond`, the class `CallbackHandler` |
| `auth_middleware.dfy` | `Auth` | the access decisions and the class `AuthMiddleware` |

The pure read projections are functions. State that the code changes is held in classes:

- `ExamEngine.answers` is the answer table.
- `CallbackHandler.log` records the events sent to the chat.
- `AuthMiddleware.outbox` records the messages sent.

Each method is proved against a specification function (`Upsert`, `Respond`, `Authorize`, `AdminCheck`). The properties are proved about those functions.

Behaviour of the code worth knowing (the model follows the code in each case):

- `saveAnswer` does not check that the user is registered. An unknown telegram id is written under user id 0, because `(int)null` is 0 (`UserKey`).
- `aggregateResultsForAI` also skips the registration check. It reads the history of user id 0 for an unknown telegram id.
- Starting a test that has no questions raises "question not found" for order 1. There is no separate "test empty" fault.
- The aggregate keeps the store's row order. It does not sort by question order.
- `getNext` ignores the telegram id. It never checks that the current question belongs to the requested test. `Exam.NextQuestion` states what happens then: the current question's order in its own test is used against the requested test.
- `!$callbackData` is also true for the string `"0"`, so that callback data is ignored like null and `""`.
- A missing callback field is read as `(int)null = 0`. PHP only warns about it.
- The comment on `start` speaks of resuming a test in progress, but `start` always returns the question at order 1.
- The comment on the parsing step gives the layout `answer:question_id:option_id`, but the `answer` arm reads the test, question and option ids from fields 1, 2 and 3, that is `answer:t:q:o`. The model follows the arm (`Callback.Decode`).

## Model

| member | source | states |
|---|---|---|
| `Php.Explode` | Student-Projects/group19/src/Handlers/CallbackHandler.php:38 | at least one piece, and no piece contains the delimiter |
| `Php.IntCast` | Student-Projects/group19/src/Handlers/CallbackHandler.php:42-44 | a blank string casts to 0; a string of decimal digits casts to the number it denotes |
| `Php.ImplodeExplode` | Student-Projects/group19/src/Handlers/CallbackHandler.php:38 | the pieces `explode(':', …)` yields join back to the callback data |
| `Php.ExplodeImplode` | Student-Projects/group19/src/Handlers/CallbackHandler.php:38 | splitting a join of ':'-free fields gives exactly those fields |
| `Php.ExplodeHead` | Student-Projects/group19/src/Handlers/CallbackHandler.php:38-39 | the first piece, the action, is the text before the first ':' |
| `Php.IntCastIntToString` | Student-Projects/group19/src/Handlers/CallbackHandler.php:42-44 | the `(int)` cast of an integer's decimal form is that integer |
| `Callback.Ignored` | Student-Projects/group19/src/Handlers/CallbackHandler.php:33 | only null and strings of at most one character are falsy, and `"0"` is one of them |
| `Callback.Param` | Student-Projects/group19/src/Handlers/CallbackHandler.php:42-44 | a missing field reads as 0; a field of decimal digits reads as its value |
| `Callback.Decode` | Student-Projects/group19/src/Handlers/CallbackHandler.php:39-47 | each arm is chosen exactly when the first field names it; `answer` reads test, question and option from fields 1, 2 and 3, `nav` test and order from fields 1 and 2, `start_test` the test from field 1 |
| `Callback.Parse` | Student-Projects/group19/src/Handlers/CallbackHandler.php:38-39 | data without a ':' is decoded as a single field, so its arguments all read as 0 |
| `Callback.ParseSelectsAction` | Student-Projects/group19/src/Handlers/CallbackHandler.php:38-47 | the action chosen is exactly the one named before the first ':'; any other text is unrecognised |
| `Callback.ParseRender` | Student-Projects/group19/src/Handlers/CallbackHandler.php:38-44 | decoding `start_test:t`, `nav:t:k`, `answer:t:q:o`, `confirm_ai` gives back the command with its integer fields, and such data is never ignored |
| `Callback.StartStep` | Student-Projects/group19/src/Handlers/CallbackHandler.php:53-57 | writes nothing; sends exactly the view `start` returns, or raises its fault with nothing sent |
| `Callback.NavigateStep` | Student-Projects/group19/src/Handlers/CallbackHandler.php:74-78 | writes nothing; raises "question not found" for order k, with nothing sent, exactly when the test has no question at k; otherwise one edit showing exactly the view `getQuestionByOrder(t, k)` returns |
| `Callback.AnswerStep` | Student-Projects/group19/src/Handlers/CallbackHandler.php:59-72 | the table is the upsert of the answer whatever follows; `getNext`'s fault escapes with nothing sent; otherwise one event, the completion menu exactly when `getNext` reports completion |
| `Callback.Dispatch` | Student-Projects/group19/src/Handlers/CallbackHandler.php:41-47 | every branch raises before sending anything, none sends the plain acknowledgement, only `answer` writes, and an unknown action gets only the "invalid command" answer |
| `Callback.Respond` | Student-Projects/group19/src/Handlers/CallbackHandler.php:27-51 | null, empty or "0" data: no write, no event, no fault; without a fault the callback is acknowledged once, as the last event; an engine fault skips it and nothing at all is sent |
| `Callback.OnlyAnswersWrite` | Student-Projects/group19/src/Handlers/CallbackHandler.php:41-47 | the answer table changes only for the `answer` action |
| `Callback.AnswerSavedThenNext` | Student-Projects/group19/src/Handlers/CallbackHandler.php:59-72 | `answer:t:q:o` upserts the answer even when what follows fails, then looks up the question after the same q: a next question edits the shown one, none shows the completion menu |
| `Callback.AnswerAdvancesOrCompletes` | Student-Projects/group19/src/Handlers/CallbackHandler.php:59-72 | in a well-formed catalog, answering a question of the test with order k stores the answer and shows the test's question with order k + 1, or the completion menu when k is the last order, then acknowledges |
| `Callback.NavigateShowsOrder` | Student-Projects/group19/src/Handlers/CallbackHandler.php:74-78 | in a well-formed catalog `nav:t:k` writes nothing and shows the test's question with order k, which exists exactly for 1 <= k <= N; otherwise "question not found" and no acknowledgement |
| `Callback.StartNeedsRegistration` | Student-Projects/group19/src/Handlers/CallbackHandler.php:53-57 | `start_test` for an unregistered user raises before anything is sent or written |
| `Callback.UnrecognisedAckedTwice` | Student-Projects/group19/src/Handlers/CallbackHandler.php:46-50 | an unknown action is answered with the "invalid command" text and then acknowledged again |
| `Callback.CallbackHandler.Handle` | Student-Projects/group19/src/Handlers/CallbackHandler.php:27-51 | the new answer table, the events appended and the escaping fault are those of `Respond` |
| `Callback.CallbackHandler.Run` | Student-Projects/group19/src/Handlers/CallbackHandler.php:41-47 | running the selected branch has the effect `Dispatch` gives it |
| `Callback.CallbackHandler.InitiateTest` | Student-Projects/group19/src/Handlers/CallbackHandler.php:53-57 | sends the first question, or raises the fault of `start` |
| `Callback.CallbackHandler.ProcessAnswer` | Student-Projects/group19/src/Handlers/CallbackHandler.php:59-72 | saves, then edits in the next question or shows the completion menu |
| `Callback.CallbackHandler.NavigateTest` | Student-Projects/group19/src/Handlers/CallbackHandler.php:74-78 | edits in the question at the requested order, or raises |
| `Callback.CallbackHandler.TriggerAiAnalysis` | Student-Projects/group19/src/Handlers/CallbackHandler.php:88-92 | sends the "analysis started" notice |
| `Repositories.FindByTelegramId` | Student-Projects/group19/src/Services/ExamEngine.php:29 | the user record exactly when the telegram id is registered |
| `Repositories.TotalQuestions` | Student-Projects/group19/src/Services/ExamEngine.php:57 | at most the number of stored questions, and 0 exactly when no stored question belongs to the test |
| `Repositories.FindByOrder` | Student-Projects/group19/src/Services/ExamEngine.php:43 | nothing exactly when no question has that order; otherwise the first question with it |
| `Repositories.GetQuestion` | Student-Projects/group19/src/Services/ExamEngine.php:43 | nothing exactly when no stored question of the test has that order; otherwise a stored question of that test with that order |
| `Repositories.GetQuestionOrder` | Student-Projects/group19/src/Services/ExamEngine.php:66 | the order of a stored question with that id, looked up by id alone; nothing when the id is not stored |
| `Repositories.FindByOrderDense` | Student-Projects/group19/src/Services/ExamEngine.php:43-46 | when a test's orders are 1..N, each once, in any row order, order k is found exactly for 1 <= k <= N, and it is the question with that order |
| `Repositories.GetQuestionOrderOf` | Student-Projects/group19/src/Services/ExamEngine.php:66-67 | in a well-formed catalog, looking a stored question's order up by its id gives its own order |
| `Repositories.Upsert` | Student-Projects/group19/src/Services/ExamEngine.php:83-89 | exactly one entry for (user, question), holding the new answer; the other entries are unchanged; at most one key is added |
| `Repositories.UpsertLastWriteWins` | Student-Projects/group19/src/Services/ExamEngine.php:83-89 | a second submission for the same question overwrites the first |
| `Repositories.UpsertIdempotent` | Student-Projects/group19/src/Services/ExamEngine.php:83-89 | repeating a submission changes nothing further |
| `Exam.GetQuestionByOrder` | Student-Projects/group19/src/Services/ExamEngine.php:41-58 | "question not found" exactly when the test has no question at that order; otherwise a view of a stored question of that test, with the requested order, the test id and the test's question count |
| `Exam.Start` | Student-Projects/group19/src/Services/ExamEngine.php:27-35 | an unregistered user gets "not registered"; a registered user gets exactly the view of order 1 |
| `Exam.GetNext` | Student-Projects/group19/src/Services/ExamEngine.php:64-73 | completion exactly when the current order + 1 exceeds the test's total; otherwise a view exactly when the test has a question at order + 1, and then exactly the view `getQuestionByOrder(t, order + 1)` returns, else "question not found" for order + 1 |
| `Exam.QuestionByOrderDense` | Student-Projects/group19/src/Services/ExamEngine.php:43-58 | in a well-formed catalog, a view exactly for orders 1..N, showing the test's question with order k; orders 0 and N + 1 fail with "question not found" |
| `Exam.StartDense` | Student-Projects/group19/src/Services/ExamEngine.php:29-35 | start succeeds exactly for a registered user and a test with questions, showing the question with order 1 |
| `Exam.NextAfterOrder` | Student-Projects/group19/src/Services/ExamEngine.php:66-71 | from a known order k in a well-formed test, `getNext` answers, with completion exactly when k + 1 exceeds the total |
| `Exam.NextViewAfterOrder` | Student-Projects/group19/src/Services/ExamEngine.php:66-73 | from a known order k, the view returned is that of the requested test's question with order k + 1 |
| `Exam.NextQuestion` | Student-Projects/group19/src/Services/ExamEngine.php:66-73 | from a question with order k, the next is the requested test's question with order k + 1, or completion when k + 1 exceeds its total; the last question leads to completion |
| `Exam.UserKey` | Student-Projects/group19/src/Services/ExamEngine.php:81-85 | the stored user id of a registered telegram id, and 0 for an unknown one |
| `Exam.ExamEngine.SaveAnswer` | Student-Projects/group19/src/Services/ExamEngine.php:79-89 | the new answer table is the upsert of the old one under the user's key, with no registration check |
| `Exam.ExamEngine.AggregateResultsForAI` | Student-Projects/group19/src/Services/ExamEngine.php:95-122 | `user_context.id` is the telegram id; the keys of `tests_data` are exactly the slugs occurring in the history; each key holds the entries of that slug's rows, in row order |
| `Exam.EntriesFor` | Student-Projects/group19/src/Services/ExamEngine.php:108-120 | at most one entry per history row, and every entry is that of a row with the slug |
| `Exam.EntriesForLength` | Student-Projects/group19/src/Services/ExamEngine.php:108-120 | per slug, as many entries as history rows with that slug |
| `Exam.EntryAtRank` | Student-Projects/group19/src/Services/ExamEngine.php:108-120 | each row contributes its own entry under its own slug, at its rank among that slug's rows |
| `Exam.SlugKeyIffRows` | Student-Projects/group19/src/Services/ExamEngine.php:108-112 | a slug is a key exactly when at least one row has it; a test without answers has no key |
| `Auth.Authorize` | Student-Projects/group19/src/Middleware/AuthMiddleware.php:26-49 | allowed exactly when the user is unknown or not blocked; a refusal sends one "blocked" message to that user; passing sends nothing |
| `Auth.AdminCheck` | Student-Projects/group19/src/Middleware/AuthMiddleware.php:56-66 | granted exactly for a known user with the admin flag, silently; otherwise one denial message |
| `Auth.RefusedIffNotified` | Student-Projects/group19/src/Middleware/AuthMiddleware.php:39-65 | both checks send a message exactly when they refuse, and only to the requesting user |
| `Auth.AdminCheckIndependentOfBlock` | Student-Projects/group19/src/Middleware/AuthMiddleware.php:56-62 | a blocked admin passes `isAdmin` but not `handle`; an unknown user passes `handle` but not `isAdmin` |
| `Auth.AuthMiddleware.Handle` | Student-Projects/group19/src/Middleware/AuthMiddleware.php:26-49 | returns `Authorize`'s decision and appends exactly its messages |
| `Auth.AuthMiddleware.IsAdmin` | Student-Projects/group19/src/Middleware/AuthMiddleware.php:56-66 | returns `AdminCheck`'s decision and appends exactly its messages |

## Left out

- The repository queries (`TestRepository`, `AnswerRepository`, `UserRepository`) are not modelled. Their stores are modelled as values: the catalog is the questions table in stored row order (the well-formedness invariant does not depend on that order), the directory is a map from telegram id to user, and the answer table is a map keyed by (user id, question id). `getQuestion` is taken to return the first stored question of the test with that order.
- `getQuestionOrder` for a question id the catalog does not hold: the repository query is not modelled, and the model takes it to raise `UnknownQuestion`.
- `getQuestionOptions`: the options are stored with their question, so the lookup by question id is not modelled separately.
- `getUserFullHistory`: its query is not modelled. `AggregateResultsForAI` takes it as a function from user id to history rows. So the model does not connect the answer table to the aggregated rows, and it does not prove that an entry shows the latest submitted option.
- The `json_decode` of `score_weight` is not modelled. The weight stays the stored text.
- The `date()` timestamp is a parameter.
- Exam.ExamEngine.AggregateResultsForAI: a PHP array keeps its keys in first-insertion order, but `tests_data` is modelled as a map, so the order in which slugs first appear is not recorded.
- Php.IntCast: only leading white space, a sign and decimal digits are read. Exponent forms such as `"1e3"` and PHP's 64-bit limits are not modelled.
- 64-bit integers: Dafny integers are unbounded. PHP integers do not wrap: at `PHP_INT_MAX`, `$currentOrder + 1` becomes a float, which still exceeds the total, so `getNext` reports completion, as the model does. Integer fields of the callback data beyond the 64-bit range, which PHP saturates when casting, are not modelled (see `Php.IntCast`).
- Chat output is recorded as events, not rendered. This covers the question text and keyboard built by `updateQuestionUI` and the message texts.
- `sendQuestion` and `showCompletionMenu` are called by the handler but not defined in it (the class has no parent and no `__call`), so as written those calls would raise an `Error`, and the acknowledgement would be skipped on the start path and the completion path. The model assumes each sends one message and returns normally.
- `confirm_ai` only sends its notice: the analysis call is not made in the handler.
- Not modelled at all:
  - `AIService.php`: the network call, JSON and a float temperature.
  - `Database.php`: the database connection.
  - `Container.php`: reflection-based wiring.
  - `webhook.php`: HTTP transport and the secret check.
  - The configuration files.
  - `CommandHandler.php`: it only builds texts and keyboards.
- Exceptions are modelled as a returned fault. The warnings PHP logs for missing array keys are not modelled.
