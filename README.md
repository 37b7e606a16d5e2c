# Expense batch subsystem — a Dafny model

This project models the expense batch subsystem of an expense-tracking web service written in Go (the `featureOne` service), together with the request handlers and helpers around it. It covers:

- the two background batch executors, `ProcessBatchUpdate` and `ProcessBatchUpload`. They update or create expenses one item at a time and write progress snapshots to a batch-job store.
- the synchronous batch update and the request gates of the asynchronous endpoints.
- the CSV upload's header and row checks, and the batch-job status lookup.
- the create-expense validator, and the guard chains of the expense, category and authentication handlers.
- the Cloudinary public-ID extraction.
- the shared helpers `AbsDiff`, `Ptr` and `GetUserId`, and the response-mapping tail of `ExecuteDBFunction`.

The database sits behind two kinds of stand-in.

- **Imperative code.** The executors, the batch endpoints and the status endpoint go through the `Gateway.Repository` class. Each of its methods appends the call it makes to a ghost log, `calls`, and returns an answer the model does not constrain.
  - Every imperative method is proved against a specification function of the store's answers. Its response equals an `…Answer` function, and its new log equals the old log plus a `…Calls` function.
  - The job store is the sequence of snapshots in `UpdateBatchJobCall` entries (`Gateway.Snapshots`).
  - The executors' log is the `BatchRun.RunLog` of their per-item verdicts. The properties of runs are lemmas about `RunLog` and `TallyOf`.
- **Handlers that only decide.** These take the store's answers as parameters: a bool for an existence check, a `Result` for a read or a write, and a function for a query. The same goes for the outputs of the crypto and e-mail helpers. "Check A happens before call B" is stated as independence: when A rejects, the answer is the same for any two answers B could give.

`Numbers.Atoi` models `strconv.Atoi` over int64, with `Itoa` as its inverse. `Text` models the parts of `strings` the code uses: `TrimSpace`, `ToLower` (ASCII), `Contains`, `Split`, `Join` and `TrimSuffix`, plus `filepath.Ext`.

## Model

| member | source | states |
|---|---|---|
| Text.TrimSpaceBlankIff | pkg/services/featureOne/helper/expenses.go:11 | a string trims to "" exactly when every character is white space |
| Text.ContainsInfix | pkg/services/featureOne/controller/expenseCategory.go:35 | every string contains any string written inside it |
| Text.ContainsIff | pkg/services/featureOne/controller/expenseCategory.go:35 | `Contains` holds exactly when the substring occurs at some index, so a string that does not contain it has it nowhere |
| Text.ContainsSplit | pkg/services/featureOne/controller/expenseCategory.go:35 | a string that contains the substring is some text, the substring, and some more text |
| Text.JoinSplit | pkg/config/cloudinary.go:83-96 | joining the pieces of a split with the same separator gives the string back |
| Text.SplitJoin | pkg/config/cloudinary.go:83-96 | splitting separator-free pieces undoes joining them |
| Text.SplitPiecesFree | pkg/config/cloudinary.go:83 | no piece of a split contains the separator |
| Text.Ext | pkg/config/cloudinary.go:97 | the extension is a suffix of the path that starts with a dot and contains no slash |
| Text.ExtOfDotted | pkg/config/cloudinary.go:97 | a dot followed by a dot-free, slash-free tail is exactly the extension |
| Text.ExtOfPlain | pkg/config/cloudinary.go:97 | a last path element without a dot has an empty extension |
| Text.TrimSuffix | pkg/config/cloudinary.go:97 | the result is a prefix of the input; putting the suffix back gives the input when it ended with the suffix, and otherwise the input is returned whole |
| Text.TrimSuffixAppend | pkg/config/cloudinary.go:97 | trimming a suffix undoes appending it |
| Numbers.Atoi | pkg/services/featureOne/controller/expenses.go:390-400 | succeeds exactly for an optional sign followed by one or more decimal digits whose signed value fits an int64, and then gives that value (so "+007" gives 7); "", a lone sign and anything else fail |
| Numbers.AtoiItoa | pkg/global/utils/utils.go:145 | Atoi reads back every int64 that Itoa writes |
| Numbers.WrapInt64 | pkg/global/utils/utils.go:20-25 | the wrapped value is in the int64 range, differs from the input by a multiple of 2^64 (two's-complement wrap-around), and so equals the input when that is already in range |
| Numbers.TruncToInt | pkg/global/utils/utils.go:113 | float-to-int conversion truncates toward zero |
| ExpenseValidation.ValidateCreateExpense | pkg/services/featureOne/helper/expenses.go:10-23 | the first failing check of title, amount > 0, date present and date layout names the error; None iff all four pass |
| ExpenseValidation.DaysIn | pkg/services/featureOne/helper/expenses.go:20 | a month has 28 to 31 days, and February has 29 exactly in leap years |
| ExpenseValidation.LayoutDateUnpadded | pkg/services/featureOne/helper/expenses.go:20-22 | a date the layout accepts starts and ends with a digit |
| ExpenseValidation.PaddedDateRejected | pkg/services/featureOne/helper/expenses.go:17-22 | a valid date with white space around it passes the presence check and is still rejected as a bad format |
| ExpenseValidation.LeapDay | pkg/services/featureOne/helper/expenses.go:20 | 29 February is accepted exactly in leap years |
| BatchRun.TallyCounts | pkg/services/featureOne/script/expensesBatch.go:146-172 | successCount + failCount is the number of items handled, and \|results\| == failCount |
| BatchRun.AllFailedIff | pkg/services/featureOne/script/expensesBatch.go:179-182 | failCount == len(items) iff every item failed |
| BatchRun.NoneFailedIff | pkg/services/featureOne/controller/expensesBatch.go:102-116 | failCount == 0 iff every item succeeded |
| BatchRun.TallyPrefix | pkg/services/featureOne/script/expensesBatch.go:133-176 | counters never decrease, and results are only appended to |
| BatchRun.TallyResults | pkg/services/featureOne/script/expensesBatch.go:146-172 | the results are exactly the failure records, with strictly increasing indices, each naming its item |
| BatchRun.SelectedFacts | pkg/services/featureOne/script/expensesBatch.go:146-175 | the positions that write progress are listed in increasing order, each exactly once |
| BatchRun.ProgressLogShape | pkg/services/featureOne/script/expensesBatch.go:175 | the k-th progress snapshot is written after the k-th writing item and carries the counters at that point |
| BatchRun.RunLogAtCheckpoints | pkg/services/featureOne/script/expensesBatch.go:127-184 | each snapshot carries the state after its checkpoint; the checkpoints never decrease and stay within the item count |
| BatchRun.RunLogCounters | pkg/services/featureOne/script/expensesBatch.go:127-184 | every snapshot has processed == successful + failed, within the item count, and as many results as failures |
| BatchRun.RunLogMonotone | pkg/services/featureOne/script/expensesBatch.go:127-184 | no counter of a later snapshot is below that of an earlier one, and each results list extends the previous one |
| BatchRun.RunLogStatus | pkg/services/featureOne/script/expensesBatch.go:127-184 | the first snapshot is ("processing", 0, 0, 0, nil) and every non-final one is "processing"; the final one has processed == len(items), is "failed" iff every item failed and "completed" iff some item succeeded |
| BatchExecutor.ProcessUpdateItem | pkg/services/featureOne/script/expensesBatch.go:146-175 | one loop turn: a missing expense is recorded as "Expense not found" and skips the progress write; otherwise the update is sent, its outcome is counted and progress is written |
| BatchExecutor.ProcessBatchUpdate | pkg/services/featureOne/script/expensesBatch.go:123-187 | the calls made are exactly UpdateRunCalls of the store's answers: start snapshot, per-item calls, final snapshot |
| BatchExecutor.ChecksOfRowChecks | pkg/services/featureOne/script/expensesBatch.go:214 | the validation results recorded by the upload are ValidateCreateExpense of each row |
| BatchExecutor.ProcessUploadRow | pkg/services/featureOne/script/expensesBatch.go:213-243 | one loop turn: an invalid row gets "Validation failed: " + reason and a progress write, with no create; a valid one is created, counted and followed by a progress write |
| BatchExecutor.ProcessBatchUpload | pkg/services/featureOne/script/expensesBatch.go:190-255 | the calls made are exactly UploadRunCalls of the rows' validation results and the store's answers |
| BatchProperties.UpdateRunLog | pkg/services/featureOne/script/expensesBatch.go:127-184 | the snapshots of a batch update are the RunLog of its verdicts, with no progress write for a missing expense |
| BatchProperties.UpdateFinalStatus | pkg/services/featureOne/script/expensesBatch.go:178-184 | the last snapshot covers every item and is "completed" iff some item was updated, "failed" otherwise |
| BatchProperties.UpdateRunExistsCalls | pkg/services/featureOne/script/expensesBatch.go:133-146 | every item's expense is checked once, in input order |
| BatchProperties.UpdateRunUpdateCalls | pkg/services/featureOne/script/expensesBatch.go:137-158 | exactly the found items are updated, in order, with a request built from the item |
| BatchProperties.UploadRunLog | pkg/services/featureOne/script/expensesBatch.go:194-252 | the snapshots of an upload are the RunLog of its verdicts, with a progress write after every row |
| BatchProperties.UploadProgress | pkg/services/featureOne/script/expensesBatch.go:222-243 | n rows give n + 2 snapshots: the start, one after every row (invalid rows included) with the counters after it, and the final one |
| BatchProperties.UploadFinalStatus | pkg/services/featureOne/script/expensesBatch.go:246-252 | the last snapshot covers every row and is "completed" iff some row was valid and created, "failed" otherwise |
| BatchProperties.UploadRunCreates | pkg/services/featureOne/script/expensesBatch.go:205-227 | exactly the rows that pass validation are sent to CreateExpense, in order; the others never reach the store |
| BatchController.UpdateGate | pkg/services/featureOne/controller/expensesBatch.go:27-47 | a signed-in user with a bound body of 1 to 100 items passes; user 0 gets 401 before anything else |
| BatchController.SyncUpdateItem | pkg/services/featureOne/controller/expensesBatch.go:56-96 | per item: ID 0 fails "Expense ID is required" without a store call; then "Expense not found"; then "Failed to update expense" |
| BatchController.BatchUpdateExpenses | pkg/services/featureOne/controller/expensesBatch.go:25-117 | a rejected request makes no call; otherwise the answer is SyncAnswer and the calls are SyncLoopCalls of the store's answers |
| BatchController.SyncAnswerFacts | pkg/services/featureOne/controller/expensesBatch.go:97-116 | Total == len(updates), Successful + Failed == Total, \|Results\| == Failed; 207 iff Failed > 0, else 200 |
| BatchController.SyncResults | pkg/services/featureOne/controller/expensesBatch.go:56-100 | each result names a failed item, indices increase, every failed item has one, and its message follows the order of the checks |
| BatchController.SyncExistsCalls | pkg/services/featureOne/controller/expensesBatch.go:56-73 | existence is checked exactly for the items with a non-zero ID, in order |
| BatchController.SyncUpdateCalls | pkg/services/featureOne/controller/expensesBatch.go:75-85 | an update is sent exactly for the items with an ID that were found, in order |
| BatchController.JobAnswer | pkg/services/featureOne/controller/expensesBatch.go:144-161 | 202 with the job ID, the item count and "pending" iff the job was created; otherwise 500 "Failed to create batch job" |
| BatchController.BatchUpdateExpensesAsync | pkg/services/featureOne/controller/expensesBatch.go:120-162 | after the gates, one "expense_batch_update" job sized len(updates) is created, and the executor's run follows only when it exists |
| BatchController.HeaderCheckFacts | pkg/services/featureOne/controller/expensesBatch.go:204-220 | the header passes iff it has 5 columns that trim and lower-case to title, amount, categoryid, date, notes; otherwise the count error, or the first wrong column numbered from 1 |
| BatchController.CheckHeaders | pkg/services/featureOne/controller/expensesBatch.go:204-220 | the header loop stops at the first mismatch and reports what HeaderCheck reports |
| BatchController.ParseRowFacts | pkg/services/featureOne/controller/expensesBatch.go:223-263 | a row parses iff it has 5 columns, a parsable amount and a blank or int64 category; title and date are trimmed; blank category and notes become None |
| BatchController.ParsedRowsFacts | pkg/services/featureOne/controller/expensesBatch.go:223-263 | output row k comes from data row k; otherwise the error is that of the first bad row, cited as row i + 2 |
| BatchController.ParseRows | pkg/services/featureOne/controller/expensesBatch.go:223-263 | the row loop returns the first row error, or all rows parsed in order |
| BatchController.UploadGateRecords | pkg/services/featureOne/controller/expensesBatch.go:198-268 | with two or more records, the upload passes iff the header, every row and the 1000-row cap pass, and then yields the parsed data rows |
| BatchController.BatchUploadExpensesFromCSV | pkg/services/featureOne/controller/expensesBatch.go:169-289 | a rejected upload makes no call; an accepted one creates one CSV job sized to its rows and then runs the executor on them |
| BatchController.AsyncUpdateRun | pkg/services/featureOne/controller/expensesBatch.go:144-151 | the job created for an async update is sized to its items, and the run's last snapshot accounts for all of them and is not "processing" |
| BatchController.AsyncUploadRun | pkg/services/featureOne/controller/expensesBatch.go:271-278 | the same for a CSV job and its rows |
| BatchController.StatusCalls | pkg/services/featureOne/controller/expensesBatch.go:303-319 | no store call for a rejected request; the ownership check first; the read only for a job that exists |
| BatchController.StatusAnswer | pkg/services/featureOne/controller/expensesBatch.go:296-324 | 401 iff no user; 400 iff the ID is not an integer; 404 iff the job is missing; 500 iff the read fails; 200 with the job otherwise |
| BatchController.GetBatchJobStatus | pkg/services/featureOne/controller/expensesBatch.go:296-324 | the answer is StatusAnswer and the calls are StatusCalls of the store's answers |
| BatchController.StatusWithoutIDParam | routers/appRoute.go:77 | with no `id` route parameter, every signed-in request gets 400 "Invalid job ID" and no store call |
| ExpenseHandlers.QueryString | pkg/services/featureOne/controller/expenses.go:381-387 | None iff the parameter is empty or absent |
| ExpenseHandlers.QueryInt | pkg/services/featureOne/controller/expenses.go:390-400 | the parameter read with Atoi: None for an empty or unparsable value |
| ExpenseHandlers.QueryFloat | pkg/services/featureOne/controller/expenses.go:403-413 | None for an empty value, else the float parser's answer |
| ExpenseHandlers.QueryIntDefault | pkg/services/featureOne/controller/expenses.go:416-426 | the default for an empty or unparsable value, else the integer |
| ExpenseHandlers.QueryIntDefaultItoa | pkg/services/featureOne/controller/expenses.go:416-426 | a parameter holding the decimal form of an int64 reads back as that number |
| ExpenseHandlers.Filters | pkg/services/featureOne/controller/expenses.go:172-181 | limit 50 and offset 0 unless given as integers |
| ExpenseHandlers.GetExpenses | pkg/services/featureOne/controller/expenses.go:164-198 | 401 first; 400 iff the limit is outside [1,100]; 200 with the list iff the query succeeds |
| ExpenseHandlers.GetExpensesChecksFirst | pkg/services/featureOne/controller/expenses.go:165-187 | the user and limit checks come before the query |
| ExpenseHandlers.UpdateCheck | pkg/services/featureOne/controller/expenses.go:252-270 | rejects a body with no field and a present amount <= 0; a present date is checked only when non-blank |
| ExpenseHandlers.UpdateExpenseAnswer | pkg/services/featureOne/controller/expenses.go:232-287 | 401, then 400 for a bad ID, body or field, then 404 iff not found, then 500 or 200 with the updated expense |
| ExpenseHandlers.UpdateChecksFirst | pkg/services/featureOne/controller/expenses.go:233-276 | every request check comes before the existence check |
| ExpenseHandlers.UpdateAfterExists | pkg/services/featureOne/controller/expenses.go:273-283 | the existence check comes before the update |
| ExpenseHandlers.DeleteGate | pkg/services/featureOne/controller/expenses.go:291-307 | passes iff signed in, the ID is an integer and the expense exists |
| ExpenseHandlers.DeleteExpense | pkg/services/featureOne/controller/expenses.go:290-330 | after the gates, 200 iff the store deleted the row; 500 for a store error or nothing deleted |
| ExpenseHandlers.DeleteChecksFirst | pkg/services/featureOne/controller/expenses.go:291-310 | the gates come before the delete |
| CategoryHandlers.CreateCategory | pkg/services/featureOne/controller/expenseCategory.go:19-54 | 400 for a bad body or a blank name; a store error containing "duplicate key" gives 400 "Category name already exists", any other 500; 201 with the category |
| CategoryHandlers.CreateCategoryChecksFirst | pkg/services/featureOne/controller/expenseCategory.go:20-33 | the body and name checks come before the insert |
| CategoryHandlers.DuplicateKeyIsTaken | pkg/services/featureOne/controller/expenseCategory.go:35-38 | "duplicate key" anywhere in the error text means the name is taken |
| CategoryHandlers.OtherStoreErrorFails | pkg/services/featureOne/controller/expenseCategory.go:35-41 | a store error with "duplicate key" at no position gives 500 "Failed to create category" |
| CategoryHandlers.CategoryFiltersOf | pkg/services/featureOne/controller/expenseCategory.go:59-62 | limit 50 and offset 0 unless given as integers |
| CategoryHandlers.GetCategories | pkg/services/featureOne/controller/expenseCategory.go:57-79 | 400 iff the limit is outside [1,100]; then 500 or 200 with the list |
| CategoryHandlers.GetCategoriesChecksFirst | pkg/services/featureOne/controller/expenseCategory.go:65-71 | the limit check comes before the query |
| CategoryHandlers.GetCategoriesDefaultLimit | pkg/services/featureOne/controller/expenseCategory.go:59-68 | without a limit parameter the default 50 passes the range check |
| AuthHandlers.RegisterCheck | pkg/services/featureOne/controller/auth.go:34-64 | the first failing check, in the order email blank, email format, email taken, password blank, password strength, name blank, names the error |
| AuthHandlers.Register | pkg/services/featureOne/controller/auth.go:26-83 | 201 iff every check passes, hashing the request's password succeeds and RegisterUser succeeds; RegisterUser gets the request with its password replaced by that hash, and its user is the data; a failed hash gives 500 "Failed to hash password" |
| AuthHandlers.RegisterEmailBeforeStore | pkg/services/featureOne/controller/auth.go:34-47 | the email presence and format checks come before the store lookup |
| AuthHandlers.RegisterStoresHash | pkg/services/featureOne/controller/auth.go:67-75 | the answer depends on the hasher only through its result for the request's password, and on RegisterUser only through its answer for the request carrying that hash in place of the password |
| AuthHandlers.Login | pkg/services/featureOne/controller/auth.go:86-153 | 401 "Invalid credentials" iff the email is unknown or the password does not match; 200 with the signed token and the user otherwise |
| AuthHandlers.LoginSameRejection | pkg/services/featureOne/controller/auth.go:104-120 | an unknown email and a wrong password give the same answer |
| AuthHandlers.PasswordChange | pkg/services/featureOne/controller/auth.go:183-229 | exactly one of the two passwords is refused; a new hash is set iff both are given and valid, the old one verifies and hashing the new password succeeds, and that hash is the hash of the new password |
| AuthHandlers.UpdateUser | pkg/services/featureOne/controller/auth.go:163-254 | 200 iff the checks and the update pass; UpdateUser gets the hash of the new password when one is set; the message says "(including password)" iff a new password was set |
| AuthHandlers.UpdateUserOnePassword | pkg/services/featureOne/controller/auth.go:184-190 | one password without the other gives 400 before any store call |
| AuthHandlers.UpdateUserWrongOldPassword | pkg/services/featureOne/controller/auth.go:216-220 | a wrong old password stops the request before hashing and updating |
| AuthHandlers.UpdateUserProfileOnly | pkg/services/featureOne/controller/auth.go:182-229 | without password fields, no user lookup and no hashing affect the answer |
| AuthHandlers.ForgotPassword | pkg/services/featureOne/controller/auth.go:261-320 | "If email exists, reset link sent" iff the email is unknown or the lookup fails; CreateResetToken gets the user's ID, the token's SHA-512 hash and an expiry one hour after `now`; 500 iff that store call fails, and the object `{"token": token}` is returned iff it succeeds |
| AuthHandlers.ForgotPasswordSameAnswer | pkg/services/featureOne/controller/auth.go:275-287 | an unknown email and a failed lookup give the same 200, whatever the clock, the token and the store |
| AuthHandlers.ForgotPasswordExpiry | pkg/services/featureOne/controller/auth.go:296-299 | the answer depends on CreateResetToken only through its answer for the user's ID, the token hash and the expiry `now` + 1 hour |
| AuthHandlers.VerifyResetToken | pkg/services/featureOne/controller/auth.go:323-345 | 200 iff a non-blank token's hash verifies |
| AuthHandlers.ResetCheck | pkg/services/featureOne/controller/auth.go:356-367 | token presence, new-password presence and strength, in that order |
| AuthHandlers.ResetPassword | pkg/services/featureOne/controller/auth.go:348-393 | 200 iff the checks pass, the token verifies, hashing the new password succeeds and the store resets the verified token's user to that hash; a failed hash gives 500 |
| AuthHandlers.ResetChecksFirst | pkg/services/featureOne/controller/auth.go:356-375 | the checks come before the token is verified |
| Cloudinary.UploadIndex | pkg/config/cloudinary.go:84-90 | the first segment equal to "upload", or -1 when there is none |
| Cloudinary.CloudinaryPublicIDFromURL | pkg/config/cloudinary.go:78-98 | the search loop stops at the first "upload", and the result is PublicID |
| Cloudinary.EmptyURLCheckRedundant | pkg/config/cloudinary.go:79-81 | the empty-URL check gives what the rest would give |
| Cloudinary.NoUploadNoID | pkg/config/cloudinary.go:91-93 | no "upload" segment gives "" |
| Cloudinary.ShortTailNoID | pkg/config/cloudinary.go:91-93 | fewer than two segments after the first "upload" give "" |
| Cloudinary.PublicIDOfSegments | pkg/config/cloudinary.go:83-97 | the segments after the first "upload" and the version, joined, without the extension |
| Cloudinary.PublicIDStripsExtension | pkg/config/cloudinary.go:95-97 | only the extension at the last dot of the last element is removed |
| Cloudinary.PublicIDWithoutExtension | pkg/config/cloudinary.go:95-97 | a last element without a dot leaves the path unchanged |
| Utils.AbsDiff | pkg/global/utils/utils.go:20-25 | the result is an int64 |
| Utils.AbsDiffIsDistance | pkg/global/utils/utils.go:20-25 | where a - b does not overflow: non-negative, symmetric, 0 iff a == b |
| Utils.AbsDiffWraps | pkg/global/utils/utils.go:20-25 | AbsDiff(MinInt64, 0) wraps around to MinInt64 |
| Utils.Ptr | pkg/global/utils/utils.go:99-105 | None iff the value is the zero value, else the value |
| Utils.PtrDeref | pkg/global/utils/utils.go:99-105 | reading through the pointer, with the zero value for nil, gives the value back |
| Utils.GetUserId | pkg/global/utils/utils.go:107-121 | 0 for a missing value or another type; int and int64 unchanged; float64 truncated toward zero |
| Utils.GetUserIdOfClaim | pkg/global/utils/utils.go:112-113 | a whole user ID of magnitude at most 2^53, which a float64 holds exactly, comes back unchanged after decoding from the token's claims |
| Utils.CodeOf | pkg/global/utils/utils.go:143-144 | a numeric code truncated toward zero, as `int(code)` does; 0 when the code is absent or not a number |
| Utils.MessageOf | pkg/global/utils/utils.go:145-149 | a non-empty `message` string is kept; an absent, non-string or empty one gives the table's message for the code string, "" when the table has no entry for it |
| Utils.DBAnswer | pkg/global/utils/utils.go:143-156 | the code string and the status come from the same code; data iff success is the boolean true |
| Utils.DBAnswerDefaultMessage | pkg/global/utils/utils.go:143-156 | an answer without a non-empty `message` string takes the table's message for its code, whatever the code entry holds; an int64 code string reads back as the status |
| Utils.DBAnswerWithoutCode | pkg/global/utils/utils.go:143-145 | an answer with no numeric code gets code "0" and status 0 |

## Left out

- Goroutines: the two `go` statements that start the executors, and the one that sends the reset e-mail. Each job is modelled as one sequential run that follows the 202 answer.
- The `time.Sleep` throttles in the executors.
- Logging.
- SQL and the gateway bodies. The repository calls are oracles, and the handlers' store answers are parameters.
- Amounts are Dafny `real`s, so float64 rounding, NaN and infinities are not modelled.
- `strconv.ParseFloat` is a parser passed in as a parameter.
- The float64-to-int conversion of an out-of-range value is not modelled.
- CSV tokenising by `encoding/csv`: the upload starts from records already split into fields, or from one of the outcomes no file, open error and malformed CSV.
- The reader keeps the default `FieldsPerRecord` of 0 (controller/expensesBatch.go:190-192), so `ReadAll` already rejects a record whose field count differs from the header's as "Invalid CSV format". The model's records may still be ragged, so its "Row %d has mismatched columns" path covers inputs the reader never produces; in the source that check cannot be reached.
- Multipart file handling is not modelled.
- Text.ToLower: it lower-cases ASCII letters only. `strings.ToLower` also maps a few non-ASCII letters to ASCII ones, such as U+0130 to `i`. So a CSV header that spells an `i` as U+0130 passes the source's header check and fails the model's.
- Gateway.Repository.UpdateBatchJob: it does not model the marshalling error, because marshalling a slice of result records cannot fail. The nil-versus-slice distinction is kept: `Snapshot.results` is None for the untyped nil of the first write.
- E-mail validity, password strength, bcrypt hashing and checking, SHA-512, JWT signing, random token generation and SMTP come from a library outside this project. They are parameters of the handlers.
- The clock: `time.Now()` in ForgotPassword is the parameter `now`, an instant in nanoseconds, and the expiry is `now` plus one hour.
- A float64 holds whole numbers exactly only up to 2^53 in magnitude. A user ID beyond that is rounded in the token's claims, which is why `Utils.GetUserIdOfClaim` is stated only up to that bound.
- The reset e-mail's HTML body and `sendPasswordResetEmail` are not modelled.
- `Logout` always answers 200 and decides nothing, so it is not modelled.
- The expense handlers not named among the guard chains here are not part of this model: CreateExpense, GetExpense, DeleteExpenseWithCloudinary and the upload endpoints.
- `DeleteExpense` reads `result.IsDeleted`, but the result struct declares the field `Deleted` (model/expenses.go:94). The model uses the declared field.
- Removing the image file after a delete only logs a failure, so it is left out.
- Cloudinary upload and destroy calls go to the network and are not modelled. Only the public-ID extraction is.
- `CodeMessageMap` is declared in pkg/global/utils/utils.go:181, but its keys and values are constants of the `respcode` library, which is outside this project. So the table is a parameter of `Utils.DBAnswer`.
- ExecuteDBFunction's marshalling, query and decoding failures are not modelled. The model starts from the decoded answer.
- Utils.AbsDiffIsDistance: it holds only where `a - b` and `b - a` fit an int64. `Utils.AbsDiffWraps` shows the case where they do not.
- The `/jobs/:jobId` route reaches `GetBatchJobStatus`, which reads the parameter `id`, so the handler sees an empty ID. `BatchController.StatusWithoutIDParam` states the consequence. The `/batch-async/:id` route works as intended.
