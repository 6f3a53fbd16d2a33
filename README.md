# SaveBuddy savings tracker — a Dafny model

This project models the statable core of a small savings and expense tracker.
The system has three parts:

- a React web client, which holds the challenge evaluator, the local challenge
  ledger, the stores, the token storage, the Excel export and the list page;
- the `com.savebuddy` Spring backend, which handles the OAuth2 users and the
  saving and expense records of a user addressed by email;
- the `stop.save` Spring backend, which handles the users, the saving records,
  the challenge catalogue and the server completion ledger of a user addressed
  by id.

How the model is built:

- Time is milliseconds of local wall-clock time (module `Time`), with calendar
  days, months and weekdays computed explicitly.
- Every clock reading, generated id and timestamp is a parameter.
- Every network call and every database save that can fail is an input
  outcome.
- Repositories are classes holding `seq` fields. Service methods change them
  and state the new contents as a function of the old ones. Lemmas about those
  functions state what the source promises.

Modules, file by file:

- `wrappers.dfy`, `seqs.dfy`, `sorting.dfy`, `time.dfy`, `java_math.dfy`,
  `text.dfy`: options and results; filters and sums over sequences; insertion
  sort; calendar arithmetic; Java integer division; string splitting and
  ordering.
- `client_types.dfy`: the client's `User` and `Record` shapes, and the
  `{...user, ...patch}` merge.
- `challenge_auto_complete.dfy`, `challenge_storage.dfy`: the challenge
  evaluator and its localStorage ledger.
- `savings_store.dfy`, `auth_store.dfy`, `saving_record_store.dfy`,
  `expense_record_store.dfy`, `token_storage.dfy`: the client stores and the
  token storage.
- `excel_export.dfy`, `list_page.dfy`: the sheet rows of the export, and the
  list page's category list, filter, sort and month grouping.
- `stop_save_users.dfy`, `stop_save_records.dfy`, `stop_save_completions.dfy`,
  `stop_save_challenges.dfy`: the `stop.save` services.
- `savebuddy_users.dfy`, `savebuddy_records.dfy`: the `com.savebuddy`
  services, with one user repository shared by `UserService`,
  `OAuth2UserService` and the two record services.

Where the code and its documentation disagree, the model follows the code:

- A pass of the client evaluator reports a challenge that is already
  completed locally again; only the local ledger ignores the repeat.
- `getTodayTotalAmount` in `stop.save` applies no date filter.
- `deleteExpenseRecord` in `com.savebuddy` subtracts the amount from the total
  savings.

Both of the last two are also listed under "Findings".

## Model

| member | source | states |
|---|---|---|
| Text.Before | frontend/src/utils/excelExport.ts:53 | the longest prefix without the separator; when shorter than the string, the separator follows it |
| Text.FirstOfSplit | backend/src/main/java/com/savebuddy/service/UserService.java:98 | `split("@")[0]` taken from the model of `split`: absent exactly for a non-empty string made only of separators, otherwise the text before the first separator |
| Text.Pieces | backend/src/main/java/com/savebuddy/service/UserService.java:98 | at least one piece, and no piece contains the separator |
| Text.JoinPieces | backend/src/main/java/com/savebuddy/service/UserService.java:98 | the pieces joined with the separator give back the string |
| Text.FirstPiece | backend/src/main/java/com/savebuddy/service/UserService.java:98 | the first piece is the text before the first separator |
| Text.PiecesAllEmpty | backend/src/main/java/com/savebuddy/service/UserService.java:98 | every piece is empty iff the string holds only separators |
| Text.DropTrailingEmpty | backend/src/main/java/com/savebuddy/service/UserService.java:98 | a prefix of the pieces ending in a non-empty piece; only empty pieces are dropped |
| Text.FirstOfSplitFacts | backend/src/main/java/com/savebuddy/service/UserService.java:98 | the `split` array is empty iff the string is non-empty and all separators; otherwise its first element is the text before the first separator |
| Text.LexLeqTotal | frontend/src/pages/ListPage.tsx:43 | the category order used for sorting compares any two strings |
| Text.LexLeqTransitive | frontend/src/pages/ListPage.tsx:43 | the category order is transitive |
| Text.NatToString | backend/src/main/java/com/savebuddy/service/UserService.java:98 | the decimal text of the millis: non-empty digits with no leading zero unless the value is 0 |
| Text.NatToStringValue | backend/src/main/java/com/savebuddy/service/UserService.java:98 | the digits spell the number back |
| Time.StartOfDay | backend/save/src/main/java/stop/save/service/ChallengeCompletionService.java:105 | midnight of the instant's day: at or before it, less than a day before, on the same day |
| Time.DayOfDaysBefore | frontend/src/utils/challengeAutoComplete.ts:141-142 | stepping back n days lands n calendar days earlier |
| Time.StartOfDayMonotone | frontend/src/utils/challengeStorage.ts:22-27 | a later instant never has an earlier day or an earlier midnight |
| Time.DayOfWeek | backend/src/main/java/com/savebuddy/service/SavingRecordService.java:114 | `getDayOfWeek().getValue()` lies in 1 to 7 |
| Time.DayOfWeekProperties | backend/src/main/java/com/savebuddy/service/SavingRecordService.java:114 | each next day has the next weekday, wrapping from 7 to 1; 1970-01-01 is Thursday (4) and 2024-01-01 is Monday (1) |
| JavaMath.JavaDiv | backend/src/main/java/com/savebuddy/service/UserService.java:52 | Java `int` division by a positive divisor: the multiple of the divisor nearest the dividend on the side of zero, with the dividend's sign |
| JavaMath.JavaDivTruncates | backend/src/main/java/com/savebuddy/service/UserService.java:52 | -150 / 100 is -1 in Java, where Dafny's `/` gives -2 |
| JavaMath.Max | backend/src/main/java/com/savebuddy/service/UserService.java:53-55 | the larger of the two, so the level is never lowered |
| Sorting.Sort | backend/save/src/main/java/stop/save/repository/ChallengeRepository.java:13-19 | an ordered query returns a permutation of its rows |
| Sorting.SortSorted | backend/save/src/main/java/stop/save/repository/ChallengeRepository.java:13-19 | with a total preorder, the result is ordered |
| Sorting.SortedPrefixProperties | backend/save/src/main/java/stop/save/service/SavingRecordService.java:74-81 | the first n of a sorted list are ordered, come from the input, and none ranks after a row left out |
| ChallengeAutoComplete.GetRecordsByPeriod | frontend/src/utils/challengeAutoComplete.ts:84-116 | keeps exactly the records whose instant lies in the period's window: the calendar day of `now`, or at or after `now` minus 7 or 30 days, with no upper bound |
| ChallengeAutoComplete.PeriodWindowsNest | frontend/src/utils/challengeAutoComplete.ts:93-110 | a record in today's window is in the 7-day window, and one in the 7-day window is in the 30-day window |
| ChallengeAutoComplete.RecordsByPeriodIsSubsequence | frontend/src/utils/challengeAutoComplete.ts:90-115 | the window keeps the records in their input order |
| ChallengeAutoComplete.DateGroupKeys | frontend/src/utils/challengeAutoComplete.ts:123-130 | the keys of the day groups are the distinct record days, each once |
| ChallengeAutoComplete.Run | frontend/src/utils/challengeAutoComplete.ts:139-151 | the run ending on day `d` covers consecutive days that all have records, and the day before it has none |
| ChallengeAutoComplete.StreakFrom | frontend/src/utils/challengeAutoComplete.ts:136-153 | the streak is 0 when some record is dated after today; otherwise it is the longest run of recorded days ending today |
| ChallengeAutoComplete.RunIgnoresLaterDays | frontend/src/utils/challengeAutoComplete.ts:139-151 | days after `d` do not change the run ending on `d` |
| ChallengeAutoComplete.RunAtMostDays | frontend/src/utils/challengeAutoComplete.ts:139-151 | a run never exceeds the number of recorded days |
| ChallengeAutoComplete.StreakBounds | frontend/src/utils/challengeAutoComplete.ts:119-154 | the streak is at most the number of distinct days; it is 0 when there is no record today and 0 for an empty list |
| ChallengeAutoComplete.ScanFindsStreak | frontend/src/utils/challengeAutoComplete.ts:139-151 | a scan of the days sorted latest first, stopping at the first day that differs from today minus the count, yields the streak |
| ChallengeAutoComplete.SortedDateKeys | frontend/src/utils/challengeAutoComplete.ts:132-134 | sorting the distinct days latest first keeps them all and gives strictly decreasing days |
| ChallengeAutoComplete.GetConsecutiveDays | frontend/src/utils/challengeAutoComplete.ts:119-154 | the loop returns the streak of recorded days ending on the day of `now` |
| ChallengeAutoComplete.DailyChallengeRules | frontend/src/utils/challengeAutoComplete.ts:179-185 | "coffee" completes iff today's 음식 records sum to at least 4500; "taxi" iff today's 교통 records sum to at least 10000 |
| ChallengeAutoComplete.WeeklyChallengeRules | frontend/src/utils/challengeAutoComplete.ts:179-185 | "delivery" and "shopping" complete iff the 7-day sum of their category reaches 20000 or 30000 |
| ChallengeAutoComplete.MonthlyChallengeRules | frontend/src/utils/challengeAutoComplete.ts:188-202 | "target" completes iff the 30-day total is at least 100000; "streak" iff the streak over all records, not the window, is at least 30 |
| ChallengeAutoComplete.Completed | frontend/src/utils/challengeAutoComplete.ts:209-216 | a pass completes exactly the satisfied catalogue entries whose pending key is absent |
| ChallengeAutoComplete.IdsOf | frontend/src/utils/challengeAutoComplete.ts:220 | the reported ids are the completed challenges' ids, position by position |
| ChallengeAutoComplete.RequestsOf | frontend/src/utils/challengeAutoComplete.ts:226-231 | one backend request per completed challenge, in order, with its id, title, period and reward |
| ChallengeAutoComplete.JudgeChallenge | frontend/src/utils/challengeAutoComplete.ts:172-207 | the switch on the challenge id decides exactly the challenge's rule |
| ChallengeAutoComplete.Satisfied | frontend/src/utils/challengeAutoComplete.ts:172-207 | the switch's judgement; DailyChallengeRules, WeeklyChallengeRules and MonthlyChallengeRules state it for each catalogue entry |
| ChallengeAutoComplete.CompletedStep | frontend/src/utils/challengeAutoComplete.ts:167-248 | one more catalogue entry appends that entry iff it is satisfied and not pending |
| ChallengeAutoComplete.AppendFacts | frontend/src/utils/challengeAutoComplete.ts:219-231 | one more completion extends the ids, the requests and the ledger saves by exactly that challenge |
| ChallengeAutoComplete.AutoCompleter.constructor | frontend/src/utils/challengeAutoComplete.ts:157 | the pending set starts empty, over the given ledger |
| ChallengeAutoComplete.AutoCompleter.CheckAndCompleteAutoChallenges | frontend/src/utils/challengeAutoComplete.ts:160-255 | returns the completed ids in catalogue order, sends one request per id, notifies once per id when a callback is given, saves each to the ledger, and leaves the pending set as it was |
| ChallengeAutoComplete.CatalogueIdsDistinct | frontend/src/utils/challengeAutoComplete.ts:18-81 | the six catalogue ids are distinct |
| ChallengeAutoComplete.CompletedIdsDistinct | frontend/src/utils/challengeAutoComplete.ts:167-254 | with distinct catalogue ids, the completed ids are distinct |
| ChallengeAutoComplete.PassReportsEachChallengeOnce | frontend/src/utils/challengeAutoComplete.ts:165-254 | no id appears twice in one pass's result |
| ChallengeAutoComplete.SaveAllKeepsReadability | frontend/src/utils/challengeAutoComplete.ts:219 | the saves of a pass leave an unparseable ledger unparseable and a readable one readable |
| ChallengeAutoComplete.SavedChallengesAreCompleted | frontend/src/utils/challengeStorage.ts:68-121 | after saving a readable ledger, every reported challenge counts as completed |
| ChallengeAutoComplete.SaveAllOfCompletedIsNoop | frontend/src/utils/challengeStorage.ts:74-83 | saving challenges that are all completed already changes nothing |
| ChallengeAutoComplete.SaveAllOfUnreadableIsNoop | frontend/src/utils/challengeStorage.ts:93-109 | saves into an unparseable ledger change nothing |
| ChallengeAutoComplete.SecondPassKeepsLedger | frontend/src/utils/challengeStorage.ts:74-83 | repeating a pass's saves at the same instant leaves the ledger as the first pass left it |
| ChallengeStorage.ExpiryRules | frontend/src/utils/challengeStorage.ts:13-43 | a daily entry expires at the next midnight, a weekly one 7 days on and a monthly one 30 days on; no entry is expired at its own completion instant |
| ChallengeStorage.IsExpired | frontend/src/utils/challengeStorage.ts:13-43 | `isExpired`: `now` is at or after the period's expiry instant; ExpiryRules states the rule per period |
| ChallengeStorage.Unexpired | frontend/src/utils/challengeStorage.ts:102-104 | keeps exactly the entries that have not expired |
| ChallengeStorage.LiveFor | frontend/src/utils/challengeStorage.ts:56-60 | keeps exactly one user's unexpired entries |
| ChallengeStorage.GetChallengeCompletions | frontend/src/utils/challengeStorage.ts:46-65 | exactly the stored entries of the user that are not expired; `[]` when nothing is stored or parsing fails |
| ChallengeStorage.GetCompletedChallengeIds | frontend/src/utils/challengeStorage.ts:124-127 | the challenge id of each live completion, in the same order |
| ChallengeStorage.CompletedIdsMatchIsCompleted | frontend/src/utils/challengeStorage.ts:113-127 | an id is among the completed ids iff `isChallengeCompleted` holds for it |
| ChallengeStorage.IsChallengeCompleted | frontend/src/utils/challengeStorage.ts:113-121 | some live completion of the user carries the id; CompletedIdsMatchIsCompleted ties it to the id list |
| ChallengeStorage.AfterSave | frontend/src/utils/challengeStorage.ts:68-111 | the ledger after `saveChallengeCompletion`; the Save lemmas state what it keeps and adds |
| ChallengeStorage.CompletionStorage.constructor | frontend/src/utils/challengeStorage.ts:49-50 | nothing is stored under the ledger key |
| ChallengeStorage.CompletionStorage.SaveChallengeCompletion | frontend/src/utils/challengeStorage.ts:68-110 | the stored value becomes the save transition of the old one |
| ChallengeStorage.UnexpiredAppend | frontend/src/utils/challengeStorage.ts:99-104 | pruning after an append is pruning before it, plus the new entry when it is live |
| ChallengeStorage.LiveForAppend | frontend/src/utils/challengeStorage.ts:56-60 | a user's live entries after an append gain the new entry exactly when it is theirs and live |
| ChallengeStorage.LiveForOfUnexpired | frontend/src/utils/challengeStorage.ts:56-104 | pruning expired entries does not change any user's live entries |
| ChallengeStorage.SaveWhenCompletedIsNoop | frontend/src/utils/challengeStorage.ts:74-83 | saving a challenge the user already holds unexpired, whatever its period, changes nothing |
| ChallengeStorage.SaveAppendsOneEntry | frontend/src/utils/challengeStorage.ts:85-106 | otherwise the store becomes the unexpired old entries of all users plus one entry completed at `now` |
| ChallengeStorage.SaveThenCompleted | frontend/src/utils/challengeStorage.ts:99-121 | after a save into a readable store, the challenge counts as completed |
| ChallengeStorage.SaveKeepsOtherUsers | frontend/src/utils/challengeStorage.ts:93-104 | a save never changes another user's live completions |
| ChallengeStorage.SaveExtendsOwnCompletions | frontend/src/utils/challengeStorage.ts:85-106 | a new save adds exactly one entry to the saving user's live completions |
| ChallengeStorage.SaveIdempotent | frontend/src/utils/challengeStorage.ts:74-106 | a second identical save at the same instant changes nothing |
| ChallengeStorage.SaveKeepsReadability | frontend/src/utils/challengeStorage.ts:93-109 | a save leaves an unparseable store unparseable and a readable one readable |
| ChallengeStorage.SaveKeepsCompleted | frontend/src/utils/challengeStorage.ts:93-106 | a save keeps every completion that was live before it |
| ClientTypes.OfCategory | frontend/src/utils/challengeAutoComplete.ts:180-181 | keeps exactly the records of one category |
| ClientTypes.OfCategoryKeepsOrder | frontend/src/utils/excelExport.ts:93-95 | the category filter keeps the records' order |
| ClientTypes.CategoryAmountSplit | frontend/src/utils/challengeAutoComplete.ts:180-182 | one category's sum plus the sum of the other records is the total |
| ClientTypes.MergeProperties | frontend/src/store/useAuthStore.ts:149-152 | an empty patch copies the user, a patch applied twice equals once, and a present nickname replaces the old one while an absent one keeps it |
| SavingsStore.XpGain | frontend/src/store/useSavingsStore.ts:34-35 | the XP gained is at least 1; it is `amount / 1000` from 2000 up and 1 below |
| SavingsStore.LevelUp | frontend/src/store/useSavingsStore.ts:38-43 | the level loop never lowers the level and leaves non-negative XP |
| SavingsStore.LevelUpProperties | frontend/src/store/useSavingsStore.ts:39-44 | after the loop the XP is below `level * 100`, and the total XP (the cost of the levels passed plus the leftover) is conserved |
| SavingsStore.CostStrictlyIncreasing | frontend/src/store/useSavingsStore.ts:40-42 | passing a level costs `100 * level`, so cumulative cost strictly increases |
| SavingsStore.LevelDeterminedByTotal | frontend/src/store/useSavingsStore.ts:39-43 | a normalised level and XP pair is fixed by its total XP |
| SavingsStore.SavingsStoreState.constructor | frontend/src/store/useSavingsStore.ts:22-25 | no records, balance 0, level 1, experience 0 |
| SavingsStore.SavingsStoreState.AddRecord | frontend/src/store/useSavingsStore.ts:26-51 | prepends the record, adds the amount to the balance, and runs the level loop on the old XP plus the gain |
| ExcelExport.ExportToExcel | frontend/src/utils/excelExport.ts:4-65 | n+1 rows; data row i is numbered i+1 and copies record i; the last row is the total row; the sum, the count and the filename are returned |
| ExcelExport.InPeriod | frontend/src/utils/excelExport.ts:74-77 | keeps exactly the records with both ends of the period inclusive |
| ExcelExport.InPeriodKeepsOrder | frontend/src/utils/excelExport.ts:74-77 | the period filter keeps the input order |
| ExcelExport.ExportRecordsByPeriod | frontend/src/utils/excelExport.ts:68-85 | data row i is the sheet row of the i-th in-period record, the last row is their total row; the count, total and period filename are returned |
| ExcelExport.ExportRecordsByCategory | frontend/src/utils/excelExport.ts:88-101 | data row i is the sheet row of the i-th record of the category, the last row is their total row; the count, the category total and the category filename are returned |
| TokenStorage.Read | frontend/src/utils/tokenStorage.ts:36-72 | the first working tier, in the order local, session, memory, that holds a non-empty token; otherwise none |
| TokenStorage.Write | frontend/src/utils/tokenStorage.ts:6-34 | writes only to the first working tier |
| TokenStorage.SetThenGet | frontend/src/utils/tokenStorage.ts:6-44 | a non-empty token just set is read back, in every tier configuration |
| TokenStorage.EmptyTokenIsAbsent | frontend/src/utils/tokenStorage.ts:36-68 | an empty token is never read back |
| TokenStorage.Remove | frontend/src/utils/tokenStorage.ts:74-98 | after removal no token is found; inaccessible tiers are unchanged; the dictionary loses only the token key |
| TokenStorage.TokenStore.constructor | frontend/src/utils/tokenStorage.ts:3-4 | the fallback dictionary starts empty; the browser tiers are as given |
| TokenStorage.TokenStore.SetToken | frontend/src/utils/tokenStorage.ts:6-34 | the storage becomes `Write` of the old storage |
| TokenStorage.TokenStore.GetToken | frontend/src/utils/tokenStorage.ts:36-72 | returns `Read` of the storage |
| TokenStorage.TokenStore.RemoveToken | frontend/src/utils/tokenStorage.ts:74-98 | the storage becomes `Remove` of the old storage |
| TokenStorage.TokenStore.HasToken | frontend/src/utils/tokenStorage.ts:100-103 | holds iff `getToken` finds a token |
| AuthStore.CurrentUserOf | frontend/src/store/useAuthStore.ts:111-139 | the user is kept iff the call resolved with a user that has an id |
| AuthStore.AuthState.constructor | frontend/src/store/useAuthStore.ts:27-30 | no user, not authenticated, not loading, no error |
| AuthStore.AuthState.Login | frontend/src/store/useAuthStore.ts:32-54 | success stores the user, authenticated, with no error; failure keeps the user, sets the error and rethrows |
| AuthStore.AuthState.Logout | frontend/src/store/useAuthStore.ts:76-101 | always ends with no user and not authenticated; the error is set only on failure |
| AuthStore.AuthState.GetCurrentUser | frontend/src/store/useAuthStore.ts:103-141 | never throws; authenticated iff the response has an id; the error is set only when the call fails |
| AuthStore.AuthState.UpdateUser | frontend/src/store/useAuthStore.ts:143-169 | with no current user it fails before any request; otherwise it sends the merged user and stores the response, or keeps the user and rethrows |
| AuthStore.AuthState.AddExperience | frontend/src/store/useAuthStore.ts:171-194 | stores the returned user, or keeps the user, sets the error and rethrows |
| AuthStore.AuthState.UpdateSavings | frontend/src/store/useAuthStore.ts:196-216 | stores the returned user, or keeps the user, sets the error and rethrows |
| AuthStore.AuthState.ClearError | frontend/src/store/useAuthStore.ts:218 | sets only the error, to none |
| AuthStore.AuthState.SetLoading | frontend/src/store/useAuthStore.ts:219-226 | sets only the loading flag; the persisted pair of user and authenticated is unchanged |
| SavingRecordStore.PersistedOf | frontend/src/store/useSavingRecordStore.ts:158-167 | the persisted part is exactly the six data fields |
| SavingRecordStore.PersistedIgnoresTransientFields | frontend/src/store/useSavingRecordStore.ts:158-167 | the loading flag and the error are not persisted |
| SavingRecordStore.SavingRecordStoreState.constructor | frontend/src/store/useSavingRecordStore.ts:37-44 | the initial empty state |
| SavingRecordStore.SavingRecordStoreState.CreateRecord | frontend/src/store/useSavingRecordStore.ts:46-69 | success prepends the new record; failure keeps the records, sets the error and rethrows; loading ends false |
| SavingRecordStore.SavingRecordStoreState.FetchAllRecords | frontend/src/store/useSavingRecordStore.ts:71-78 | success replaces only `records`; failure changes nothing |
| SavingRecordStore.SavingRecordStoreState.FetchTodayRecords | frontend/src/store/useSavingRecordStore.ts:80-87 | success replaces only `todayRecords`; failure changes nothing |
| SavingRecordStore.SavingRecordStoreState.FetchMonthRecords | frontend/src/store/useSavingRecordStore.ts:89-96 | success replaces only `monthRecords`; failure changes nothing |
| SavingRecordStore.SavingRecordStoreState.FetchLatestRecords | frontend/src/store/useSavingRecordStore.ts:98-105 | success replaces only `latestRecords`; failure changes nothing |
| SavingRecordStore.SavingRecordStoreState.FetchWeekRecords | frontend/src/store/useSavingRecordStore.ts:107-114 | success replaces only `weekRecords`; failure changes nothing |
| SavingRecordStore.SavingRecordStoreState.FetchCategoryStats | frontend/src/store/useSavingRecordStore.ts:116-124 | success replaces only `categoryStats`; failure changes nothing |
| SavingRecordStore.SavingRecordStoreState.ClearError | frontend/src/store/useSavingRecordStore.ts:155 | changes only the error, and nothing persisted |
| SavingRecordStore.SavingRecordStoreState.SetLoading | frontend/src/store/useSavingRecordStore.ts:156 | changes only the loading flag, and nothing persisted |
| ExpenseRecordStore.ListOr | frontend/src/store/useExpenseRecordStore.ts:82-113 | a list refresh yields the response, or `[]` on failure |
| ExpenseRecordStore.InfoOr | frontend/src/store/useExpenseRecordStore.ts:60-79 | a summary refresh yields the response, or null on failure |
| ExpenseRecordStore.Refreshed | frontend/src/store/useExpenseRecordStore.ts:138-145 | after the six refreshes, each field holds its response or its reset value; failed `records` are kept; loading is false |
| ExpenseRecordStore.WithoutRecord | frontend/src/store/useExpenseRecordStore.ts:164-167 | drops exactly the records with that id |
| ExpenseRecordStore.WithoutRecordProperties | frontend/src/store/useExpenseRecordStore.ts:163-168 | the rest keep their order, dropping twice equals once, and an absent id changes nothing |
| ExpenseRecordStore.ExpenseRecordStoreState.constructor | frontend/src/store/useExpenseRecordStore.ts:39-45 | the initial empty state |
| ExpenseRecordStore.ExpenseRecordStoreState.FetchAllRecords | frontend/src/store/useExpenseRecordStore.ts:48-57 | success replaces `records`; failure keeps them; loading ends false |
| ExpenseRecordStore.ExpenseRecordStoreState.FetchTodayRecords | frontend/src/store/useExpenseRecordStore.ts:60-68 | `todayRecords` becomes the response, or null on failure; nothing else changes |
| ExpenseRecordStore.ExpenseRecordStoreState.FetchMonthRecords | frontend/src/store/useExpenseRecordStore.ts:71-79 | `monthRecords` becomes the response, or null on failure; nothing else changes |
| ExpenseRecordStore.ExpenseRecordStoreState.FetchLatestRecords | frontend/src/store/useExpenseRecordStore.ts:82-90 | `latestRecords` becomes the response, or `[]` on failure |
| ExpenseRecordStore.ExpenseRecordStoreState.FetchWeekRecords | frontend/src/store/useExpenseRecordStore.ts:93-101 | `weekRecords` becomes the response, or `[]` on failure |
| ExpenseRecordStore.ExpenseRecordStoreState.FetchCategoryStats | frontend/src/store/useExpenseRecordStore.ts:104-113 | `categoryStats` becomes the response, or `[]` on failure |
| ExpenseRecordStore.ExpenseRecordStoreState.RefreshAll | frontend/src/store/useExpenseRecordStore.ts:129-145 | the six refreshes, run in turn, give the `Refreshed` state |
| ExpenseRecordStore.ExpenseRecordStoreState.CreateRecord | frontend/src/store/useExpenseRecordStore.ts:116-156 | sends the record with user id 1; on success refreshes everything and the current user; on failure only clears loading and rethrows |
| ExpenseRecordStore.ExpenseRecordStoreState.DeleteRecord | frontend/src/store/useExpenseRecordStore.ts:159-203 | the local records lose that id first; success refreshes; failure re-fetches `records`, ends loading and rethrows |
| ExpenseRecordStore.ExpenseRecordStoreState.Reset | frontend/src/store/useExpenseRecordStore.ts:206-216 | restores the initial state |
| ListPage.Distinct | frontend/src/pages/ListPage.tsx:25 | each element once, the same members |
| ListPage.FirstIndex | frontend/src/pages/ListPage.tsx:25 | the position of the first occurrence |
| ListPage.FirstIndexOfPrefix | frontend/src/pages/ListPage.tsx:25 | appending does not move a first occurrence |
| ListPage.DistinctFirstSeenOrder | frontend/src/pages/ListPage.tsx:25 | the distinct elements follow the order of their first occurrence |
| ListPage.CategoriesOf | frontend/src/pages/ListPage.tsx:25 | the category of each record, position by position |
| ListPage.Categories | frontend/src/pages/ListPage.tsx:23-26 | "전체" first, then every record category exactly once |
| ListPage.CategoriesInFirstSeenOrder | frontend/src/pages/ListPage.tsx:23-26 | categories after "전체" are in first-seen order |
| ListPage.FilterByCategory | frontend/src/pages/ListPage.tsx:29-33 | with a filter other than "전체", exactly the records of that category |
| ListPage.FilterByCategoryProperties | frontend/src/pages/ListPage.tsx:29-33 | the filter "전체" keeps every record; the filter keeps the order |
| ListPage.PrecedesIsTotalPreorder | frontend/src/pages/ListPage.tsx:34-47 | each sort key's comparator is a total preorder |
| ListPage.FilteredAndSorted | frontend/src/pages/ListPage.tsx:29-47 | the sorted list is a permutation of the filtered records |
| ListPage.FilteredAndSortedOrder | frontend/src/pages/ListPage.tsx:34-47 | newest first for "date", amount descending for "amount", category ascending for "category" |
| ListPage.CategoryIconsDistinct | frontend/src/pages/ListPage.tsx:50-63 | the four known categories get four distinct icons |
| ListPage.CategoryIcon | frontend/src/pages/ListPage.tsx:50-63 | "💡" exactly for a category other than the four known ones |
| ListPage.MonthsOf | frontend/src/pages/ListPage.tsx:67-68 | the year and month of each record |
| ListPage.InMonth | frontend/src/pages/ListPage.tsx:66-75 | exactly the records of one month |
| ListPage.InMonthAppend | frontend/src/pages/ListPage.tsx:70-73 | pushing a record extends only its own month's group |
| ListPage.InMonthEmpty | frontend/src/pages/ListPage.tsx:66-75 | a month with no records has an empty group |
| ListPage.GroupByMonthPartition | frontend/src/pages/ListPage.tsx:66-75 | the groups are keyed by the distinct months in first-seen order; each group is exactly that month's records |
| ListPage.GroupByMonth | frontend/src/pages/ListPage.tsx:66-75 | the month grouping as the reduce builds it; GroupByMonthPartition states its keys and groups |
| ListPage.EachRecordInOneGroup | frontend/src/pages/ListPage.tsx:66-75 | every record lies in exactly one group, its own month's |
| ListPage.GroupKeepsOrder | frontend/src/pages/ListPage.tsx:73 | each group keeps the filtered order |
| ListPage.TotalAppend | frontend/src/pages/ListPage.tsx:167-175 | the total over the groups splits over concatenated key lists |
| ListPage.TotalIgnoresOtherKeys | frontend/src/pages/ListPage.tsx:167-175 | changing a group that is not listed leaves the total |
| ListPage.TotalUpdate | frontend/src/pages/ListPage.tsx:167-175 | replacing one listed group changes the total by the difference of the group sums |
| ListPage.GroupTotals | frontend/src/pages/ListPage.tsx:167-175 | for any per-record weight, the month groups' sums add up to the sum over all filtered records; with weight one (see `SumOfOnes`) the headers' counts add up to the number of records |
| ListPage.SumOfOnes | frontend/src/pages/ListPage.tsx:172 | counting by ones gives the length |
| ListPage.GroupRecordsByMonth | frontend/src/pages/ListPage.tsx:66-75 | the reduce loop builds exactly `GroupByMonth` |
| StopSaveCompletions.CheckSince | backend/save/src/main/java/stop/save/service/ChallengeCompletionService.java:99-115 | start of today for DAILY, now minus 7 days for WEEKLY, now minus 30 days for MONTHLY; never after now |
| StopSaveCompletions.CheckSinceMonotone | backend/save/src/main/java/stop/save/service/ChallengeCompletionService.java:99-115 | a later instant never gives an earlier lookback |
| StopSaveCompletions.Matches | backend/save/src/main/java/stop/save/repository/ChallengeCompletionRepository.java:24-27 | the ledger entries of the user and challenge id at or after `since`, whatever their period |
| StopSaveCompletions.FindRecent | backend/save/src/main/java/stop/save/repository/ChallengeCompletionRepository.java:24-27 | empty when nothing matches, the match when exactly one does, an error when two or more do |
| StopSaveCompletions.Complete | backend/save/src/main/java/stop/save/service/ChallengeCompletionService.java:26-61 | the ledger is unchanged, gains the one new completion, or gains what a failed save committed |
| StopSaveCompletions.IsRecentlyCompleted | backend/save/src/main/java/stop/save/service/ChallengeCompletionService.java:75-78 | true iff exactly one completion lies in the period's window, false iff none does; two or more make the query fail |
| StopSaveCompletions.OfUser | backend/save/src/main/java/stop/save/repository/ChallengeCompletionRepository.java:36-40 | exactly the user's completions |
| StopSaveCompletions.TotalRewards | backend/save/src/main/java/stop/save/service/ChallengeCompletionService.java:92-94 | 0 when the user has no completions |
| StopSaveCompletions.ExistingCompletionIsReturned | backend/save/src/main/java/stop/save/service/ChallengeCompletionService.java:30-38 | a recent completion is returned and nothing is saved |
| StopSaveCompletions.NewCompletionIsStored | backend/save/src/main/java/stop/save/service/ChallengeCompletionService.java:40-46 | otherwise exactly one completion with the given fields is saved and returned |
| StopSaveCompletions.MatchesAppend | backend/save/src/main/java/stop/save/repository/ChallengeCompletionRepository.java:24-27 | matching distributes over an appended ledger |
| StopSaveCompletions.CompletedIsRecentlyCompleted | backend/save/src/main/java/stop/save/service/ChallengeCompletionService.java:26-78 | after a successful completion, `isRecentlyCompleted` holds at the same instant |
| StopSaveCompletions.CompleteIsIdempotent | backend/save/src/main/java/stop/save/service/ChallengeCompletionService.java:26-38 | repeating the call inside the window returns the first completion and adds nothing |
| StopSaveCompletions.NewCompletionTotals | backend/save/src/main/java/stop/save/service/ChallengeCompletionService.java:84-94 | a new completion adds one to its user's count and its reward to their total |
| StopSaveCompletions.TotalCompletionCount | backend/save/src/main/java/stop/save/service/ChallengeCompletionService.java:84-86 | `countByUser`: the number of the user's rows; NewCompletionTotals states how it grows |
| StopSaveCompletions.ChallengeCompletionService.constructor | backend/save/src/main/java/stop/save/service/ChallengeCompletionService.java:19-21 | an empty completion ledger |
| StopSaveCompletions.ChallengeCompletionService.CompleteChallenge | backend/save/src/main/java/stop/save/service/ChallengeCompletionService.java:26-61 | the result and the new ledger are `Complete` of the old ledger; the id counter advances only on a fresh save |
| StopSaveCompletions.ChallengeCompletionService.IsRecentlyCompletedNow | backend/save/src/main/java/stop/save/service/ChallengeCompletionService.java:75-78 | answers `IsRecentlyCompleted` over the ledger |
| StopSaveUsers.IndexOfId | backend/save/src/main/java/stop/save/service/UserService.java:46-48 | the first row with the id, or -1 exactly when no row has it |
| StopSaveUsers.IndexOfIdUnique | backend/save/src/main/java/stop/save/service/UserService.java:46-48 | with unique ids, the lookup finds the one row with that id |
| StopSaveUsers.FindById | backend/save/src/main/java/stop/save/service/UserService.java:46-48 | present iff some row has the id, and then it is such a row |
| StopSaveUsers.Gained | backend/save/src/main/java/stop/save/service/UserService.java:51-64 | XP grows by the delta; the level becomes the larger of the old level and `exp / 100 + 1`, with Java division; nothing else changes |
| StopSaveUsers.GainedLevel | backend/save/src/main/java/stop/save/service/UserService.java:58-62 | the level never decreases, and a consistent level stays consistent under a non-negative gain |
| StopSaveUsers.WithSavings | backend/save/src/main/java/stop/save/service/UserService.java:70-75 | savings grow by exactly the amount, and nothing else changes |
| StopSaveUsers.Login | backend/save/src/main/java/stop/save/service/UserService.java:37-43 | a user is returned iff a row has the username and the given password |
| StopSaveUsers.UniqueAfterUpdate | backend/save/src/main/java/stop/save/service/UserService.java:51-78 | updating a row in place, keeping its id, username and email, keeps the rows unique |
| StopSaveUsers.UserService.constructor | backend/save/src/main/java/stop/save/service/UserService.java:13-16 | an empty user table with unique rows |
| StopSaveUsers.UserService.RegisterUser | backend/save/src/main/java/stop/save/service/UserService.java:19-34 | rejects a taken username first, then a taken email; otherwise stores the user with level 1, experience 0 and savings 0 |
| StopSaveUsers.UserService.LoginUser | backend/save/src/main/java/stop/save/service/UserService.java:37-43 | returns `Login` over the table |
| StopSaveUsers.UserService.AddExperience | backend/save/src/main/java/stop/save/service/UserService.java:51-67 | an unknown id fails and changes nothing; otherwise only that row becomes `Gained` |
| StopSaveUsers.UserService.UpdateTotalSavings | backend/save/src/main/java/stop/save/service/UserService.java:70-78 | an unknown id fails and changes nothing; otherwise only that row's savings grow |
| StopSaveUsers.UserService.UpdateUser | backend/save/src/main/java/stop/save/service/UserService.java:81-83 | replaces the row with the user's id by the given user, or inserts it under a fresh id when no row has that id; fails, changing nothing, iff another row has its username or email |
| StopSaveRecords.OfUser | backend/save/src/main/java/stop/save/repository/SavingRecordRepository2.java:20-26 | exactly the user's records |
| StopSaveRecords.TodayTotalAmountAsWritten | backend/save/src/main/java/stop/save/service/SavingRecordService.java:58-61 | as written, today's total equals the user's all-time total |
| StopSaveRecords.TodayRecords | backend/save/src/main/java/stop/save/service/SavingRecordService.java:58-61 | the user's records on the calendar day of `now` |
| StopSaveRecords.TodayTotalAsWrittenCountsOtherDays | backend/save/src/main/java/stop/save/service/SavingRecordService.java:58-61 | a 3000 record from yesterday counts in the as-written today total but not in the corrected one |
| StopSaveRecords.OfUserAppend | backend/save/src/main/java/stop/save/repository/SavingRecordRepository2.java:20-26 | a new record extends only its owner's list |
| StopSaveRecords.TotalAmount | backend/save/src/main/java/stop/save/service/SavingRecordService.java:102-104 | the sum of the user's amounts; TotalAmountAppend states its laws |
| StopSaveRecords.TotalAmountAppend | backend/save/src/main/java/stop/save/service/SavingRecordService.java:102-104 | 0 on an empty table; a new record adds its amount exactly when it is the user's |
| StopSaveRecords.TodayTotalAmount | backend/save/src/main/java/stop/save/service/SavingRecordService.java:58-61 | the corrected today total: the sum over the user's records of today; TodayTotalAmountAppend states its laws |
| StopSaveRecords.TodayTotalAmountAppend | backend/save/src/main/java/stop/save/service/SavingRecordService.java:32-61 | a new record raises the corrected today total by its amount exactly when it is the user's and dated today |
| StopSaveRecords.MonthRecords | backend/save/src/main/java/stop/save/service/SavingRecordService.java:83-99 | the user's records with the first of the month at 00:00 at or before `createdAt`, and `createdAt` before the first of the next month |
| StopSaveRecords.MonthTotals | backend/save/src/main/java/stop/save/service/SavingRecordService.java:64-71 | the month count is the size of the month filter, at most the user's record count |
| StopSaveRecords.MonthTotalsAppend | backend/save/src/main/java/stop/save/service/SavingRecordService.java:64-71 | both totals start at 0; a new record adds its amount and one exactly when it is the user's and falls in the month of `now` |
| StopSaveRecords.LatestRecords | backend/save/src/main/java/stop/save/service/SavingRecordService.java:74-81 | three records, or all of them when the user has fewer |
| StopSaveRecords.LatestRecordsProperties | backend/save/src/main/java/stop/save/service/SavingRecordService.java:74-81 | the user's own records, newest first, none newer left out |
| StopSaveRecords.WithoutId | backend/save/src/main/java/stop/save/service/SavingRecordService.java:127 | drops exactly the record with that id |
| StopSaveRecords.IndexOfRecord | backend/save/src/main/java/stop/save/service/SavingRecordService.java:123 | the first row with the id, or -1 exactly when none has it |
| StopSaveRecords.SavingRecordService.constructor | backend/save/src/main/java/stop/save/service/SavingRecordService.java:20-29 | an empty record table over the given user service |
| StopSaveRecords.SavingRecordService.CreateSavingRecord | backend/save/src/main/java/stop/save/service/SavingRecordService.java:32-55 | an unknown user fails and saves nothing; otherwise the record is stored, its amount added to savings and 10 XP granted through `Gained` |
| StopSaveRecords.SavingRecordService.DeleteSavingRecord | backend/save/src/main/java/stop/save/service/SavingRecordService.java:122-134 | a missing record or an owner id mismatch fails and changes nothing; otherwise only that record is removed |
| StopSaveRecords.RemoveAtIsWithoutId | backend/save/src/main/java/stop/save/service/SavingRecordService.java:127 | with unique ids, deleting the found row is dropping the id |
| StopSaveRecords.RemoveAtKeepsUniqueIds | backend/save/src/main/java/stop/save/service/SavingRecordService.java:127 | deleting a row keeps the ids unique |
| StopSaveChallenges.OrdersAreTotalPreorders | backend/save/src/main/java/stop/save/repository/ChallengeRepository.java:13-19 | both query orders are total preorders |
| StopSaveChallenges.ActiveChallenges | backend/save/src/main/java/stop/save/service/ChallengeService.java:20-22 | a permutation of the active rows |
| StopSaveChallenges.ActiveChallengesProperties | backend/save/src/main/java/stop/save/service/ChallengeService.java:20-22 | exactly the active challenges, latest first |
| StopSaveChallenges.RecommendedChallenges | backend/save/src/main/java/stop/save/service/ChallengeService.java:30-34 | exactly the active challenges with a target between the total and the total plus 100000 |
| StopSaveChallenges.RecommendedChallengesProperties | backend/save/src/main/java/stop/save/service/ChallengeService.java:30-34 | both ends of the range are included, and table order is kept |
| StopSaveChallenges.ChallengesByDuration | backend/save/src/main/java/stop/save/service/ChallengeService.java:37-39 | a permutation of the active rows of that duration |
| StopSaveChallenges.ChallengesByDurationProperties | backend/save/src/main/java/stop/save/service/ChallengeService.java:37-39 | exactly the active challenges of that duration, smallest target first |
| StopSaveChallenges.IndexOfChallenge | backend/save/src/main/java/stop/save/service/ChallengeService.java:56 | the first row with the id, or -1 exactly when none has it |
| StopSaveChallenges.ChallengeById | backend/save/src/main/java/stop/save/service/ChallengeService.java:25-27 | empty iff no row has the id; otherwise a row with that id |
| StopSaveChallenges.ChallengeByIdIsTheRow | backend/save/src/main/java/stop/save/service/ChallengeService.java:25-27 | with unique ids, the lookup returns the row itself |
| StopSaveChallenges.Deactivated | backend/save/src/main/java/stop/save/service/ChallengeService.java:58-60 | only the `isActive` flag of that row changes, to false |
| StopSaveChallenges.DeactivatedRows | backend/save/src/main/java/stop/save/service/ChallengeService.java:55-63 | after deactivation no active row has the id, the other active rows remain, and ids stay unique |
| StopSaveChallenges.DeactivatedIsHidden | backend/save/src/main/java/stop/save/service/ChallengeService.java:20-63 | a deactivated challenge leaves all three queries; other active ones stay listed |
| StopSaveChallenges.CreatedIsListed | backend/save/src/main/java/stop/save/service/ChallengeService.java:20-52 | a new challenge is listed as active and by its duration, and recommended iff its target is in range |
| StopSaveChallenges.ChallengeService.constructor | backend/save/src/main/java/stop/save/service/ChallengeService.java:14-17 | an empty catalogue |
| StopSaveChallenges.ChallengeService.CreateChallenge | backend/save/src/main/java/stop/save/service/ChallengeService.java:42-52 | stores the given fields, active, with a fresh id and the creation instant |
| StopSaveChallenges.ChallengeService.DeactivateChallenge | backend/save/src/main/java/stop/save/service/ChallengeService.java:55-63 | an unknown id fails and changes nothing; otherwise the table becomes `Deactivated` and the updated row is returned |
| SaveBuddyUsers.IndexOfId | backend/src/main/java/com/savebuddy/service/UserService.java:45 | the first row with the id, or -1 exactly when none has it |
| SaveBuddyUsers.IndexOfEmail | backend/src/main/java/com/savebuddy/service/OAuth2UserService.java:21 | the first row with the email, or -1 exactly when the email is not taken |
| SaveBuddyUsers.FindByEmail | backend/src/main/java/com/savebuddy/service/OAuth2UserService.java:48-50 | empty iff no row has the email; otherwise such a row |
| SaveBuddyUsers.IndexOfUnique | backend/src/main/java/com/savebuddy/entity/User.java:16-25 | with unique ids and emails, both lookups find the one matching row |
| SaveBuddyUsers.IndexOfIdAfterUpdate | backend/src/main/java/com/savebuddy/service/UserService.java:44-71 | updating a row in place, keeping its id, moves no id lookup |
| SaveBuddyUsers.Gained | backend/src/main/java/com/savebuddy/service/UserService.java:44-57 | XP grows by the delta; the level becomes the larger of the old level and `exp / 100 + 1`, with Java division |
| SaveBuddyUsers.GainedLevel | backend/src/main/java/com/savebuddy/service/UserService.java:51-55 | the level never decreases, and a consistent level stays consistent |
| SaveBuddyUsers.OAuthUsername | backend/src/main/java/com/savebuddy/service/UserService.java:98 | the email's part before the first '@' plus "_" and the millis; fails when `split("@")` gives no part |
| SaveBuddyUsers.OAuthUsernameOfAddress | backend/src/main/java/com/savebuddy/service/OAuth2UserService.java:39 | for a well-formed address, the local part plus "_" and the millis |
| SaveBuddyUsers.BeforeOfPrefix | backend/src/main/java/com/savebuddy/service/OAuth2UserService.java:39 | the text before the first '@' is the local part |
| SaveBuddyUsers.Upsert | backend/src/main/java/com/savebuddy/service/OAuth2UserService.java:20-45 | on success the returned user has the email and is in the table; an existing email always succeeds without adding a row; a failure changes nothing |
| SaveBuddyUsers.UpsertExisting | backend/src/main/java/com/savebuddy/service/OAuth2UserService.java:21-28 | for an existing email only nickname and picture change |
| SaveBuddyUsers.UpsertNew | backend/src/main/java/com/savebuddy/service/OAuth2UserService.java:29-42 | a new email appends a user with level 1, experience 0, savings 0, target 100000, role USER, login type "GOOGLE" and the generated username |
| SaveBuddyUsers.UpsertKeepsRowsUnique | backend/src/main/java/com/savebuddy/service/OAuth2UserService.java:21-43 | the upsert keeps ids and emails unique, so an email never gets a second user |
| SaveBuddyUsers.UserRepository.constructor | backend/src/main/java/com/savebuddy/repository/OAuth2UserRepository.java:9-16 | an empty user table with unique rows |
| SaveBuddyUsers.UserRepository.SetRow | backend/src/main/java/com/savebuddy/service/UserService.java:57 | replaces one row, keeping its keys, and keeps the table valid |
| SaveBuddyUsers.UserService.constructor | backend/src/main/java/com/savebuddy/service/UserService.java:13-17 | a service over the given shared user table |
| SaveBuddyUsers.UserService.RegisterUser | backend/src/main/java/com/savebuddy/service/UserService.java:19-34 | rejects a taken username first, then a taken email; otherwise stores the user with level 1, experience 0 and savings 0 |
| SaveBuddyUsers.UserService.AddExperience | backend/src/main/java/com/savebuddy/service/UserService.java:44-60 | an unknown id fails and changes nothing; otherwise only that row becomes `Gained` |
| SaveBuddyUsers.UserService.UpdateTotalSavings | backend/src/main/java/com/savebuddy/service/UserService.java:63-71 | an unknown id fails and changes nothing; otherwise only that row's savings grow by the amount |
| SaveBuddyUsers.UserService.SaveOrUpdateOAuth2User | backend/src/main/java/com/savebuddy/service/UserService.java:79-110 | the result and the new table are `Upsert` of the old table |
| SaveBuddyUsers.UserService.UpdateMonthlyTarget | backend/src/main/java/com/savebuddy/service/UserService.java:123-131 | an unknown id fails; otherwise only that row's monthly target changes |
| SaveBuddyUsers.UserService.GetMonthlyTarget | backend/src/main/java/com/savebuddy/service/UserService.java:134-140 | fails iff no row has the id; otherwise that user's target |
| SaveBuddyUsers.OAuth2UserService.constructor | backend/src/main/java/com/savebuddy/service/OAuth2UserService.java:14-18 | a service over the given shared user table |
| SaveBuddyUsers.OAuth2UserService.SaveOrUpdateOAuth2User | backend/src/main/java/com/savebuddy/service/OAuth2UserService.java:20-45 | the result and the new table are `Upsert` of the old table |
| SaveBuddyUsers.OAuth2UserService.FindUserByEmail | backend/src/main/java/com/savebuddy/service/OAuth2UserService.java:48-50 | empty iff the email is not taken; otherwise the row with that email |
| SaveBuddyUsers.OAuth2UserService.UpdateMonthlyTarget | backend/src/main/java/com/savebuddy/service/OAuth2UserService.java:53-63 | an unknown email fails with "존재하지 않는 사용자입니다."; otherwise only the monthly target changes |
| SaveBuddyRecords.UserIdOf | backend/src/main/java/com/savebuddy/service/SavingRecordService.java:67-69 | the id of the user with the email; `optUser.get()` fails when there is none |
| SaveBuddyRecords.OfUser | backend/src/main/java/com/savebuddy/repository/SavingRecordRepository.java:16 | exactly the user's records |
| SaveBuddyRecords.TodayOf | backend/src/main/java/com/savebuddy/repository/SavingRecordRepository.java:18-21 | the user's records on today's date |
| SaveBuddyRecords.MonthOf | backend/src/main/java/com/savebuddy/repository/SavingRecordRepository.java:23-27 | the user's records in today's year and month |
| SaveBuddyRecords.TodayRecords | backend/src/main/java/com/savebuddy/service/SavingRecordService.java:66-76 | fails iff the email is unknown; otherwise the count is the list length and the total is the sum of today's records |
| SaveBuddyRecords.MonthRecords | backend/src/main/java/com/savebuddy/service/SavingRecordService.java:79-89 | fails iff the email is unknown; otherwise the count and the total of this month's records |
| SaveBuddyRecords.CreatedRecordIsToday | backend/src/main/java/com/savebuddy/service/SavingRecordService.java:35-76 | a record created now joins today's list and adds its amount to today's total |
| SaveBuddyRecords.CreatedRecordIsThisMonth | backend/src/main/java/com/savebuddy/service/SavingRecordService.java:35-89 | a record created now joins this month's list |
| SaveBuddyRecords.LatestRecords | backend/src/main/java/com/savebuddy/service/SavingRecordService.java:92-100 | fails iff the email is unknown; otherwise at most three records |
| SaveBuddyRecords.LatestRecordsProperties | backend/src/main/java/com/savebuddy/service/SavingRecordService.java:92-100 | three or all of the user's records, newest first, none newer left out |
| SaveBuddyRecords.WeekWindowIsSevenDays | backend/src/main/java/com/savebuddy/service/SavingRecordService.java:106-107 | the window runs from the start of today minus 6 days to the end of today |
| SaveBuddyRecords.WeekOf | backend/src/main/java/com/savebuddy/service/SavingRecordService.java:106-109 | the user's records inside the week window |
| SaveBuddyRecords.WeekStatus | backend/src/main/java/com/savebuddy/service/SavingRecordService.java:112-116 | keys are weekdays 1 to 7 |
| SaveBuddyRecords.WeekStatusPerDay | backend/src/main/java/com/savebuddy/service/SavingRecordService.java:112-116 | each weekday maps to the sum of its records, and is a key iff some record falls on it |
| SaveBuddyRecords.SumFromAdd | backend/src/main/java/com/savebuddy/service/SavingRecordService.java:112-116 | adding to one weekday raises the sum of the map by that amount |
| SaveBuddyRecords.WeekStatusTotal | backend/src/main/java/com/savebuddy/service/SavingRecordService.java:112-116 | the map's values sum to the window total |
| SaveBuddyRecords.WeekRecordsStatus | backend/src/main/java/com/savebuddy/service/SavingRecordService.java:103-119 | fails iff the email is unknown |
| SaveBuddyRecords.WeekRecordsStatusProperties | backend/src/main/java/com/savebuddy/service/SavingRecordService.java:103-119 | per-weekday sums over the 7-day window, summing to the window total |
| SaveBuddyRecords.WithoutRecord | backend/src/main/java/com/savebuddy/service/SavingRecordService.java:140 | drops exactly the record with that id |
| SaveBuddyRecords.IndexOfRecord | backend/src/main/java/com/savebuddy/service/SavingRecordService.java:136 | the first row with the id, or -1 exactly when none has it |
| SaveBuddyRecords.RemoveAt | backend/src/main/java/com/savebuddy/service/SavingRecordService.java:140 | with unique ids, deleting the found row is dropping the id, and ids stay unique |
| SaveBuddyRecords.SavingCredited | backend/src/main/java/com/savebuddy/service/SavingRecordService.java:52-53 | savings grow by the amount and XP by 10; the level and everything else are untouched |
| SaveBuddyRecords.ExpenseCharged | backend/src/main/java/com/savebuddy/service/ExpenseRecordService.java:52 | the total expense becomes the old one, or 0 when null, plus the amount; nothing else changes |
| SaveBuddyRecords.ExpenseRefundedAsWritten | backend/src/main/java/com/savebuddy/service/ExpenseRecordService.java:146-147 | as written, the delete takes the amount off the total savings and leaves the total expense |
| SaveBuddyRecords.ExpenseRefunded | backend/src/main/java/com/savebuddy/service/ExpenseRecordService.java:146-147 | corrected, the delete takes the amount off the total expense and leaves the savings |
| SaveBuddyRecords.ExpenseRoundTripAsWrittenDrifts | backend/src/main/java/com/savebuddy/service/ExpenseRecordService.java:135-157 | as written, creating then deleting a non-zero expense keeps the expense raised and lowers the savings |
| SaveBuddyRecords.ExpenseRoundTrip | backend/src/main/java/com/savebuddy/service/ExpenseRecordService.java:135-157 | corrected, creating then deleting an expense restores the user, apart from a null total becoming 0 |
| SaveBuddyRecords.RecordRepository.constructor | backend/src/main/java/com/savebuddy/repository/SavingRecordRepository.java:13 | an empty record table |
| SaveBuddyRecords.RecordRepository.Insert | backend/src/main/java/com/savebuddy/service/SavingRecordService.java:42-49 | appends the record with a fresh id and the creation instant |
| SaveBuddyRecords.RecordRepository.DeleteAt | backend/src/main/java/com/savebuddy/service/SavingRecordService.java:140 | the table becomes `WithoutRecord` of the deleted id |
| SaveBuddyRecords.OwnedAfterUserUpdate | backend/src/main/java/com/savebuddy/service/SavingRecordService.java:52-54 | updating a user in place keeps every record's owner present |
| SaveBuddyRecords.SavingRecordService.constructor | backend/src/main/java/com/savebuddy/service/SavingRecordService.java:23-33 | a service over the given record table and the shared user table |
| SaveBuddyRecords.SavingRecordService.CreateSavingRecord | backend/src/main/java/com/savebuddy/service/SavingRecordService.java:35-57 | an unknown email fails and saves nothing; otherwise the record is stored and the owner becomes `SavingCredited` |
| SaveBuddyRecords.SavingRecordService.DeleteSavingRecord | backend/src/main/java/com/savebuddy/service/SavingRecordService.java:135-147 | a missing record fails ("기록을 찾을 수 없습니다."), and so does another owner's email ("권한이 없습니다."), with nothing changed; otherwise only the record is removed and the totals are untouched |
| SaveBuddyRecords.ExpenseRecordService.constructor | backend/src/main/java/com/savebuddy/service/ExpenseRecordService.java:23-33 | a service over the given expense table and the shared user table |
| SaveBuddyRecords.ExpenseRecordService.CreateExpenseRecord | backend/src/main/java/com/savebuddy/service/ExpenseRecordService.java:35-57 | an unknown email fails and saves nothing; otherwise the record is stored and the owner becomes `ExpenseCharged` |
| SaveBuddyRecords.ExpenseRecordService.DeleteExpenseRecordAsWritten | backend/src/main/java/com/savebuddy/service/ExpenseRecordService.java:135-157 | as written: the same two failures, otherwise the record is removed and the owner's savings drop by its amount |
| SaveBuddyRecords.ExpenseRecordService.DeleteExpenseRecord | backend/src/main/java/com/savebuddy/service/ExpenseRecordService.java:135-157 | corrected: the same two failures, otherwise the record is removed and the owner's total expense drops by its amount |

## Left out

- XLSX sheet writing, file download, `toLocaleDateString` and `toLocaleTimeString` formatting are foreign calls. The date and time cells hold the record's instant, and the date texts in filenames are parameters.
- `new Date()`, `LocalDateTime.now()`, `System.currentTimeMillis()` and `crypto.randomUUID()` become parameters (`now`, `millis`, ids). Database-generated ids come from a counter.
- Calendar arithmetic ignores time zones and daylight-saving changes. `setDate(getDate() - n)` is treated as n times 24 hours.
- `JSON.parse` is modelled as a stored value that is missing, parsed or unparseable, not as text.
- Concurrency is modelled sequentially. This covers interleaved passes of the client evaluator, `synchronized` on `completeChallenge`, and the order inside `Promise.all`.
- Console logging and the `System.out.println` in the expense delete are left out.
- Java `Integer`/`Long` overflow is not modelled; integers are unbounded.
- `loginWithGoogle` only redirects the browser, so it is left out.
- These operations are plain repository pass-throughs and are left out: `allRecords`, `getCategorySavingsStats`, `getSavingRecordsByPeriod`, `getExpenseRecordsByPeriod`, `getUserById`, `getUserByEmail`, `getCurrentUser(session)`, `getUserChallengeCompletions`, and the `com.savebuddy` `updateUser`.
- The category statistics appear in the stores only as values they receive.
- `getCheckSinceTime` has a default branch returning now minus 1 day. No period reaches it, and a null period is not modelled.
- `getRecommendedChallenges` fails when the total is null, because `total + 100000` unboxes it. The model takes an integer total.
- Rows of equal rank are ordered as the table gives them. The model leaves open the order a database returns for the today, month and recommended queries, and among equal sort keys.
- ListPage.FilteredAndSortedOrder: stable sort order among equal keys is not stated. `localeCompare` is modelled as code-point lexicographic order, with no locale collation.
- The month label text `YYYY년 M월` is modelled as a year and month pair, not as formatted text.
- ListPage.Categories: a record whose category is itself "전체" makes the list hold "전체" twice, as the source does; the contract only states that the entries after the first are distinct.
- Pending keys are values of a datatype instead of joined strings, so two different keys can never render as the same string.
- SaveBuddyUsers.UserService.RegisterUser: any id on the incoming user is replaced by a fresh one; merging an existing id is not modelled. A missing username or email is the empty string.
- StopSaveUsers.UserService.RegisterUser: any id on the request body is replaced by a fresh one. The source binds the whole body and calls `save`, so a body carrying an existing row's id, with a free username and email, merges over that row and resets its level, experience and savings. That merge is not modelled.
- The `com.savebuddy` user entity is taken with a nullable `totalExpense` and a string `loginType`. This resolves a mismatch in the sources: `User.java` declares no `totalExpense` (only `UserDto.java` does) although `ExpenseRecordService.java` reads and sets it, and `UserService.java` uses `User.LoginType.GOOGLE` while `User.java` declares `loginType` as a string defaulting to "GOOGLE".
- The `stop.save` completion's `completedAt` is assumed to be the save instant. The entity fills it only through `@CreatedDate`, and no `stop.save` file in these sources enables JPA auditing (`com.savebuddy` does, in `SaveBuddyApplication.java`). Without auditing the column stays null against `nullable = false` and the insert fails; the model reaches that failure only through the failed-save outcome.
- SaveBuddyRecords.WeekWindowIsSevenDays: `LocalTime.MAX` is taken at millisecond resolution.
- The `UserRepository` that the `com.savebuddy` `UserService` uses is not part of this model's sources. It is modelled as the same user table that `OAuth2UserRepository` serves, with unique usernames and emails as `User.java` declares.
- The record owner in `com.savebuddy` is looked up through the user id stored on the record. The model keeps an invariant that this user exists.
- StopSaveCompletions.TotalRewards: only the empty case is stated in the contract; the sum is stated by StopSaveCompletions.NewCompletionTotals.

## Findings

| source | as written | input that shows it | evidently intended | confidence | as-written member | corrected member |
|---|---|---|---|---|---|---|
| backend/save/src/main/java/stop/save/service/SavingRecordService.java:58-61 | `getTodayTotalAmount` sums every record of the user, with no date filter | one record of 3000 at instant 0, queried at `now` = one day later: the result is 3000 | only records dated today are summed, giving 0 | not executed | StopSaveRecords.TodayTotalAsWrittenCountsOtherDays | StopSaveRecords.TodayTotalAmountAppend |
| backend/src/main/java/com/savebuddy/service/ExpenseRecordService.java:146-147 | deleting an expense subtracts its amount from `totalSavings` | any user; create an expense of 5000, then delete it: savings drop by 5000 and the total expense stays 5000 higher | the deleted amount comes off the total expense, as the comment on line 146 says | not executed | SaveBuddyRecords.ExpenseRoundTripAsWrittenDrifts | SaveBuddyRecords.ExpenseRoundTrip |
