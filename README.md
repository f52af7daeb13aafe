# FinMate pages, modelled in Dafny

FinMate is a personal-finance single-page app whose data are all mock values held in
component state. This project models the logic of its six core components:

- **Layout** (`layout.dfy`): the page frame shared by every page. It has the notification
  list with its unread count and "mark all read", the dark/light theme button (shown only
  after the first effect has run), and the sidebar rule that highlights the link whose
  href equals the location.
- **Budget** (`budget.dfy`): the budget planner. It covers the left-fold totals, the
  remaining amount and the overall percentage with its 80% warning and 90% red bar. Per
  category it covers the percentage, the strict over-budget rule, the bar value capped at
  100, the caption and the bar colour class (the first `text-` turned into `bg-`).
- **Goals** (`goals.dfy`): the goals page. It covers the add form with its guard, its
  append and its reset; `parseInt` of the target text; delete by id; and a goal's
  progress percentage.
- **DashboardWidgets** (`dashboard_widgets.dfy`):
  - The upcoming-bills list, with its delayed "pay" callback and the unpaid view.
  - The add-expense card: the statement upload is analysed after a delay and then
    confirmed in a category dialog; typed or spoken expense text is cleared after a delay
    when it contains "add".
- **Chat** (`chat.dfy`): the assistant chat. It covers sending (blank input and a reply
  still on its way are refused), the delayed reply, and the responder. The responder is a
  first-match keyword chain over the lower-cased query. The model also covers the archive
  rules of "new chat" and of opening a past session.
- **LoanEligibility** (`loan_eligibility.dfy`): the loan page. It covers the two sliders,
  the EMI at 10.5% a year over exact reals with `Math.round`, and the document uploads.
  A document goes from no status to pending to verified, and each card's spinner shows
  while its document is pending. All uploads also set and clear one shared `isAnalyzing`
  flag, which the page never reads.
- **Text** (`text.dfy`) and **Wrappers** (`wrappers.dfy`) hold the string operations
  (`toLowerCase`, `includes`, `replace`, `trim`, `slice`) and an `Option` type.

Each piece of state the source changes step by step becomes a field of a class, and each
click or change handler is a method. Each `setTimeout` callback is a separate completion method.
The class records which callbacks are due, as a counter or as a queue: callbacks with
equal delays run in the order they were scheduled. A completion method can only run when
one is due. Ids taken from `Date.now()` are parameters, and the current language is a
parameter as well.

The chat's send handler itself checks only for blank input. A pending reply blocks sending
because the submit button is then disabled, and a form whose default button is disabled
does not submit on Enter either. The model puts both conditions in `Send`.

## Model

| member | source | states |
|---|---|---|
| Text.LowerChar | client/src/pages/chat.tsx:92 | 'A'..'Z' become the matching letters 'a'..'z', the result is never upper case, and every other character is kept |
| Text.ToLower | client/src/pages/chat.tsx:92 | lower-casing keeps the length and lower-cases each character in place |
| Text.ToLowerIdempotent | client/src/pages/chat.tsx:92 | lower-casing twice is lower-casing once |
| Text.ToLowerAppend | client/src/components/dashboard-widgets.tsx:188 | lower-casing distributes over concatenation |
| Text.ToLowerOfLower | client/src/pages/chat.tsx:92 | text with no upper-case letter is unchanged by lower-casing |
| Text.OccursAtTail | client/src/pages/chat.tsx:102 | an occurrence after the first position is an occurrence in the tail |
| Text.Contains | client/src/pages/chat.tsx:102 | `includes`: a recursive scan for the pattern at each position; Text.ContainsIff and Text.ContainsInside state what it means |
| Text.ContainsIff | client/src/pages/chat.tsx:102 | `includes` holds exactly when the pattern occurs at some position |
| Text.ContainsInside | client/src/components/dashboard-widgets.tsx:188 | any text with the pattern inside it contains the pattern |
| Text.ReplaceFirst | client/src/pages/budget.tsx:166 | `replace` with a string pattern; Text.ReplaceFirstAt and Text.ReplaceFirstAbsent state its result |
| Text.ReplaceFirstAbsent | client/src/pages/budget.tsx:166 | `replace` of an absent pattern returns the text unchanged |
| Text.ReplaceFirstAt | client/src/pages/budget.tsx:166 | `replace` rewrites exactly the first occurrence and keeps everything around it |
| Text.TrimStart | client/src/pages/chat.tsx:64 | dropping leading white space never lengthens the text, and what is left does not start with white space |
| Text.TrimEnd | client/src/pages/chat.tsx:64 | dropping trailing white space never lengthens the text, and what is left does not end with white space |
| Text.TrimStartSuffix | client/src/pages/chat.tsx:64 | what is left after dropping leading white space is a suffix of the text, and all that was dropped is white space |
| Text.TrimEndPrefix | client/src/pages/chat.tsx:64 | what is left after dropping trailing white space is a prefix of the text, and all that was dropped is white space |
| Text.Trim | client/src/pages/chat.tsx:64 | `trim()`: leading, then trailing white space dropped; Text.TrimEmptyIff states when it is empty |
| Text.TrimStartEmptyIff | client/src/pages/chat.tsx:64 | dropping leading white space leaves nothing exactly when the text is all white space |
| Text.TrimEmptyIff | client/src/pages/chat.tsx:64 | `trim()` is empty, so falsy, exactly when the text is blank |
| Text.TrimEndKeepsNonSpaceHead | client/src/pages/chat.tsx:64 | trimming the end of text that starts with a non-space leaves it non-empty |
| Text.Prefix | client/src/pages/chat.tsx:187 | `slice(0, n)` is the first n characters, or the whole text when it is shorter |
| Layout.UnreadCount | client/src/components/layout.tsx:56 | the unread count never exceeds the number of notifications |
| Layout.UnreadCountZeroIff | client/src/components/layout.tsx:56 | the count is zero exactly when every notification is read |
| Layout.AllRead | client/src/components/layout.tsx:58-60 | "mark all read" keeps the list's length and sets `read` on each entry, changing nothing else |
| Layout.MarkAllReadClearsUnread | client/src/components/layout.tsx:58-60 | after "mark all read" the unread count is 0; ids, titles and messages keep their places |
| Layout.AllReadIdempotent | client/src/components/layout.tsx:58-60 | marking all read again changes nothing |
| Layout.InitialUnreadCount | client/src/components/layout.tsx:45-49 | the shipped notifications have two unread |
| Layout.NextTheme | client/src/components/layout.tsx:155 | the button switches to 'light' exactly from 'dark', and to 'dark' from anything else |
| Layout.NextThemeTwice | client/src/components/layout.tsx:155 | two presses return to 'dark' or 'light', and from any other value end on 'light' |
| Layout.ActiveLinks | client/src/components/layout.tsx:62-68 | every highlighted link is in the list and equals the location |
| Layout.IsActive | client/src/components/layout.tsx:65 | a link is highlighted when `location === href`; Layout.ActiveLinks and Layout.ActiveLinksCount state which links that selects |
| Layout.ActiveLinksCount | client/src/components/layout.tsx:62-68 | with distinct hrefs exactly one link is highlighted when the location is one of them, none otherwise |
| Layout.SidebarHighlightsOne | client/src/components/layout.tsx:86-97 | the sidebar's nine routes highlight exactly one link on their own routes and none elsewhere |
| Layout.Frame.constructor | client/src/components/layout.tsx:43-49 | the frame starts with the shipped notifications, the stored theme, and not mounted |
| Layout.Frame.Mount | client/src/components/layout.tsx:52-54 | the first effect sets `mounted` and changes nothing else |
| Layout.Frame.HasUnread | client/src/components/layout.tsx:189-197 | the bell's dot and the "Mark all read" button show exactly when some notification is unread |
| Layout.Frame.MarkAllRead | client/src/components/layout.tsx:58-60 | the list becomes its all-read version; theme and mount flag are untouched |
| Layout.Frame.ToggleTheme | client/src/components/layout.tsx:150-156 | once mounted the theme becomes the next theme; before that there is no button, so nothing changes |
| Budget.TotalsAppend | client/src/pages/budget.tsx:39-40 | the totals of a concatenation are the sums of the parts' totals |
| Budget.TotalsSingleton | client/src/pages/budget.tsx:39-40 | a one-category list totals that category's own spent and limit |
| Budget.TotalSpent | client/src/pages/budget.tsx:39 | the `reduce` sum of spent amounts; Budget.TotalsAppend and Budget.TotalsSingleton state its value on every list |
| Budget.TotalLimit | client/src/pages/budget.tsx:40 | the `reduce` sum of limits; Budget.TotalsAppend and Budget.TotalsSingleton state its value on every list |
| Budget.IsOver | client/src/pages/budget.tsx:125 | a category is over when spent is strictly above the limit; Budget.ProgressOverIff ties it to the percentage |
| Budget.Progress | client/src/pages/budget.tsx:124 | `spent / limit * 100`; Budget.ProgressOverIff and Budget.BarValue state what it shows |
| Budget.Remaining | client/src/pages/budget.tsx:101 | remaining plus spent is the limit; it is negative exactly when spending exceeds the limit |
| Budget.ProgressOverIff | client/src/pages/budget.tsx:124-125 | a category's percentage exceeds 100 exactly when it is over budget, and equals 100 exactly when spent equals limit |
| Budget.BarValue | client/src/pages/budget.tsx:164 | the bar value is at most 100 and at most the percentage; it equals the percentage exactly when not over, and is 100 when over |
| Budget.CaptionOf | client/src/pages/budget.tsx:169-177 | "Exceeded by" is shown exactly when over, with a positive excess; otherwise a non-negative amount left, and either amount adds up to spent and limit |
| Budget.IndicatorClassWithinBudget | client/src/pages/budget.tsx:166 | within budget, a `text-X` colour gives the bar class `bg-X`, and a colour without `text-` is used unchanged |
| Budget.IndicatorClass | client/src/pages/budget.tsx:166 | red when over, otherwise the colour with its first `text-` replaced by `bg-`; Budget.IndicatorClassWithinBudget states the result |
| Budget.PositiveLimitsPositiveTotal | client/src/pages/budget.tsx:40-41 | a non-empty list with positive limits has a positive total limit, so the overall percentage is defined |
| Budget.PercentAbove | client/src/pages/budget.tsx:41 | a percentage above k is the same as spent·100 > k·limit over the integers |
| Budget.UsedPercent | client/src/pages/budget.tsx:41 | `totalSpent / totalLimit * 100`; Budget.PercentAbove and Budget.RemainingNegativeIff give it exact integer meanings |
| Budget.ShowWarning | client/src/pages/budget.tsx:112 | the warning shows above 80%; Budget.ThresholdsExact states it as 5·spent > 4·limit |
| Budget.BarIsRed | client/src/pages/budget.tsx:110 | the bar is red above 90%; Budget.ThresholdsExact states it as 10·spent > 9·limit and that it implies the warning |
| Budget.ThresholdsExact | client/src/pages/budget.tsx:110-112 | the warning shows exactly when spent·100 > 80·limit, the bar is red exactly when spent·100 > 90·limit, and red implies the warning |
| Budget.RemainingNegativeIff | client/src/pages/budget.tsx:101-110 | the remaining amount is negative exactly when more than 100% is used |
| Budget.NoneOverMeansWithinTotal | client/src/pages/budget.tsx:39-40 | with no category over budget, the remaining amount is not negative |
| Budget.TotalOverHasCategoryOver | client/src/pages/budget.tsx:39-40 | an overall overrun implies some category is over its own limit |
| Budget.ShippedRollup | client/src/pages/budget.tsx:21-26 | the shipped data total 34500 of 40000, leave 5500, show the warning without a red bar, and only Shopping is over, by 1800; bar classes `bg-blue-500` and `bg-red-500` |
| Goals.DigitChar | client/src/pages/goals.tsx:40 | the digit character of k has digit value k |
| Goals.LeadingDigits | client/src/pages/goals.tsx:40 | `parseInt` reads the longest run of digits at the front, and stops at the first non-digit |
| Goals.Decimal | client/src/pages/goals.tsx:97 | the decimal text of a number is a non-empty run of digits |
| Goals.DigitsValueDecimal | client/src/pages/goals.tsx:40 | reading the decimal text of n gives n |
| Goals.LeadingDigitsOfRun | client/src/pages/goals.tsx:40 | reading stops exactly at the end of a run of digits |
| Goals.ParseIntDigits | client/src/pages/goals.tsx:40 | a run of digits followed by a non-digit reads as the run's value |
| Goals.ParseIntNegativeDigits | client/src/pages/goals.tsx:40 | after one minus sign, a run of digits reads as minus the run's value |
| Goals.ParseIntDecimal | client/src/pages/goals.tsx:40 | `parseInt` gives back n from the decimal text of n, and −n after a minus sign, whatever non-digit text follows |
| Goals.ParseIntNaN | client/src/pages/goals.tsx:40 | text starting with a character that is not a digit, space or sign is `NaN` |
| Goals.ParseInt | client/src/pages/goals.tsx:40 | `parseInt` of the target text: leading white space, an optional sign, then decimal digits, or NaN; Goals.ParseIntDecimal and Goals.ParseIntNaN characterise it |
| Goals.NewGoal | client/src/pages/goals.tsx:37-45 | the new goal has the fresh id, the form's title and type, the parsed target and current 0; trophy and purple exactly for a challenge, target icon and blue exactly for saving |
| Goals.CanAdd | client/src/pages/goals.tsx:35 | a goal is added only when both the title and the target are non-empty, the opposite of the early-return guard; Goals.GoalsPage.AddGoal states both outcomes |
| Goals.WithoutId | client/src/pages/goals.tsx:57 | delete never lengthens the list, and keeps exactly the goals with another id |
| Goals.WithoutIdAppend | client/src/pages/goals.tsx:57 | deleting keeps order: it works on each part of a list separately |
| Goals.WithoutIdAbsent | client/src/pages/goals.tsx:57 | deleting an id no goal has changes nothing |
| Goals.WithoutIdIdempotent | client/src/pages/goals.tsx:57 | deleting twice is deleting once |
| Goals.AddThenDeleteRestores | client/src/pages/goals.tsx:37-57 | deleting a goal just added under a fresh id gives back the previous list |
| Goals.GoalProgress | client/src/pages/goals.tsx:163 | the percentage is a number exactly when the target is a non-zero number, and then percentage·target = current·100 |
| Goals.ProgressReachedIff | client/src/pages/goals.tsx:163 | with a positive target the goal shows 100% or more exactly when current reaches the target |
| Goals.NewGoalStartsAtZero | client/src/pages/goals.tsx:163 | a new goal with a non-zero target starts at 0% |
| Goals.GoalsPage.constructor | client/src/pages/goals.tsx:25-32 | the page starts with the shipped goals, an empty form and the dialog closed |
| Goals.GoalsPage.SetOpen | client/src/pages/goals.tsx:73 | the dialog control sets only the open flag |
| Goals.GoalsPage.EditTitle | client/src/pages/goals.tsx:88 | typing a title changes only the form's title |
| Goals.GoalsPage.EditTarget | client/src/pages/goals.tsx:97 | typing a target changes only the form's target |
| Goals.GoalsPage.SelectType | client/src/pages/goals.tsx:107-115 | the type buttons change only the form's type |
| Goals.GoalsPage.AddGoal | client/src/pages/goals.tsx:34-49 | with an empty title or target nothing changes; otherwise exactly the new goal is appended, the dialog closes and the form resets |
| Goals.GoalsPage.Delete | client/src/pages/goals.tsx:56-57 | the list becomes the list without that id; form and dialog are untouched |
| DashboardWidgets.MarkPaid | client/src/components/dashboard-widgets.tsx:57 | paying keeps the length, marks paid every bill with that id, and leaves the others as they were |
| DashboardWidgets.MarkPaidIdempotent | client/src/components/dashboard-widgets.tsx:57 | paying a bill twice is paying it once |
| DashboardWidgets.Unpaid | client/src/components/dashboard-widgets.tsx:75 | the list shows exactly the bills that are not paid |
| DashboardWidgets.UnpaidAppend | client/src/components/dashboard-widgets.tsx:75 | the unpaid view keeps the list's order |
| DashboardWidgets.AllPaidIff | client/src/components/dashboard-widgets.tsx:98 | "All bills paid!" shows exactly when every bill is paid |
| DashboardWidgets.PaidBillLeavesView | client/src/components/dashboard-widgets.tsx:57-75 | once paid, a bill leaves the unpaid view; every other unpaid bill stays |
| DashboardWidgets.SettleAll | client/src/components/dashboard-widgets.tsx:56-57 | the corrected settlement, each callback marking its bill paid in the current list; DashboardWidgets.SettleAllPaysEach states that exactly the named bills end up paid |
| DashboardWidgets.SettleAllPaysEach | client/src/components/dashboard-widgets.tsx:50-57 | callbacks that update the current list mark paid exactly the bills named, and keep every other bill |
| DashboardWidgets.SettleAllAsWritten | client/src/components/dashboard-widgets.tsx:50-57 | callbacks that map the list captured at their clicks keep the list's length; the last payment's bill is paid, and every bill paid earlier in the run is left as it was in the snapshot, so that payment is lost; no payment leaves the list unchanged |
| DashboardWidgets.LostPayment | client/src/components/dashboard-widgets.tsx:50-57 | two payments started within the delay: as written the first bill is due again; the intended settlement pays both |
| DashboardWidgets.UpcomingBills.constructor | client/src/components/dashboard-widgets.tsx:44-49 | the widget starts with the shipped bills and no payment due |
| DashboardWidgets.UpcomingBills.StartPayment | client/src/components/dashboard-widgets.tsx:50-56 | a click schedules a callback carrying the list of that moment; the list is unchanged |
| DashboardWidgets.UpcomingBills.PaymentLandsAsWritten | client/src/components/dashboard-widgets.tsx:56-57 | the oldest callback replaces the list with the captured list, that bill paid |
| DashboardWidgets.UpcomingBills.PaymentLands | client/src/components/dashboard-widgets.tsx:56-57 | the corrected callback marks the bill paid in the current list |
| DashboardWidgets.UpcomingBills.AllBillsPaid | client/src/components/dashboard-widgets.tsx:98 | the "All bills paid!" line shows exactly when every bill is paid |
| DashboardWidgets.TwoQuickPaymentsAsWritten | client/src/components/dashboard-widgets.tsx:50-57 | the page's two quick payments leave Electricity due and Internet paid |
| DashboardWidgets.TwoQuickPayments | client/src/components/dashboard-widgets.tsx:50-57 | with the corrected callback both bills end up paid |
| DashboardWidgets.AddAnywhereClears | client/src/components/dashboard-widgets.tsx:188 | the word "add" in any case, anywhere in the text, schedules the clearing |
| DashboardWidgets.ClearsAfterLogging | client/src/components/dashboard-widgets.tsx:188 | `text.toLowerCase().includes("add")`; DashboardWidgets.AddAnywhereClears and DashboardWidgets.BankStatementUpload.VoiceExpense state its effect |
| DashboardWidgets.BankStatementUpload.constructor | client/src/components/dashboard-widgets.tsx:153-156 | the card starts idle, with no file, no dialog, an empty field and nothing due |
| DashboardWidgets.BankStatementUpload.ChooseFile | client/src/components/dashboard-widgets.tsx:158-170 | without a file or while analysing nothing changes; otherwise the file name is kept, the spinner starts and one analysis is due |
| DashboardWidgets.BankStatementUpload.AnalysisDone | client/src/components/dashboard-widgets.tsx:165-168 | the analysis ends: spinner off, dialog open, file kept |
| DashboardWidgets.BankStatementUpload.ConfirmCategory | client/src/components/dashboard-widgets.tsx:172-173 | confirming closes the dialog and changes nothing else |
| DashboardWidgets.BankStatementUpload.SetCategoryModal | client/src/components/dashboard-widgets.tsx:263 | the dialog control sets only the dialog flag |
| DashboardWidgets.BankStatementUpload.TypeExpense | client/src/components/dashboard-widgets.tsx:216 | typing sets only the field |
| DashboardWidgets.BankStatementUpload.VoiceExpense | client/src/components/dashboard-widgets.tsx:181-198 | the field shows the text; a clearing is scheduled exactly when the lower-cased text contains "add" |
| DashboardWidgets.BankStatementUpload.ClearingDone | client/src/components/dashboard-widgets.tsx:189-190 | the delayed clearing empties the field, whatever it holds by then |
| DashboardWidgets.UploadFlow | client/src/components/dashboard-widgets.tsx:158-173 | choosing a file starts the analysis, its end opens the dialog with the file's name, and confirming closes it |
| Chat.FirstMatch | client/src/pages/chat.tsx:102-178 | first-match dispatch: the index found is that of a matching group, and no earlier group matches |
| Chat.MatchesAny1 | client/src/pages/chat.tsx:113 | a one-keyword group matches exactly when the query contains its keyword |
| Chat.MatchesAny2 | client/src/pages/chat.tsx:107 | a two-keyword group matches exactly when the query contains either keyword |
| Chat.MatchesAny3 | client/src/pages/chat.tsx:102 | a three-keyword group matches exactly when the query contains one of them |
| Chat.MatchesAny4 | client/src/pages/chat.tsx:119 | a four-keyword group matches exactly when the query contains one of them |
| Chat.TopicOfIsFirstMatch | client/src/pages/chat.tsx:102-180 | the responder's chain answers with the topic of the first keyword group in the query, and the fallback when none is there |
| Chat.TopicOf | client/src/pages/chat.tsx:102-180 | the if-chain of `includes` tests; Chat.TopicOfIsFirstMatch proves it is first-match dispatch over the keyword groups |
| Chat.Reply | client/src/pages/chat.tsx:102-180 | the reply of each topic in the current language; Chat.ReplyLanguages states the language choice |
| Chat.GenerateResponse | client/src/pages/chat.tsx:91-181 | the reply to the lower-cased query; Chat.ResponseIgnoresCase, Chat.HiGreets and Chat.SubstringGreetsFirst state its behaviour |
| Chat.ResponseIgnoresCase | client/src/pages/chat.tsx:92 | the reply does not depend on the case of the query |
| Chat.ReplyLanguages | client/src/pages/chat.tsx:95-132 | greetings follow the current language with English as the fallback (Bengali gets English); weather, joke and investment replies are in Hindi exactly for 'hi' |
| Chat.SubstringGreetsFirst | client/src/pages/chat.tsx:102-119 | matching is by substring and greetings come first: "this fund" gets a greeting |
| Chat.HiGreets | client/src/pages/chat.tsx:92-102 | any query starting "Hi" or "HI" gets a greeting |
| Chat.ArchiveTitle | client/src/pages/chat.tsx:187 | a text title is the first 20 characters plus "...", so at most 23 characters; markup gives "New Chat" |
| Chat.ArchiveTitleLength | client/src/pages/chat.tsx:187 | a message of 20 or more characters gives a 23-character title; a shorter one is kept whole |
| Chat.Truthy | client/src/pages/chat.tsx:184 | `content` is truthy unless it is the empty string; markup is always truthy |
| Chat.ShouldArchive | client/src/pages/chat.tsx:184 | the conversation is archived when it has a second message with truthy content; Chat.ChatPage.StartNewChat and Chat.ChatPage.LoadSession state both outcomes |
| Chat.Archived | client/src/pages/chat.tsx:185-190 | an archived session keeps the fresh id, the whole conversation and its title |
| Chat.ExtendsTransitive | client/src/pages/chat.tsx:191-211 | putting sessions in front, again and again, keeps the older history as a suffix |
| Chat.ChatPage.constructor | client/src/pages/chat.tsx:28-61 | the page starts with empty input, no reply pending, the two shipped sessions, none selected, and the welcome message |
| Chat.ChatPage.SetInput | client/src/pages/chat.tsx:317-319 | typing or dictating sets only the input |
| Chat.ChatPage.Send | client/src/pages/chat.tsx:63-76 | blank input or a pending reply change nothing; otherwise exactly the raw input is appended as a user message, the input clears, and the reply is scheduled with that query and language |
| Chat.ChatPage.ReplyArrives | client/src/pages/chat.tsx:78-88 | exactly one assistant message, the response to the query sent, is appended to the conversation showing now, and typing stops |
| Chat.ChatPage.StartNewChat | client/src/pages/chat.tsx:183-200 | a conversation where the user spoke is archived in front of the history; the page then shows only the welcome and no session is selected |
| Chat.ChatPage.LoadSession | client/src/pages/chat.tsx:202-215 | the current conversation is archived only when it is not a loaded session and the user spoke in it; the chosen session is shown and selected |
| Chat.Exchange | client/src/pages/chat.tsx:63-89 | sending a short "Hi…" message yields the welcome, that message and the greeting, and a new chat archives it as the text plus "..." |
| LoanEligibility.InitialValuesOnSliders | client/src/pages/loan-eligibility.tsx:13-14 | the start values 5,00,000 and 24 months are slider positions |
| LoanEligibility.Pow | client/src/pages/loan-eligibility.tsx:20 | `Math.pow(1 + r, n)` over exact reals; LoanEligibility.PowAdd, LoanEligibility.PowAboveOne and LoanEligibility.PowMinusOne state its laws |
| LoanEligibility.PowAboveOne | client/src/pages/loan-eligibility.tsx:20 | (1+r)^n is above 1 for n ≥ 1, so the EMI's denominator is positive |
| LoanEligibility.Emi | client/src/pages/loan-eligibility.tsx:17-20 | the EMI formula is defined for every tenure of a month or more, and is positive for a positive amount |
| LoanEligibility.EmiLinear | client/src/pages/loan-eligibility.tsx:20 | the EMI is linear in the amount borrowed |
| LoanEligibility.PowMinusOne | client/src/pages/loan-eligibility.tsx:20 | x^n − 1 = (x − 1)·(1 + x + … + x^(n−1)) |
| LoanEligibility.GeometricBound | client/src/pages/loan-eligibility.tsx:20 | 1 + x + … + x^(n−1) ≤ n·x^(n−1) for x > 1 |
| LoanEligibility.RepaymentExceedsPrincipal | client/src/pages/loan-eligibility.tsx:20 | over the tenure, n·EMI exceeds the amount borrowed |
| LoanEligibility.EmiAtLeastRate | client/src/pages/loan-eligibility.tsx:20 | each instalment exceeds a month's interest on the whole amount |
| LoanEligibility.Round | client/src/pages/loan-eligibility.tsx:21 | `Math.round` gives the integer within one half of the value, halves rounded up |
| LoanEligibility.CalculateEmi | client/src/pages/loan-eligibility.tsx:17-22 | at any slider position the EMI shown is at least 1 and within one half of the exact EMI |
| LoanEligibility.PowAdd | client/src/pages/loan-eligibility.tsx:20 | `Math.pow(1 + r, a + b)` is the product of the two powers, so (1+r)^24 can be built by squaring |
| LoanEligibility.InitialEmi | client/src/pages/loan-eligibility.tsx:13-21 | at the opening values, 5,00,000 over 24 months, the page shows an EMI of 23,188 |
| LoanEligibility.Click | client/src/pages/loan-eligibility.tsx:28 | a click marks pending only a document with no status, and changes no other entry |
| LoanEligibility.Finish | client/src/pages/loan-eligibility.tsx:38 | a completion marks that document verified and changes no other entry |
| LoanEligibility.ClickMovesForward | client/src/pages/loan-eligibility.tsx:130 | a click moves no document back and at most one step forward; verified is terminal |
| LoanEligibility.FinishMovesForward | client/src/pages/loan-eligibility.tsx:38 | a completion of a pending document moves no document back and at most one step forward |
| LoanEligibility.LoanPage.constructor | client/src/pages/loan-eligibility.tsx:13-24 | the page starts at 5,00,000 over 24 months, idle, with no document status |
| LoanEligibility.LoanPage.ShownEmi | client/src/pages/loan-eligibility.tsx:103 | the EMI shown is at least 1 and within one half of the exact EMI of the sliders |
| LoanEligibility.LoanPage.SetLoanAmount | client/src/pages/loan-eligibility.tsx:69-75 | the amount slider sets only the amount, to one of its positions |
| LoanEligibility.LoanPage.SetTenure | client/src/pages/loan-eligibility.tsx:87-93 | the tenure slider sets only the tenure, to one of its positions |
| LoanEligibility.LoanPage.ClickDocument | client/src/pages/loan-eligibility.tsx:26-36 | a document with a status ignores the click; otherwise it turns pending, the shared flag the page sets and never reads is set, and its analysis is queued; pending stays exactly the queued documents |
| LoanEligibility.LoanPage.UploadFinished | client/src/pages/loan-eligibility.tsx:36-44 | the oldest analysis ends: its document is verified and the shared flag (set and never read) is cleared even if others are pending |
| LoanEligibility.TwoUploads | client/src/pages/loan-eligibility.tsx:35-38 | after two clicks and one completion the shared flag is false while the second document is still pending, so its card still spins |

## Left out

- `server/index.ts`, `server/static.ts`, `drizzle.config.ts`, `App.tsx` and the static and
  context pages are not part of this model.
- The speech input component (`speech-input.tsx`) is an outside source of text. The model
  gets its recognised text as a parameter.
- Rendering, markup, icons, CSS classes other than the computed bar classes, and every
  toast are left out. They hold no state the logic reads.
- Dates and timestamps (`new Date()`, the session dates) are left out: they are clock
  readings. The ids taken from `Date.now()` are parameters.
- Timer delays (1500, 2000 and 2500 ms) are not modelled as time. Only the order in which
  callbacks run is kept: equal delays run first in, first out.
- The pay button's toast before the delay is left out. The stale list it captures is
  modelled and reported under Findings.
- Text.ToLower: JavaScript's `toLowerCase` folds all of Unicode; the model folds only
  ASCII A–Z.
- Text.TrimStart, Text.TrimEnd, Text.Trim, Text.IsSpace, Text.IsBlank, Text.TrimStartSuffix,
  Text.TrimEndPrefix, Text.TrimStartEmptyIff, Text.TrimEmptyIff, Text.TrimEndKeepsNonSpaceHead:
  JavaScript's `trim` also drops Unicode spaces and line terminators beyond
  the six ASCII white-space characters the model knows.
- Text.Prefix: `slice` counts UTF-16 code units; the model counts characters.
- Goals.LeadingDigits: `parseInt` also reads hexadecimal after "0x". A number input never
  produces that, so the model reads decimal digits only.
- Budget.ProgressOverIff: the page divides by the limit without a guard. The model asks
  for a positive limit; the shipped categories all have one.
- Budget.ThresholdsExact: stated for a positive total limit only, for the same reason.
- `Math.round` and `Math.pow` on floats, `toLocaleString`, and the displayed rounding of
  percentages are left out. The model computes over exact reals and applies `Math.round`
  to the exact EMI.
- The budget page's `handleCreateBudget` only closes the dialog and shows a toast. Its
  dialog state is left out.
- The dashboard charts and their mock series are left out.
- Chat.ReplyLanguages: a language code naming a property every JavaScript object has
  (such as "constructor") would find that property in the greetings object. The model
  treats only the four keys as present.
- The investment-plan and bank-contact replies are markup. The model records which of
  them was given (and, for the plans, whether in Hindi), not their contents.

## Findings

| source | as written | input that shows it | evidently intended | confidence | as-written member | corrected member |
|---|---|---|---|---|---|---|
| client/src/components/dashboard-widgets.tsx:56-57 | the payment callback maps the `bills` captured when Pay was clicked and replaces the list with the result | pay Electricity, then Internet, within the 1.5-second delay: Electricity is shown as due again | every payment made stays paid | medium, not executed | DashboardWidgets.SettleAllAsWritten | DashboardWidgets.SettleAll |
