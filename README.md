# Household app: verified model of the page logic

This project models the in-memory logic of a Next.js household app in Dafny. The app's pages are:

- a budget and expense ledger;
- a task board with an experience-point (XP) and level game;
- a shopping list with a deals tab;
- a calendar of events with suggestions for the selected day;
- a simulated sign-in with household membership.

It also models the helper that turns a store name into an expense category.

Each page is one module:

- **`Expenses`**: budgets, expenses, the per-category spend of the picked month and the capped percentage.
- **`Tasks`**: tasks and the XP/level state machine.
- **`StoreMapping`**: `mapStoreToCategory`.
- **`Shopping`**: the shopping list.
- **`Calendar`**: events and the modal form.
- **`Auth`**: the user and household session.
- **`Deals`**: the offer filter, the empty-state message, the store link and the category icon.

Four shared modules support them:

- **`Basics`**: optional values and number fields.
- **`Seqs`**: order-preserving `filter` and counting.
- **`Text`**: the JavaScript string operations the pages use.
- **`Dates`**: civil dates, month ranges and the weekday.

State that a page replaces through React setters is modelled as a class. Its `seq`/`map`/`Option` fields are reassigned by the handler methods. Each method's `ensures` states the whole new state through pure functions of the old state, and the properties are proved about those functions. Pure helpers are modelled as functions with lemmas.

Modelling conventions:

- **Amounts** are integers (cents).
- **`Math.round(spent / amount * 100)`** for a positive amount is `(200*spent + amount) / (2*amount)` with floor division, which rounds halves up as `Math.round` does.
- **`Math.floor(x * 1.5)`** is `x + x / 2`.
- **Dates** are local calendar days `Date(year, month, day)` with a 1-based month.
- **Identifiers from `Date.now()`**, the invite code from `Math.random()` and "today" are parameters.

## Model

Some source expressions are plain definitions that the contracts below are stated in, and have
no row of their own: `Text.IsSpace` (the characters `trim` removes), `Text.LowerChar` and
`Text.UpperChar` (one character of `toLowerCase` and `toUpperCase`, used by `Text.Lower`,
`StoreMapping.Normalise` and `StoreMapping.CapitalizeWord`), `Dates.MonthStart` and
`Dates.InMonth` (the month range of app/expenses/page.tsx:85-91, characterised by
`Dates.InMonthIff` and used by `Expenses.Counts`), `Calendar.IsWeekend` (the `getDay` test of
app/calendar/page.tsx:86, used by `Calendar.Suggestions`), `Deals.Shown` (the offer filter of
app/shopping/components/DealsTab.tsx:80-82, used by `Deals.FilterOffers`), `Shopping.IsOpen`
(the `!i.completed` test, used by `Shopping.ItemsLeft`) and `Auth.JoinAccepts` (the code test of
app/context/AuthContext.tsx:105, characterised by `Auth.JoinAcceptsBmp` and used by
`Auth.Session.JoinHousehold`).

| member | source | states |
|---|---|---|
| Expenses.NewBudget | app/expenses/page.tsx:54-56 | no budget iff the raw category is empty or the amount field is blank; otherwise the id and amount are given, and the category is the trimmed input, with no space at either end |
| Expenses.BlankCategoryStoredEmpty | app/expenses/page.tsx:55-56 | a category of spaces only passes the untrimmed guard and is stored as the empty string |
| Expenses.NewExpense | app/expenses/page.tsx:65-74 | no expense iff the title is empty, the amount is blank or the date is missing; an empty category becomes "Uncategorized", otherwise the category is kept; the note is absent exactly when it was empty |
| Expenses.WithoutBudget | app/expenses/page.tsx:61-63 | every budget left has a different id and came from the list; every budget with a different id stays; without a match the list is unchanged |
| Expenses.WithoutBudgetKeepsOrder | app/expenses/page.tsx:62 | deleting distributes over concatenation, so the remaining budgets keep their order |
| Expenses.WithoutExpense | app/expenses/page.tsx:79 | every expense left has a different id and came from the list; every expense with a different id stays; without a match the list is unchanged |
| Expenses.WithoutExpenseKeepsOrder | app/expenses/page.tsx:79 | deleting distributes over concatenation, so the remaining expenses keep their order |
| Expenses.CategoryOf | app/expenses/page.tsx:92 | the key an expense is summed under is its own category when that is non-empty, and "Uncategorized" when it is empty |
| Expenses.Counts | app/expenses/page.tsx:85-91 | for an existing date, an expense counts iff a month is picked and the date has that month and the year the `Date` constructor reads |
| Expenses.Credit | app/expenses/page.tsx:93-94 | the category gets an entry of its old total (0 when absent) plus the amount; every other entry is unchanged and no other key appears |
| Expenses.Summary | app/expenses/page.tsx:88-96 | the fold over the expenses never has the empty category as a key (with SummaryMeaning: exactly the charged categories, with their totals) |
| Expenses.SpentFor | app/expenses/page.tsx:181 | a category without an entry reads as 0, otherwise as its entry |
| Expenses.SpentInAppend | app/expenses/page.tsx:89-96 | the month total of a category over a concatenation is the sum of the totals of the parts |
| Expenses.NoChargeNothingSpent | app/expenses/page.tsx:89-96 | a category with no expense in the month has a total of 0 |
| Expenses.SummaryMeaning | app/expenses/page.tsx:83-98 | the summary has an entry for a category iff some expense of the month is filed under it (empty category counted as "Uncategorized"), and the entry is the sum of those expenses' amounts |
| Expenses.SpentForIsMonthTotal | app/expenses/page.tsx:181 | the spent value a budget reads, with 0 for a missing entry, is the month total of its category |
| Expenses.OutOfMonthIgnored | app/expenses/page.tsx:89-91 | an expense outside the month range leaves the summary unchanged |
| Expenses.ComputeSummary | app/expenses/page.tsx:88-96 | the `forEach` loop over the expenses builds exactly the summary map |
| Expenses.RoundedShare | app/expenses/page.tsx:182 | the rounded share q is the nearest integer to 100·spent/amount, halves up: 2·amount·q − amount ≤ 200·spent < 2·amount·q + amount |
| Expenses.RoundedShareBounds | app/expenses/page.tsx:182 | the share is at least 100 once spent reaches the amount, and not negative for a non-negative spend |
| Expenses.Percentage | app/expenses/page.tsx:182 | 0 when the budget amount is at most 0; otherwise min(100, rounded share); hence never above 100, 100 once spent reaches the amount, and not negative for a non-negative spend |
| Expenses.NegativeSpendNegativePercentage | app/expenses/page.tsx:182 | there is no lower clamp: a spend of −50 against 200 shows −25 |
| Expenses.FoodBudgetScenario | app/expenses/page.tsx:83-98 | two June Food expenses (50, 30), a June Transport expense and a July Food expense give Food 80 at 40% of 200, and Transport 10 |
| Expenses.Ledger.constructor | app/expenses/page.tsx:21-22 | the page starts with no budgets and no expenses, and the summary matches the picked month |
| Expenses.Ledger.Line | app/expenses/page.tsx:180-182 | the line of a budget shows its category and amount, the month total of its category as spent, and the percentage of that total |
| Expenses.Ledger.AddBudget | app/expenses/page.tsx:54-59 | appends exactly the new budget, or changes nothing when a field is empty; expenses and the summary are kept |
| Expenses.Ledger.DeleteBudget | app/expenses/page.tsx:61-63 | the budgets become the filtered list; expenses and the summary are kept |
| Expenses.Ledger.AddExpense | app/expenses/page.tsx:65-77 | appends exactly the new expense, or changes nothing; the summary is recomputed for the new list |
| Expenses.Ledger.DeleteExpense | app/expenses/page.tsx:79 | the expenses become the filtered list; the summary is recomputed |
| Expenses.Ledger.SelectMonth | app/expenses/page.tsx:83-98 | picking a month reruns the summary for that month |
| Dates.ConstructorYear | app/expenses/page.tsx:86-87 | the `Date` constructor reads a year from 0 to 99 as 1900 plus it, and any other year as itself |
| Dates.NextMonthStart | app/expenses/page.tsx:86-87 | the end of the range is a valid first of a month after the start; for December it is January 1 of the year after the constructor's year; no valid date of another month lies between the start and it |
| Dates.InMonthIff | app/expenses/page.tsx:85-91 | a valid date lies in the range of a month iff it has that month and the year the constructor reads, December included |
| Dates.TwoDigitYearMonth | app/expenses/page.tsx:85-91 | the month "0024-06" covers 1924-06-10 and not 0024-06-10 |
| Dates.Weekday | app/calendar/page.tsx:86 | `getDay` is in 0..6 |
| Dates.NextDay | app/calendar/page.tsx:86 | the next calendar day is a valid date after the given one, with no valid date in between |
| Dates.MarchYearLength | app/calendar/page.tsx:86 | a March-based year has 366 days exactly when the February that ends it is a leap February |
| Dates.MonthBaseStep | app/calendar/page.tsx:86 | the first of the next month comes as many days after the first of a month as that month has |
| Dates.DayNumberOfNextDay | app/calendar/page.tsx:86 | the day count rises by exactly one from a day to the next, across month and year ends |
| Dates.WeekdayOfNextDay | app/calendar/page.tsx:86 | the next day has the next weekday, modulo 7, across month and year ends; with 1970-01-01 a Thursday this fixes every weekday |
| Dates.KnownWeekdays | app/calendar/page.tsx:86 | 1970-01-01 is a Thursday, 2024-06-01 a Saturday, 2024-06-03 a Monday |
| Tasks.Grow | app/tasks/page.tsx:84 | r = ⌊1.5·x⌋: 2r ≤ 3x < 2r + 2 |
| Tasks.Threshold | app/tasks/page.tsx:84 | the threshold of every level is at least the initial 100 |
| Tasks.Completed | app/tasks/page.tsx:73-93 | at most one level-up; the level rises iff currentXP + points reaches the threshold, and then the surplus is kept and the threshold becomes ⌊1.5·threshold⌋; otherwise the XP is the sum and the threshold stays; the completed count rises by 1 |
| Tasks.Uncompleted | app/tasks/page.tsx:94-101 | the level and threshold are unchanged; the XP and completed count drop by the points and by one, floored at 0 (a count of 0 or less becomes 0) |
| Tasks.CompletionConservesXP | app/tasks/page.tsx:75-93 | completing keeps the threshold matched to the level and adds exactly the completed item's points to the total XP earned |
| Tasks.UncompletionTakesBackXP | app/tasks/page.tsx:97-101 | un-completing keeps the threshold matched to the level and takes back the points, at most the XP of the current level |
| Tasks.UndoWithoutLevelUp | app/tasks/page.tsx:73-101 | without a level-up, un-completing exactly undoes a completion |
| Tasks.LevelUpNotUndone | app/tasks/page.tsx:73-101 | 20 points at 90/100 reach level 2 with 10/150, and un-completing leaves level 2 with 0 XP |
| Tasks.SingleLevelUpPerCompletion | app/tasks/page.tsx:80-86 | 300 points from 0/100 give level 2 with 200 XP against 150, not two level-ups |
| Tasks.FindTask | app/tasks/page.tsx:64 | none iff no task has the id; otherwise the first task with that id |
| Tasks.SetCompleted | app/tasks/page.tsx:69-71 | same length; the tasks with the id get the new flag, all others are unchanged |
| Tasks.WithoutTask | app/tasks/page.tsx:105-107 | the remaining tasks have a different id and came from the list; every task with a different id stays |
| Tasks.NewTask | app/tasks/page.tsx:49-57 | no task iff the title is white space only; otherwise an open task with the untrimmed title, the chosen points, no assignee and no due date |
| Tasks.TaskBoard.constructor | app/tasks/page.tsx:33-44 | the three demo tasks and the stats at level 1 with 15 of 100 XP |
| Tasks.TaskBoard.AddTask | app/tasks/page.tsx:49-61 | appends exactly the new task or changes nothing; the stats are kept |
| Tasks.TaskBoard.ToggleTask | app/tasks/page.tsx:63-103 | an unknown id changes nothing; otherwise the found task's flag is flipped on every task with its id, and the stats are completed or un-completed by its points; the level and threshold never decrease and stay matched |
| Tasks.TaskBoard.DeleteTask | app/tasks/page.tsx:105-107 | the tasks become the filtered list; the stats are untouched |
| StoreMapping.ExactMatch | lib/storeMapping.ts:21 | none iff no key equals the name; otherwise the category of the first entry with that key |
| StoreMapping.FirstContained | lib/storeMapping.ts:23-25 | none iff the name contains no key; otherwise the category of the first key in table order that the name contains |
| StoreMapping.CapitalizeWord | lib/storeMapping.ts:27 | an empty word becomes "undefined"; otherwise the first character is upper-cased and the rest kept |
| StoreMapping.CapitalizeWords | lib/storeMapping.ts:27 | the words are mapped one for one |
| StoreMapping.Fallback | lib/storeMapping.ts:27 | splitting the fallback on spaces gives the capitalised words of the untrimmed name, so the separators are kept |
| StoreMapping.Normalise | lib/storeMapping.ts:3 | the key is the trimmed name lower-cased character by character, so it has the trimmed name's length, no white space at either end and no upper-case letter |
| StoreMapping.NormaliseIdempotent | lib/storeMapping.ts:3 | normalising a normalised name changes nothing |
| StoreMapping.MapStoreToCategory | lib/storeMapping.ts:1-28 | missing or empty input gives "Uncategorized"; a matched name gives one of Groceries, Food, Eating Out, Online; an unmatched name gives the fallback |
| StoreMapping.Categorise | lib/storeMapping.ts:20-27 | over any table: an exact key gives its category, else the first contained key gives its category, else the fallback; a match in a table of known categories gives a known category |
| StoreMapping.CategoriseExact | lib/storeMapping.ts:21 | over any table, the first entry whose key equals the name decides |
| StoreMapping.CategoriseContained | lib/storeMapping.ts:23-25 | over any table without an exact key, the first key in table order that the name contains decides |
| StoreMapping.NormaliseClean | lib/storeMapping.ts:3 | a name without upper-case letters and without surrounding spaces is unchanged by normalisation |
| StoreMapping.ExactKeyDecides | lib/storeMapping.ts:3-21 | when the trimmed, lower-cased name is a key, the result is the category of the first entry with that key |
| StoreMapping.ContainedKeyDecides | lib/storeMapping.ts:20-25 | without an exact key, the result is the category of the first key in table order that the name contains |
| StoreMapping.PaddedUpperCaseName | lib/storeMapping.ts:3-21 | "  MIGROS " maps to Groceries |
| StoreMapping.ContainedKeyExample | lib/storeMapping.ts:23-25 | "migros zurich" maps to Groceries through containment |
| StoreMapping.FallbackCapitalises | lib/storeMapping.ts:27 | "corner shop" falls back to "Corner Shop" |
| StoreMapping.FallbackLeadingSpace | lib/storeMapping.ts:27 | " x" falls back to "undefined X" |
| Text.TrimEmptyIff | app/tasks/page.tsx:50 | a trimmed string is empty iff the string is all white space |
| Text.TrimStart | lib/storeMapping.ts:3 | a suffix of the string, everything dropped before it is white space, and it does not start with white space |
| Text.TrimEnd | lib/storeMapping.ts:3 | a prefix of the string, everything dropped after it is white space, and it does not end with white space |
| Text.Trim | lib/storeMapping.ts:3 | the string is white space, then the result, then white space, and the result has no white space at either end |
| Text.Lower | lib/storeMapping.ts:3 | lower-casing maps each character and keeps the length |
| Text.LowerIdempotent | lib/storeMapping.ts:3 | lower-casing twice equals lower-casing once, and leaves no upper-case letter |
| Text.Contains | lib/storeMapping.ts:24 | `includes` holds iff the needle occurs at some position |
| Text.Split | lib/storeMapping.ts:27 | `split` on one character gives at least one piece, none holding the separator |
| Text.Join | lib/storeMapping.ts:27 | the joined string starts with the first piece, followed by the separator when there are more pieces |
| Text.JoinSplit | lib/storeMapping.ts:27 | joining the pieces of a split with the separator gives the string back |
| Text.SplitJoin | lib/storeMapping.ts:27 | splitting a join of separator-free pieces gives the pieces back |
| Text.Utf16Length | app/context/AuthContext.tsx:105 | `length` counts UTF-16 code units: the number of characters plus one for each character beyond U+FFFF, so between the number of characters and twice it, and equal to it without such characters |
| Seqs.Filter | app/shopping/page.tsx:43 | the kept elements satisfy the predicate and come from the list; every satisfying element is kept; when all satisfy, the list is unchanged |
| Seqs.FilterAppend | app/shopping/page.tsx:43 | filtering distributes over concatenation |
| Seqs.Count | app/shopping/page.tsx:54 | the count is at most the length, and 0 iff no element satisfies the predicate |
| Seqs.CountIsFilterLength | app/shopping/page.tsx:54 | the count equals the length of the filtered list |
| Shopping.NewItem | app/shopping/page.tsx:20-28 | no item iff the input is white space only; otherwise an open item with the trimmed, non-empty text |
| Shopping.Toggled | app/shopping/page.tsx:34-40 | same length; items with the id are flipped, all others unchanged |
| Shopping.ToggleTwice | app/shopping/page.tsx:34-40 | toggling the same id twice restores the list |
| Shopping.WithoutItem | app/shopping/page.tsx:42-44 | the remaining items have a different id and came from the list; every item with a different id stays |
| Shopping.DeleteKeepsOrder | app/shopping/page.tsx:43 | deleting distributes over concatenation, so the rest keep their order |
| Shopping.ItemsLeft | app/shopping/page.tsx:54 | the count is at most the length, and 0 iff every item is completed |
| Shopping.ItemsLeftAfterPrepend | app/shopping/page.tsx:24-30 | an open item put in front raises the count by one, a completed one leaves it |
| Shopping.ToggleMovesCountByOne | app/shopping/page.tsx:35-39 | toggling the one item with an id moves the count by exactly one, up or down by its old flag |
| Shopping.ShoppingList.constructor | app/shopping/page.tsx:13-17 | the page starts with Milk, Eggs and the completed Bread |
| Shopping.ShoppingList.AddItem | app/shopping/page.tsx:20-32 | a blank input changes nothing; otherwise the new item is put in front of the unchanged list and the count of items left rises by 1 |
| Shopping.ShoppingList.ToggleItem | app/shopping/page.tsx:34-40 | the list becomes the toggled list |
| Shopping.ShoppingList.DeleteItem | app/shopping/page.tsx:42-44 | the list becomes the filtered list |
| Calendar.OrUndefined | app/calendar/page.tsx:56-57 | absent iff the value is missing or empty; otherwise the value itself |
| Calendar.NormaliseEvent | app/calendar/page.tsx:50-58 | a missing id, title, date or time gets its default, but an empty one is kept; a missing or empty type becomes "event"; an empty location or photo becomes absent |
| Calendar.LoadEvents | app/calendar/page.tsx:45-64 | one event per stored record, in order |
| Calendar.LoadAfterSave | app/calendar/page.tsx:144-148 | loading a saved event gives it back, except that an empty location or photo comes back absent |
| Calendar.BlankLocationNotRestored | app/calendar/page.tsx:194-203 | an event saved with an empty location does not load back equal to itself |
| Calendar.LoadSaveLoad | app/calendar/page.tsx:45-64 | loaded events survive saving and loading again unchanged |
| Calendar.Stored | app/calendar/page.tsx:146 | id, title, date, time and type are always written; location and photo are written exactly when present |
| Calendar.SaveAll | app/calendar/page.tsx:146 | one stored record per event, in order |
| Calendar.ApplyEdit | app/calendar/page.tsx:184-191 | same length; every event with the edited id takes the form's title, time, type, location, the selected date and the picked photo or none; all others are unchanged |
| Calendar.NewEvent | app/calendar/page.tsx:194-202 | the form's title, time and type on the selected day with the new id; the location is always present, possibly empty; a photo only when a non-empty one was picked |
| Calendar.Saved | app/calendar/page.tsx:180-208 | a create appends exactly the new event; an edit keeps the length and every event with another id, and every event with the edited id takes the form's fields, the selected date and the picked photo or none |
| Calendar.EditWithoutPhotoDropsPhoto | app/calendar/page.tsx:161-168 | editing without picking a photo drops the event's stored photo |
| Calendar.WithoutEvent | app/calendar/page.tsx:212 | the remaining events have a different id and came from the list; every event with a different id stays |
| Calendar.EventsForDay | app/calendar/page.tsx:217-219 | the events listed are on that day and came from the list; every event on that day is listed |
| Calendar.EventsForOtherDay | app/calendar/page.tsx:217-219 | adding an event on another day leaves a day's list unchanged |
| Calendar.Suggestions | app/calendar/page.tsx:85-108 | Saturday and Sunday give 5 suggestions starting with the 3 base ones; other days give 4 starting with the first 2 base ones; the ids are distinct |
| Calendar.SuggestionsOnKnownDays | app/calendar/page.tsx:86-87 | a Saturday gives 5 suggestions, a Monday 4 |
| Calendar.SuggestionForm | app/calendar/page.tsx:131-139 | type "shopping" iff the category is Shopping, else "event"; time 18:00; the suggestion's title and location (empty when it has none); the photo field kept |
| Calendar.CalendarPage.constructor | app/calendar/page.tsx:42-64 | the stored records are loaded, today is selected, the modal is closed and the form is blank |
| Calendar.CalendarPage.SelectDay | app/calendar/page.tsx:281 | only the selected date changes |
| Calendar.CalendarPage.EditForm | app/calendar/page.tsx:478-530 | only the form changes |
| Calendar.CalendarPage.OpenModal | app/calendar/page.tsx:161-178 | with an event, the form takes its fields except the photo and the event's date is selected; without one, the form is reset; the modal opens |
| Calendar.CalendarPage.AddSuggestion | app/calendar/page.tsx:131-139 | the form takes the suggestion, nothing is being edited, the modal opens, and the events and date are kept |
| Calendar.CalendarPage.SaveEvent | app/calendar/page.tsx:180-208 | an empty title changes nothing; otherwise the list becomes the saved list, the modal closes and the photo field is cleared |
| Calendar.CalendarPage.DeleteEvent | app/calendar/page.tsx:210-215 | while editing, removes the events with the edited id and closes the modal; otherwise changes nothing |
| Auth.DefaultAvatar | app/context/AuthContext.tsx:54 | the generated avatar is the avatar-service prefix followed by the name |
| Auth.DefaultAvatarInjective | app/context/AuthContext.tsx:54 | two names have the same generated avatar iff they are equal |
| Auth.NewUser | app/context/AuthContext.tsx:49-55 | the given id, name and email; a non-empty avatar is kept, a missing or empty one replaced by the generated one; the avatar is never empty |
| Auth.JoinAcceptsBmp | app/context/AuthContext.tsx:105 | for codes of Basic Multilingual Plane characters, a code is accepted iff it is the demo code or has six characters |
| Auth.JoinCodesAccepted | app/context/AuthContext.tsx:105 | "DEMO123", "ABC123" and "DEMO12" are accepted |
| Auth.JoinCodesRefused | app/context/AuthContext.tsx:105 | "DEMO124", "" and "DEMO1234" are refused |
| Auth.DemoHousehold | app/context/AuthContext.tsx:106-115 | id "demo-house", name "The Stonies", the given invite code, and the members Mom, Dad and then the user |
| Auth.Session.constructor | app/context/AuthContext.tsx:34-35 | nobody is signed in and there is no household |
| Auth.Session.IsAuthenticated | app/context/AuthContext.tsx:132 | holds iff a user is signed in |
| Auth.Session.Login | app/context/AuthContext.tsx:49-58 | the user becomes the new user; the household is kept |
| Auth.Session.LoginWithGoogle | app/context/AuthContext.tsx:60-73 | signs in the simulated Google account with its generated avatar |
| Auth.Session.Logout | app/context/AuthContext.tsx:75-81 | clears both the user and the household |
| Auth.Session.CreateHousehold | app/context/AuthContext.tsx:83-95 | without a user nothing changes; otherwise the household's only member is the user |
| Auth.Session.JoinHousehold | app/context/AuthContext.tsx:97-121 | succeeds iff a user is signed in and the code is accepted; then the household is the demo household with the user last; otherwise the household is unchanged |
| Deals.FilterOffers | app/shopping/components/DealsTab.tsx:80-82 | "All" keeps every offer; otherwise exactly the offers of the selected category are kept, and only offers from the list |
| Deals.FilterKeepsOrder | app/shopping/components/DealsTab.tsx:80-82 | filtering distributes over concatenation, so the kept offers keep their order |
| Deals.EmptyMessage | app/shopping/components/DealsTab.tsx:72-158 | no message iff the offers are loading or some offer is shown; with offers loaded, the "No offers found in" text naming the category; with none, the sales error if non-empty, else the default text |
| Deals.AllShowsEveryOffer | app/shopping/components/DealsTab.tsx:80-84 | with "All" selected and offers loaded, no empty-state message appears |
| Deals.Mentions | app/shopping/components/DealsTab.tsx:161 | a store can only be mentioned by a name at least as long, and an empty store name is mentioned by every name |
| Deals.MentionsIgnoresCase | app/shopping/components/DealsTab.tsx:161 | the match ignores case: lower-casing the store name or the key first gives the same answer |
| Deals.FirstMentioned | app/shopping/components/DealsTab.tsx:161 | the position of the first store that the lower-cased name mentions in lower case, with no earlier store mentioned, or the table length when none is |
| Deals.FirstLink | app/shopping/components/DealsTab.tsx:161 | none iff the lower-cased store name contains no lower-cased key; otherwise the link of the first such key |
| Deals.StoreLink | app/shopping/components/DealsTab.tsx:161 | "#" iff no key matches; otherwise the link of the first matching store in table order |
| Deals.CoopLink | app/shopping/constants.ts:3-9 | the store "Coop" gets the Coop offers page |
| Deals.UpperCaseCoopLink | app/shopping/components/DealsTab.tsx:161 | the store written "COOP" also gets the Coop offers page, after "Migros" is passed over |
| Deals.FindIcon | app/shopping/components/DealsTab.tsx:89 | none iff no category button has the offer's category; otherwise the icon of the first one that does |
| Deals.CategoryIcon | app/shopping/components/DealsTab.tsx:89 | a missing or unlisted category gets the package icon; a listed one gets its button's icon |
| Deals.UnknownCategoryIcon | app/shopping/constants.ts:11-18 | no category and "Drinks" get the package icon; "Dairy" gets the milk icon |

## Left out

- **Storage:**
  - All reads and writes of `localStorage`, and JSON parsing and printing, are not modelled.
  - The calendar's stored records are parsed values (`StoredEvent`), and saving is `Stored`/`SaveAll`.
  - The expenses page and the session start empty. Their restore on mount (app/expenses/page.tsx:39-48, app/context/AuthContext.tsx:40-47) is not modelled.
- **Non-string stored fields:** a stored calendar record whose fields are not strings (numbers stringified by `String(...)`) is not modelled.
- **Nondeterministic inputs:** `Date.now()` ids, the `Math.random()` invite code and the current date are parameters.
- **Dates:**
  - `new Date(string)` parsing and its UTC-versus-local shift are not modelled. Expense and event dates are local calendar days, so a date-only ISO string read in a timezone west of UTC is not modelled.
  - The month list at app/expenses/page.tsx:158-159 filters by the ISO-string prefix. That is a different test from the summary's local range and is not part of this model.
  - A cleared month picker (`None`) counts nothing, as invalid dates compare false.
- **Number parsing:** `Number(...)` of a field that is not a number (NaN) is not modelled. A number field is either blank or holds its value in cents. The percentage is modelled for integer cents, not floating point.
- **Case mapping:** lower- and upper-casing are ASCII only. Unicode case mapping (for example `ß` to `SS`) and `trim` on astral characters are not modelled. `s[0]` of a word that starts with an astral character (half a surrogate pair) is not modelled.
- **Store table:** it is the explicit ordered list of its 14 pairs. JavaScript object-prototype keys such as `constructor` are not modelled.
- **Shopping form:** clearing the form inputs after an add is not modelled. Those inputs are UI state.
- **Calendar:**
  - Tesseract OCR, `FileReader` and geolocation (app/calendar/page.tsx:117, 427-475) are not modelled. A picked photo enters through `EditForm`.
  - Month navigation, the grid of days and the suggestion tab's loading flag are display state and are left out.
- **Sign-in:** the 800 ms delay of `loginWithGoogle` is not modelled. `LoginWithGoogle` is the state after the delay.
- **Display:** JSX rendering, toasts, the progress bar (app/tasks/page.tsx:109) and `toFixed` formatting are not modelled.
- **Session invariant:** `Valid` is "no household without a user". It holds from the empty start, not for arbitrary restored storage.
- **Ledger features absent from the code:** app/expenses/page.tsx has no CSV import/export, savings pots, undo window, edit operations or "expense added" events; they are not modelled.
- **Expense category default:** `expenseCategory || 'Uncategorized'` replaces only the empty string, so a category of spaces only is kept as it is.
- **Summary record keys:** the summary is a plain object. A category named like an `Object.prototype` member (`toString`, `constructor`, `__proto__`) reads the inherited member instead of a missing entry, so its total is wrong or shows 0 (app/expenses/page.tsx:93-94, 181). The model's `map` treats every category as an ordinary key.
