# Task parser, task list and list view — a Dafny model

This project models the core of a small task manager written in TypeScript and React:

- **the rule-based parser** `parseTaskInput` (`src/utils/taskParser.ts`). It reads a free-form line such as "Call client for Rajeev tomorrow 5pm P1" and produces a task draft: a name, an optional assignee, an optional due date and a priority P1–P4.
  - It works in three passes. The first removes a priority token. The second removes an assignee: "to/for/by Name", or else the first capitalised word. The third removes a due date: the first of five date patterns that matches.
  - Whatever text remains, trimmed, becomes the name.
- **`matchesToDate`**, which turns a date pattern's match into a JavaScript `Date`. It works by running the setters `setFullYear`, `setMonth`, `setDate` and `setHours` on a copy of the current moment.
- **the four list updates** of the `TaskContext` provider: `addTask`, `updateTask`, `deleteTask` and `toggleTaskCompletion` (`src/context/TaskContext.tsx`).
- **the list view's `getSortedTasks`** (`src/components/TaskList.tsx`). It filters the tasks (all, completed or active), then sorts the filtered array in place by due date, priority, assignee or creation time, ascending or descending.

## Modules

- **`Wrappers`** declares `Option`.
- **`Text`** holds the string and number primitives the parser relies on:
  - `trim`, `indexOf`, `includes` and `replace` with a string pattern, which deletes the first occurrence only;
  - `toLowerCase` on ASCII;
  - `parseInt`;
  - JavaScript truthiness of numbers and of optional captures.
- **`Dates`** models a `Date` as a broken-down local moment, or the invalid date.
  - Each setter is specified by ECMAScript's time-value arithmetic (MakeDay/MakeDate, section 21.4.1 of ECMA-262). The new moment's time value is the day number of the requested day, which may be out of range, times the length of a day, plus the time within the day.
  - Out-of-range days, months and hours therefore roll over into neighbouring months and years, exactly as in JavaScript.
  - A `NaN` month or day makes the date invalid.
- **`Regex`** writes each regular expression of the parser as its own backtracking matcher over `seq<char>`.
  - Every choice point is a list of candidates in the order the engine tries them. A greedy quantifier tries the longest run first. An optional group tries "taken" before "skipped". An alternation tries left to right.
  - The first candidate whose continuation succeeds is kept, so each matcher returns the match the engine returns, captures included.
  - `String.prototype.match` without `g` is `Exec`: it returns the leftmost position where the pattern matches.
- **`TaskParser`** holds `parseTaskInput` and `matchesToDate`.
  - Each has a specification function, `Parse` and `DateOf`.
  - Each has a method that follows the source statement by statement, `ParseTaskInput` and `MatchesToDate`. The method is proved equal to its function.
  - Lemmas state what the functions do.
- **`TaskStore`** holds the `Task` record and the four list updates as functions from the old list to the new one, which is what the reducers passed to `setTasks` are.
- **`TaskView`** holds:
  - the filter;
  - the comparator, as `Array.prototype.sort` sees it;
  - an in-place insertion sort on an `array<Task>`, proved to leave the array sorted and a permutation of its old contents;
  - `GetSortedTasks`.

## What the proofs show

- **Name.** A blank input gives the default draft: empty name, no assignee, no due date, P3. Any other input gives a non-empty name with no surrounding whitespace. The name is the trimmed leftover text, or the trimmed input when nothing is left.
- **Priority.** The priority is the digit of the first "p1"–"p4" token, in either case. It is P3 when there is no such token.
- **Assignee.** An assignee is always a name of two or more ASCII letters.
  - "to/for/by Name" wins over a bare capitalised word.
  - Without it, the fallback pattern `/\b([A-Z][a-z]+)\b/`, which has no `i` flag, takes the leftmost capitalised word. A capitalised word at the start of the text is the assignee, whatever capitalised words follow it (`FirstCapitalisedWordWins`).
- **Due date.** There is a due date exactly when one of the five date patterns matches the text left after the first two passes. It comes from the first pattern that matches.
- **The time-only branch is unreachable.** The match of every date pattern contains "tomorrow", "today" or a month abbreviation, or has two numeric captures. So `matchesToDate` always takes one of its date branches, and its last branch, "a bare time means today at that time" (`taskParser.ts:221-234`), is never reached from `parseTaskInput`.
- **Clock.** The am/pm capture is read in lower case, so "5PM" and "5pm" read alike. The 12-hour to 24-hour conversion is a bijection between 1–12 am/pm and the hours 0–23. Other hours the clock pattern admits, such as "13pm" or "0am", are kept as written.
- **Years.** A year from 1 to 99 is read as 2001–2099. A year of 100 or more is kept as written. No year, or year 0, means the current year.
- **Calendar dates.**
  - A date is invalid exactly when its month or day is `NaN`.
  - Without a time it is due at 23:59:00.000.
  - When no setter has to roll over, it lands on exactly the requested day. With a clock, its time value is that day plus the clock time.
- **Setter order.** The setters run on a copy of now, year, then month, then day. So the month is first set with now's day of the month. On 31 January 2025, "2/15" is read as 15 March 2025, because 31 February rolls over to 3 March before the day is set (`MonthSetBeforeDay`).
- **List updates.**
  - `addTask` appends.
  - `updateTask` replaces every task with the id and keeps ids and order. It is idempotent, and a missing id changes nothing.
  - `deleteTask` removes exactly the tasks with the id and keeps every other task, counted with multiplicity and in its order: deleting from two lists joined is deleting from each (`DeleteTaskConcat`).
  - `toggleTaskCompletion` flips only the tasks with the id, and toggling twice restores the list.
- **View.**
  - "All" keeps the list. "Completed" and "active" partition it. Filtering keeps the order of the tasks it keeps (`FilterConcat`).
  - The comparator is antisymmetric for every option and direction. Descending order is ascending order with the arguments swapped. Missing due dates and assignees sort last in ascending order and first in descending order.
  - When no date is invalid, the comparator is transitive, and a sorted list is ordered between every pair, not only between neighbours.
  - The sort leaves the array sorted and a permutation of its old contents.

## Consequences of the code as written

- **Removal.** `input.replace(match[0], '')` is given a string, so it removes the first occurrence of the matched text. That occurrence can lie before the match itself (`RemovesFirstOccurrence`).
- **Bare times.** The bare-time branch of `matchesToDate` is taken only when the matched text contains no month abbreviation. It is never taken for a match of one of the five date patterns (`DatePatternsDecideBranch`).
- **The input hint.** The input form suggests "Finish landing page Aman by 11pm 20th June" (`src/components/TaskInput.tsx:100`). Its only "by" is followed by "11pm", not by a name, so the fallback pattern decides the assignee. That pattern takes the first capitalised word, so the code's assignee is "Finish", not "Aman" (`FirstCapitalisedWordWins` with `e` = 6). That this text has no "to/for/by Name" match is read off the text here; it is not a proved fact.

## Model

| member | source | states |
|---|---|---|
| Text.Trim | src/utils/taskParser.ts:9 | the result is the slice of the input after its leading whitespace run; everything cut off is whitespace; it neither starts nor ends with whitespace; it is empty exactly when the input is blank |
| Text.TrimIdempotent | src/utils/taskParser.ts:70-71 | trimming a trimmed string changes nothing |
| Text.IndexOf | src/utils/taskParser.ts:25 | the least index where the text occurs, none exactly when it occurs nowhere |
| Text.ReplaceFirst | src/utils/taskParser.ts:25 | deletes the first occurrence of the text and nothing else; leaves the string alone when it does not occur |
| Text.ParseInt | src/utils/taskParser.ts:96-97 | `NaN` exactly when there is no leading digit; the decimal value for a digit string; never negative |
| Text.DecimalValueBound | src/utils/taskParser.ts:94 | one or two digits (`\d{1,2}`) give a value below 100 |
| Dates.Roll | src/utils/taskParser.ts:90 | an out-of-range day is rolled to a real calendar day with the same day number; a real day is kept |
| Dates.YearLength | src/utils/taskParser.ts:154 | a year has 365 days, 366 in a leap year, and the next year starts that many days later |
| Dates.SetFullYear | src/utils/taskParser.ts:154 | the time value is that of the same month, day and time in the new year; no change but the year when that day exists |
| Dates.SetMonth | src/utils/taskParser.ts:155 | invalid exactly for a `NaN` month or an invalid date; the time value of the same day in the requested month, counted on from the year; exact when no rollover is needed |
| Dates.SetDate | src/utils/taskParser.ts:156 | invalid exactly for a `NaN` day or an invalid date; the time value of the requested day of the current month; exact when the day exists |
| Dates.SetHours | src/utils/taskParser.ts:104 | validity is kept; the time value is the current day plus the given hours and minutes; exact when they are in range |
| Regex.Exec | src/utils/taskParser.ts:22 | the match is at the leftmost position where the pattern succeeds; its text is the slice the attempt spans, with its captures; none exactly when no position succeeds |
| Regex.PriorityTokenAt | src/utils/taskParser.ts:22 | there is a match exactly when "p" or "P" and a digit 1–4 stand between two word boundaries; the match is those two characters, captured as group 1 |
| Regex.PrepositionNameAt | src/utils/taskParser.ts:29 | a match starts at a word boundary with "to", "for" or "by" in any case, then one or more spaces, then a name of two or more letters in either case that ends the match at a word boundary; the name is the only capture |
| Regex.CapitalizedWordAt | src/utils/taskParser.ts:34 | a match is exactly the word it captures, between two word boundaries: an upper-case letter, then one or more lower-case letters |
| Regex.CapitalizedWordFound | src/utils/taskParser.ts:34 | conversely, such a word between two word boundaries is matched where it starts, and the match is that word |
| Regex.NameEnd | src/utils/taskParser.ts:29 | the name ends at `e` exactly when a word boundary follows it; the capture is then a letter followed by one or more letters (upper case then lower case without the `i` flag) |
| Regex.RelativeDayAt | src/utils/taskParser.ts:48-50 | a match starts at a word boundary with "tomorrow" or "today" in any case, then a space; its only capture is the tail of the match after that space, ending in am/pm |
| Regex.DayMonthAt | src/utils/taskParser.ts:52 | group 1 is a run of digits; group 2 is a month abbreviation of the text after the start of the match |
| Regex.DayMonthBoundaries | src/utils/taskParser.ts:52 | a match starts and ends at a word boundary |
| Regex.MonthDayAt | src/utils/taskParser.ts:54 | a match starts and ends at a word boundary; group 1 is the month abbreviation it starts with, group 2 a run of digits |
| Regex.NumericDateAt | src/utils/taskParser.ts:56 | a match starts and ends at a word boundary and captures two digit runs as groups 1 and 2 |
| Regex.DayBeforeMonthAt | src/utils/taskParser.ts:137 | a match starts at a word boundary; group 1 is a run of digits and group 2 the month name in any case |
| Regex.ClockTimeAt | src/utils/taskParser.ts:94 | a match is non-empty; its captures are the one or two hour digits it starts with, the two minute digits after a colon that follows them, and the am/pm that ends it, required or optional |
| TaskParser.To24Hour | src/utils/taskParser.ts:100-102 | pm before 12 adds 12, 12 am is 0, every other reading is kept, including "13pm" and "0am" |
| TaskParser.ClockConversion | src/utils/taskParser.ts:100-102 | on 1–12 with am/pm the conversion gives an hour of the day, am exactly for the morning, and the 12-hour reading converts back |
| TaskParser.ClockConversionOnto | src/utils/taskParser.ts:100-102 | every hour of the day is the conversion of some 12-hour reading |
| TaskParser.ReadClock | src/utils/taskParser.ts:96-98 | hours and minutes are the decimal values of their digits, below 100, minutes 0 when absent; the period is the lower-cased am/pm capture, so "am" or "pm", present exactly when captured |
| TaskParser.ClockDigits | src/utils/taskParser.ts:96-97 | the hour and minute captures are below 100 |
| TaskParser.ApplyClock | src/utils/taskParser.ts:96-104 | the result's time value is the date's day plus the converted hours and the minutes; validity is kept |
| TaskParser.FindClock | src/utils/taskParser.ts:94 | a clock found has the clock's captures, with a period when one is required |
| TaskParser.ClockMatch | src/utils/taskParser.ts:94 | the captures of a clock match have the clock's shape |
| TaskParser.WithTime | src/utils/taskParser.ts:93-106 | a falsy time leaves the date unchanged; validity is always kept |
| TaskParser.YearRules | src/utils/taskParser.ts:141 | years 1–99 become 2001–2099; 100 and up are kept; no year or year 0 gives now's year |
| TaskParser.ParseGroup | src/utils/taskParser.ts:139 | an absent capture parses to `NaN`, a present one by `parseInt` |
| TaskParser.FirstMonthIn | src/utils/taskParser.ts:131-133 | the first month abbreviation the text includes, and none when it includes none |
| TaskParser.BranchOf | src/utils/taskParser.ts:89 | the chosen branch carries a month index below 12 or the clock's captures |
| TaskParser.MonthFromOne | src/utils/taskParser.ts:188 | one less than the parsed month, `NaN` exactly when it is `NaN` |
| TaskParser.SetClock | src/utils/taskParser.ts:96-104 | the step-by-step 24-hour conversion and `setHours` give `ApplyClock` |
| TaskParser.SetTimeFrom | src/utils/taskParser.ts:159-171 | setting the time from an optional capture gives `WithTime` |
| TaskParser.SetCalendar | src/utils/taskParser.ts:154-175 | year, month and day set in that order, then the time or 23:59, give `CalendarDate` |
| TaskParser.TomorrowBranch | src/utils/taskParser.ts:89-108 | "tomorrow" in the match gives now's next day at the capture's clock |
| TaskParser.TodayBranch | src/utils/taskParser.ts:111-128 | otherwise "today" gives now at the capture's clock |
| TaskParser.MonthBranch | src/utils/taskParser.ts:131-179 | otherwise the first month abbreviation included decides the date |
| TaskParser.NumericBranch | src/utils/taskParser.ts:182-219 | otherwise two truthy captures give the numeric date |
| TaskParser.ClockBranch | src/utils/taskParser.ts:221-237 | otherwise a clock with am/pm sets the time on now, and with none the date is now |
| TaskParser.TomorrowCase | src/utils/taskParser.ts:89-107 | the statements of the tomorrow branch give its specification |
| TaskParser.TodayCase | src/utils/taskParser.ts:111-127 | the statements of the today branch give its specification |
| TaskParser.MonthNameCase | src/utils/taskParser.ts:134-177 | day-first or month-first captures, then the setters, give `MonthNameDate` |
| TaskParser.NumericCase | src/utils/taskParser.ts:183-218 | month minus one, day, year, then the setters, give `NumericBranchDate` |
| TaskParser.MonthIndex | src/utils/taskParser.ts:132-133 | the loop over the month names finds the first one included |
| TaskParser.MatchesToDate | src/utils/taskParser.ts:84-238 | the method computes `DateOf` |
| TaskParser.PriorityOfToken | src/utils/taskParser.ts:24 | the upper-cased token's label is "P" and the token's digit |
| TaskParser.PriorityTokenShape | src/utils/taskParser.ts:22 | the priority match is two characters, "p" or "P" and a digit 1–4, and is its own group 1 |
| TaskParser.Remove | src/utils/taskParser.ts:25 | removing a match never lengthens the text |
| TaskParser.PriorityPass | src/utils/taskParser.ts:22-26 | the text left is no longer than the input |
| TaskParser.AssigneePass | src/utils/taskParser.ts:29-43 | the text left is no longer than the input |
| TaskParser.DatePass | src/utils/taskParser.ts:59-67 | the text left is no longer than the input |
| TaskParser.FirstDatePattern | src/utils/taskParser.ts:60-67 | the first date pattern that matches, and none when none does |
| TaskParser.TakePriority | src/utils/taskParser.ts:22-26 | the statements of the priority pass compute `PriorityPass` |
| TaskParser.TakeAssignee | src/utils/taskParser.ts:29-43 | the statements of the assignee pass compute `AssigneePass` |
| TaskParser.TakeDueDate | src/utils/taskParser.ts:59-67 | the loop over the date patterns computes `DatePass` |
| TaskParser.ParseTaskInput | src/utils/taskParser.ts:6-79 | the method computes `Parse` |
| TaskParser.RemovesFirstOccurrence | src/utils/taskParser.ts:25 | the text removed is the first occurrence of the matched text, at or before the match; exactly its length goes |
| TaskParser.BlankInput | src/utils/taskParser.ts:8-18 | blank input gives an empty name, no assignee, no due date, P3 |
| TaskParser.NameIsTrimmedAndNonEmpty | src/utils/taskParser.ts:70-72 | any other input gives a non-empty trimmed name no longer than the input: the text left by the three passes, trimmed, or the trimmed input when nothing is left |
| TaskParser.PriorityRule | src/utils/taskParser.ts:22-26 | the priority is the first "p1"–"p4" token's digit; P3 without one |
| TaskParser.AssigneeIsName | src/utils/taskParser.ts:29-43 | an assignee is a name of two or more letters |
| TaskParser.AssigneeRule | src/utils/taskParser.ts:29-43 | "to/for/by Name" takes precedence; else the first capitalised word; else no assignee |
| TaskParser.FirstCapitalisedWordWins | src/utils/taskParser.ts:32-39 | without "to/for/by Name", a capitalised word at the start of the text is the assignee, whatever capitalised words follow it |
| TaskParser.WordInSlice | src/utils/taskParser.ts:89 | a word found in any case inside the match is included in its lower-cased text |
| TaskParser.MonthInSlice | src/utils/taskParser.ts:133 | a month abbreviation inside the match stops the month loop |
| TaskParser.DateBranchSelected | src/utils/taskParser.ts:89-182 | "tomorrow", "today", a month name or two numbers select a date branch |
| TaskParser.RelativeDayMatch | src/utils/taskParser.ts:48-50 | the tomorrow and today matches include their word |
| TaskParser.DayMonthMatch | src/utils/taskParser.ts:52 | a day-month match includes a month abbreviation |
| TaskParser.MonthDayMatch | src/utils/taskParser.ts:54 | a month-day match includes a month abbreviation |
| TaskParser.NumericDateMatch | src/utils/taskParser.ts:56 | a numeric date match has two digit captures |
| TaskParser.DatePatternsDecideBranch | src/utils/taskParser.ts:221-234 | no date pattern's match reaches the time-only or fallback branch |
| TaskParser.DatePassRule | src/utils/taskParser.ts:59-67 | a due date is found exactly when some pattern matches; it is `DateOf` the first match, from a date branch |
| TaskParser.DueDateRule | src/utils/taskParser.ts:45-67 | there is a due date exactly when a date pattern matches the text left by the first two passes; it is the date of the first pattern that matches, from a date branch |
| TaskParser.TomorrowRule | src/utils/taskParser.ts:89-108 | "tomorrow" gives a valid date: the next day at the clock, or exactly one day after now |
| TaskParser.TodayRule | src/utils/taskParser.ts:111-128 | "today" gives a valid date: today at the clock, or now |
| TaskParser.EndOfDayDefault | src/utils/taskParser.ts:172-175 | without a time a calendar date is at 23:59:00.000 |
| TaskParser.CalendarDateValidity | src/utils/taskParser.ts:154-156 | a calendar date is invalid exactly when its month or day is `NaN` |
| TaskParser.CalendarDateLands | src/utils/taskParser.ts:154-175 | without rollover the date is the requested day at 23:59, or that day plus the clock |
| TaskParser.SettersLand | src/utils/taskParser.ts:154-156 | without rollover the three setters give the requested year, month and day |
| TaskParser.MonthSetBeforeDay | src/utils/taskParser.ts:195-197 | on 31 January 2025, "2/15" gives 15 March 2025 at 23:59 |
| TaskStore.NewTask | src/context/TaskContext.tsx:45-50 | the new task has the draft's fields, the given id and creation time, and is not completed |
| TaskStore.AddTask | src/context/TaskContext.tsx:44-54 | the new list is the old one with the new task appended; the new task is returned |
| TaskStore.AddTaskIds | src/context/TaskContext.tsx:52 | adding adds exactly the new id to the ids |
| TaskStore.UpdateTask | src/context/TaskContext.tsx:56-62 | every task with the id is replaced, every other task kept, in place |
| TaskStore.UpdateTaskIds | src/context/TaskContext.tsx:58-60 | the ids and their order are kept; a missing id changes nothing |
| TaskStore.UpdateTaskIdempotent | src/context/TaskContext.tsx:56-62 | updating twice is updating once |
| TaskStore.DeleteTask | src/context/TaskContext.tsx:64-66 | the remaining tasks are old tasks without the id, no more of them |
| TaskStore.DeleteTaskCounts | src/context/TaskContext.tsx:65 | every task without the id stays as often as it was there; every task with it goes |
| TaskStore.DeleteTaskConcat | src/context/TaskContext.tsx:65 | deleting from two lists joined is deleting from each, so the kept tasks stay in their order |
| TaskStore.DeleteTaskSingle | src/context/TaskContext.tsx:65 | a single task goes when it has the id and stays otherwise |
| TaskStore.DeleteMissing | src/context/TaskContext.tsx:65 | deleting a missing id changes nothing |
| TaskStore.DeleteTaskIds | src/context/TaskContext.tsx:65 | the remaining ids are among the old ones, and the id is gone |
| TaskStore.ToggleTaskCompletion | src/context/TaskContext.tsx:68-74 | only the tasks with the id have `completed` flipped |
| TaskStore.ToggleTwice | src/context/TaskContext.tsx:68-74 | toggling twice restores the list; ids and order are kept |
| TaskView.Filter | src/components/TaskList.tsx:21-26 | the kept tasks are tasks of the list that the option keeps |
| TaskView.FilterConcat | src/components/TaskList.tsx:21-26 | filtering two lists joined is filtering each, so the kept tasks stay in their order |
| TaskView.FilterSingle | src/components/TaskList.tsx:21-26 | a single task stays when the option keeps it and goes otherwise |
| TaskView.FilterAll | src/components/TaskList.tsx:22 | "all" keeps the list as it is |
| TaskView.FilterCounts | src/components/TaskList.tsx:21-26 | each kept task stays as often as it was there; the others go |
| TaskView.FilterPartition | src/components/TaskList.tsx:23-24 | "completed" and "active" split the list between them |
| TaskView.GetTime | src/components/TaskList.tsx:37 | `NaN` exactly for an invalid date, else the time value |
| TaskView.Minus | src/components/TaskList.tsx:37 | the difference, `NaN` when either side is |
| TaskView.Negate | src/components/TaskList.tsx:55 | the negation, `NaN` stays `NaN` |
| TaskView.PriorityRank | src/components/TaskList.tsx:40 | P1..P4 rank 0..3, the label's digit less one |
| TaskView.LocaleCompare | src/components/TaskList.tsx:47 | -1, 0 or 1, and 0 exactly for equal names |
| TaskView.LocaleCompareAntisymmetric | src/components/TaskList.tsx:47 | swapping the names negates the comparison |
| TaskView.LocaleCompareTransitive | src/components/TaskList.tsx:47 | the order on names is transitive |
| TaskView.CompareAntisymmetric | src/components/TaskList.tsx:29-56 | swapping the tasks negates the comparator's result, for every option and direction |
| TaskView.DescendingSwaps | src/components/TaskList.tsx:55 | descending is ascending with the tasks swapped |
| TaskView.NullsLast | src/components/TaskList.tsx:34-36 | a missing due date or assignee sorts after a present one ascending, before it descending; two missing ones tie |
| TaskView.PriorityOrder | src/components/TaskList.tsx:39-42 | by priority, ascending order is the rank order, ties exactly for equal priorities |
| TaskView.DatesCompareByTime | src/components/TaskList.tsx:37 | valid dates compare by time value; an invalid due date ties with any other |
| TaskView.CompareTransitive | src/components/TaskList.tsx:29-56 | without invalid dates the comparator is transitive |
| TaskView.SortedAllPairs | src/components/TaskList.tsx:29 | without invalid dates, in a sorted list every task compares at most 0 with every later one |
| TaskView.SortedJoin | src/components/TaskList.tsx:29 | two sorted runs with an ordered seam form a sorted list |
| TaskView.SortedPrefix | src/components/TaskList.tsx:29 | a prefix of a sorted list is sorted |
| TaskView.Inserted | src/components/TaskList.tsx:29 | once the moving task stops, the prefix up to it is sorted |
| TaskView.SwapKeepsOrder | src/components/TaskList.tsx:29 | moving an out-of-order task left keeps both runs sorted |
| TaskView.SwappedRun | src/components/TaskList.tsx:29 | after the swap, the run from the moved task on is sorted |
| TaskView.Swapped | src/components/TaskList.tsx:29 | exchanging two neighbours keeps every other task and the multiset |
| TaskView.SwapBack | src/components/TaskList.tsx:29 | one insertion step: the array is the old one with two neighbours swapped, with the same multiset |
| TaskView.SortInPlace | src/components/TaskList.tsx:29-56 | the array ends sorted by the comparator and is a permutation of its old contents |
| TaskView.GetSortedTasks | src/components/TaskList.tsx:19-57 | the result is sorted and is a permutation of the filtered tasks |

## Left out

- The OpenAI-based parser (`src/utils/openaiParser.ts`), the React components other than `getSortedTasks`, `localStorage` persistence and JSON revival of dates: user interface, network and storage, not logic of this core.
- `Date.now()` and `new Date()`: the new task's id and creation time and the parser's "now" are parameters.
- Time zones and daylight saving: every moment is local time, and a time value is counted from the local epoch. A time value is therefore the source's `getTime()` up to the constant offset of the time zone, which cancels in the comparisons.
- The `try`/`catch` around the passes: nothing in the model can throw, so the catch path is left out.
- `TaskView.LocaleCompare`: `localeCompare` is modelled as lexicographic order on character codes. A locale's collation, where different strings may compare equal and case may be ignored, is not modelled.
- `TaskView.SortInPlace`: the sort is an insertion sort. `Array.prototype.sort`'s own algorithm, its stability, and its implementation-defined order when the comparator is inconsistent (invalid dates tie with everything) are not modelled. Sortedness is stated between neighbours. Between every pair it is stated only for lists without invalid dates (`SortedAllPairs`).
- `Text.ParseInt`: `parseInt` is modelled as the value of the leading run of decimal digits. Leading whitespace, signs and radix prefixes are not modelled. The captures the parser hands to it are digit runs, month words or absent.
- `Text.LowerAscii`: `toLowerCase` lowers ASCII letters only. The matched texts it is applied to are compared with ASCII words.
- `TaskParser.RemovesFirstOccurrence`: it states what `replace` deletes and the length of the result, but not the trimmed name's content.
- `TaskParser.PriorityPass`, `TaskParser.AssigneePass`, `TaskParser.DatePass`: their own contracts state only that the text shrinks. Their outcomes are stated by `PriorityRule`, `AssigneeRule` and `DueDateRule`.
- Regex.PrepositionNameAt: states what every match looks like. It does not state the converse, that every such text is matched.
- Regex.RelativeDayAt: states the word, the boundary before it, the space after it and the capture that ends the match. It does not describe the optional "at" or the clock inside the capture, and does not state the converse.
- Regex.DayMonthAt: states groups 1 and 2. It does not describe the day suffix, the rest of the month word, or groups 3 and 4 (time and year), and does not state the converse.
- Regex.MonthDayAt: states the boundaries and groups 1 and 2. It does not describe groups 3 and 4 (year and time), and does not state the converse.
- Regex.NumericDateAt: states the boundaries and groups 1 and 2. It does not describe the separators or groups 3 and 4 (year and time), and does not state the converse.
- Regex.DayBeforeMonthAt: states the boundary and both groups. It does not describe the day suffix or the spaces, and does not state the converse.
- Regex.ClockTimeAt: states what the three captures are. It does not describe the spaces before am/pm, or which of several candidate clocks the engine takes.
- The matchers' contracts state what a match looks like. Which of several candidate ends a match takes, by the engine's backtracking order, is fixed by the matcher bodies, which try candidates in that order, and is not stated in a contract.
- `Dates.SetFullYear` on an invalid date: the source applies `setFullYear` only to a copy of now, which is valid.
