# Subscription tracker core, modelled in Dafny

This project models the logic of an Android app that tracks paid subscriptions. Each subscription has a service name, an amount in some currency, a payment cycle (monthly, half-yearly or yearly), a first payment date, a usage level and a note.

The model covers:

- **Payment-date projection** (`NextPaymentCalculator`). The first payment date is advanced cycle by cycle until it lies strictly after today. The loop is capped at 1001 steps. The day is clamped to the month length after each step. The model also counts the days from today to the projected date.
- **The read-side aggregations** of `SubscriptionRepository`, each over one snapshot of the subscription and exchange-rate tables:
  - the next-payment list, sorted by its date text;
  - the cost-per-use ranking;
  - the normalised monthly total;
  - the total still to be paid this month;
  - the total for a given month;
  - the per-subscription breakdown of a given month.
- **Small codecs**: the usage-level to count mapping (`UsageFrequency`) and the payment-cycle name converter (`Converters`).
- **The add/edit form** (`AddEditViewModel`): its state, the field setters, the validation that fills an error map, and the record a save inserts or updates.
- **The detail screen** (`DetailViewModel`): the rate lookup, the monthly amount and cost-per-use arithmetic, and the state changes of loading and deleting.
- **The dashboard card preferences** (`DashboardPreferencesRepository`) and the settings screen's card moves (`SettingsViewModel`).

Modules, one file each unless noted:

- `Wrappers`: Option and Result. Kotlin's `map`/`sumOf` with a throwing lambda, as `MapAll`, where the first failure escapes. `mapNotNull`.
- `Text`: the Kotlin string operations the core uses: `isBlank`, `trim`, `toIntOrNull`, `split`, `joinToString` and string comparison.
- `Calendar`: proleptic Gregorian dates with `java.time`'s `plusMonths`/`plusYears` clamping and the epoch day count.
- `IsoDate`: the strict `ISO_LOCAL_DATE` formatter and parser. This includes signed years of more than four digits and the year range of ±999,999,999.
- `Model`, `Usage`, `Converters` (in `model.dfy`): the entities and their codecs. A thrown exception becomes an `Err` carrying a `Failure`.
- `Sorting`: Kotlin's stable `sortedBy`/`sortedByDescending` over a total preorder, plus `sumOf` and `take`.
- `Calculator`: the projection as a function and as the source's `while` loop, proved equal.
- `Repository`: the six aggregations. The monthly total and breakdown are also written as the source's loops and proved equal to their specifying functions.
- `AddEdit`, `Detail`, `DashboardPrefs`, `Settings`: the view models and the preference store, as classes whose fields the methods update.

"Today" is a parameter everywhere the source reads the clock. Amounts, rates and cost-per-use values are real numbers. An infinite cost per use is its own constructor.

One consequence of the source appears in the model: the remaining-this-month total never counts a payment due today. Every next-payment date is strictly after today, so the check "not before today" never sees today's date (`Repository.RemainingThisMonthTotalSpec`, `Repository.NothingRemainsOnLastDay`).

## Model

| member | source | states |
|---|---|---|
| Wrappers.MapAll | app/app/src/main/java/com/example/subscription/data/repository/SubscriptionRepository.kt:34-46 | Mapping with a lambda that may throw succeeds exactly when every element succeeds, with one value per element in order; a failure is the failure of some element |
| Wrappers.MapAllPrefixFails | app/app/src/main/java/com/example/subscription/data/repository/SubscriptionRepository.kt:182-222 | Once an element fails, the elements after it do not matter: the whole mapping fails as its prefix does |
| Wrappers.MapAllSameFailures | app/app/src/main/java/com/example/subscription/data/repository/SubscriptionRepository.kt:137-164 | Two lambdas that fail on the same elements with the same failures give mappings that fail alike |
| Wrappers.MapAllSnoc | app/app/src/main/java/com/example/subscription/data/repository/SubscriptionRepository.kt:182-222 | Mapping one more element extends a successful mapping by that element's value, or fails with its failure |
| Wrappers.Somes | app/app/src/main/java/com/example/subscription/data/repository/SubscriptionRepository.kt:137-164 | `mapNotNull` keeps a value exactly when it occurs as a present element, and never lengthens the list |
| Wrappers.SomesCount | app/app/src/main/java/com/example/subscription/data/repository/SubscriptionRepository.kt:137-164 | `mapNotNull` keeps each value as many times as it occurs as a present element |
| Wrappers.SomesAppend | app/app/src/main/java/com/example/subscription/data/repository/SubscriptionRepository.kt:137-164 | `mapNotNull` keeps the list order: on two lists joined, it gives the kept values of the first followed by those of the second |
| Text.TrimStartIndex | app/app/src/main/java/com/example/subscription/ui/addedit/AddEditViewModel.kt:139 | Where trimming starts: everything before it is whitespace and the character there is not |
| Text.TrimEndIndex | app/app/src/main/java/com/example/subscription/ui/addedit/AddEditViewModel.kt:139 | Where trimming ends: everything after it is whitespace and the character before it is not, unless it stops at the start position |
| Text.Trim | app/app/src/main/java/com/example/subscription/ui/addedit/AddEditViewModel.kt:139 | `trim()` gives a contiguous piece of the text with no whitespace at either end |
| Text.TrimEmptyIffBlank | app/app/src/main/java/com/example/subscription/ui/addedit/AddEditViewModel.kt:171 | The trimmed text is empty exactly when the text is blank |
| Text.TrimmedBlankIsEmpty | app/app/src/main/java/com/example/subscription/ui/addedit/AddEditViewModel.kt:145 | Trimmed text is blank only when it is empty, so `trim().ifBlank { null }` is null exactly for blank notes |
| Text.ParseInt | app/app/src/main/java/com/example/subscription/ui/addedit/AddEditViewModel.kt:32 | `toIntOrNull` succeeds exactly on an optional sign followed by one or more digits whose value lies in the 32-bit range, and then gives that signed value |
| Text.ParseIntExamples | app/app/src/main/java/com/example/subscription/ui/detail/DetailViewModel.kt:26 | "-1" and "42" parse; empty text, a lone sign and trailing letters do not |
| Text.Split | app/app/src/main/java/com/example/subscription/data/preferences/DashboardPreferencesRepository.kt:37 | `split(',')` gives at least one piece and no piece contains the separator |
| Text.SplitJoin | app/app/src/main/java/com/example/subscription/data/preferences/DashboardPreferencesRepository.kt:53 | Splitting text joined with a separator that occurs in no piece gives the pieces back |
| Text.SplitNoSep | app/app/src/main/java/com/example/subscription/data/preferences/DashboardPreferencesRepository.kt:37 | Text without the separator splits into itself alone |
| Text.StringLeTotal | app/app/src/main/java/com/example/subscription/data/repository/SubscriptionRepository.kt:46 | The string order used by `sortedBy` relates any two strings |
| Text.StringLeTransitive | app/app/src/main/java/com/example/subscription/data/repository/SubscriptionRepository.kt:46 | The string order is transitive |
| Text.StringLeAntisymmetric | app/app/src/main/java/com/example/subscription/data/repository/SubscriptionRepository.kt:46 | Two strings each at most the other are equal |
| Text.StringLeCommonPrefix | app/app/src/main/java/com/example/subscription/data/repository/SubscriptionRepository.kt:46 | Strings of equal length with a common prefix compare as their remainders do |
| Calendar.DaysInMonth | app/app/src/main/java/com/example/subscription/data/repository/NextPaymentCalculator.kt:51 | A month has between 28 and 31 days |
| Calendar.StartOfMonth | app/app/src/main/java/com/example/subscription/data/repository/SubscriptionRepository.kt:134 | `atDay(1)` is a valid date of the month, and no date of the month is before it |
| Calendar.EndOfMonth | app/app/src/main/java/com/example/subscription/data/repository/SubscriptionRepository.kt:135 | `atEndOfMonth()` is a valid date of the month, and no date of the month is after it |
| Calendar.ClampToMonthEnd | app/app/src/main/java/com/example/subscription/data/repository/NextPaymentCalculator.kt:50-57 | The clamped date is valid, in the same month, with the day cut to the month length; a valid date is returned unchanged |
| Calendar.ClampIdempotent | app/app/src/main/java/com/example/subscription/data/repository/NextPaymentCalculator.kt:50-57 | Clamping twice is clamping once |
| Calendar.PlusMonths | app/app/src/main/java/com/example/subscription/data/repository/NextPaymentCalculator.kt:33-34 | `plusMonths(n)` lands n months later, on the same day cut to the month length |
| Calendar.PlusYears | app/app/src/main/java/com/example/subscription/data/repository/NextPaymentCalculator.kt:35 | `plusYears(n)` keeps the month, lands n years later, on the same day cut to the month length |
| Calendar.PlusYearIsTwelveMonths | app/app/src/main/java/com/example/subscription/data/repository/NextPaymentCalculator.kt:33-35 | Adding one year gives the same date as adding twelve months |
| Calendar.BeforeStartOfMonth | app/app/src/main/java/com/example/subscription/data/repository/SubscriptionRepository.kt:147 | A date is before a month's first day exactly when its month is earlier |
| Calendar.AfterEndOfMonth | app/app/src/main/java/com/example/subscription/data/repository/SubscriptionRepository.kt:142 | A date is after a month's last day exactly when its month is later |
| Calendar.MonthIndexOrder | app/app/src/main/java/com/example/subscription/data/repository/SubscriptionRepository.kt:199 | An earlier month means an earlier date; a date not after another is in the same or an earlier month |
| Calendar.EpochDayOrder | app/app/src/main/java/com/example/subscription/data/repository/NextPaymentCalculator.kt:65 | The day count from 1970-01-01 orders dates as the calendar does and is injective |
| Calendar.EpochDayBefore | app/app/src/main/java/com/example/subscription/data/repository/NextPaymentCalculator.kt:65 | An earlier date has a smaller day count |
| Calendar.EpochDayExamples | app/app/src/main/java/com/example/subscription/data/repository/NextPaymentCalculator.kt:65 | 1970-01-01 is day 0, 2000-03-01 is day 11017, and February 2024 has 28 days between its first and last day |
| IsoDate.Parse | app/app/src/main/java/com/example/subscription/data/repository/NextPaymentCalculator.kt:19 | `LocalDate.parse` with ISO_LOCAL_DATE yields only valid dates within the year range |
| IsoDate.Format | app/app/src/main/java/com/example/subscription/data/repository/NextPaymentCalculator.kt:43 | ISO_LOCAL_DATE prints ten characters for a year from 0 to 9999, ends in `-MM-DD`, and puts `-` before negative years and `+` before years past 9999, and no sign otherwise |
| IsoDate.ParseShaped | app/app/src/main/java/com/example/subscription/ui/addedit/AddEditViewModel.kt:183 | Text of the form dddd-dd-dd parses exactly when its parts form a valid date |
| IsoDate.ParseFormatYear | app/app/src/main/java/com/example/subscription/data/repository/NextPaymentCalculator.kt:43 | The year printed by the formatter reads back as itself within the representable width, and not beyond it |
| IsoDate.ParseFormat | app/app/src/main/java/com/example/subscription/data/repository/NextPaymentCalculator.kt:63 | Formatting a date and parsing the text gives the date back whenever its year is in range, and fails otherwise |
| IsoDate.FormatParse | app/app/src/main/java/com/example/subscription/data/repository/NextPaymentCalculator.kt:19 | Text of the plain shape that parses is exactly the formatter's text of its date |
| IsoDate.FormatShape | app/app/src/main/java/com/example/subscription/ui/addedit/AddEditUiState.kt:13 | A formatted date with a four-digit year has the form that validation checks |
| IsoDate.ExtendedYearExamples | app/app/src/main/java/com/example/subscription/data/repository/NextPaymentCalculator.kt:19 | Years beyond four digits need a sign; "-0001" is year -1; "-0000" and unsigned five-digit years are refused |
| IsoDate.ShapeIsNotValidity | app/app/src/main/java/com/example/subscription/ui/addedit/AddEditViewModel.kt:183 | "2024-13-45" has the checked shape but is not a date |
| IsoDate.FormatOrder | app/app/src/main/java/com/example/subscription/data/repository/SubscriptionRepository.kt:46 | For four-digit years, the text order of formatted dates is the chronological order |
| Usage.ToInt | app/app/src/main/java/com/example/subscription/data/model/UsageFrequency.kt:3-11 | Every level maps to a usage count between 0 and 30 |
| Usage.FromIntToInt | app/app/src/main/java/com/example/subscription/data/model/UsageFrequency.kt:11-23 | Reading back a level's count gives the level |
| Usage.ToIntFromInt | app/app/src/main/java/com/example/subscription/data/model/UsageFrequency.kt:14-24 | A count survives the round trip exactly when it is one of 30, 22, 10, 4, 1, 0; any other count reads as MONTHLY |
| Usage.ToIntInjective | app/app/src/main/java/com/example/subscription/data/model/UsageFrequency.kt:3-9 | Different levels have different counts |
| Usage.OnlyRarelyIsZero | app/app/src/main/java/com/example/subscription/data/model/UsageFrequency.kt:3-9 | RARELY is the only level with count 0; every other count is positive |
| Converters.ToFromPaymentCycle | app/app/src/main/java/com/example/subscription/data/local/Converters.kt:8-15 | Storing a cycle by name and reading it back gives the cycle |
| Converters.FromToPaymentCycle | app/app/src/main/java/com/example/subscription/data/local/Converters.kt:13-15 | A name that reads as a cycle is that cycle's stored name |
| Converters.FromPaymentCycleInjective | app/app/src/main/java/com/example/subscription/data/local/Converters.kt:8-10 | Different cycles are stored under different names |
| Converters.ToPaymentCycleFails | app/app/src/main/java/com/example/subscription/data/local/Converters.kt:13-15 | Reading fails exactly for text other than "MONTHLY", "BIANNUALLY", "YEARLY" |
| Converters.ToPaymentCycleExamples | app/app/src/main/java/com/example/subscription/data/local/Converters.kt:13-15 | Lower case and trailing spaces are refused |
| Sorting.Insert | app/app/src/main/java/com/example/subscription/data/repository/SubscriptionRepository.kt:46 | Inserting adds exactly the one element |
| Sorting.Sort | app/app/src/main/java/com/example/subscription/data/repository/SubscriptionRepository.kt:46 | Sorting is a permutation |
| Sorting.InsertSorted | app/app/src/main/java/com/example/subscription/data/repository/SubscriptionRepository.kt:46 | Inserting into a sorted list keeps it sorted |
| Sorting.SortSorted | app/app/src/main/java/com/example/subscription/data/repository/SubscriptionRepository.kt:73 | The sort's result is ordered by a total preorder |
| Sorting.SortStable | app/app/src/main/java/com/example/subscription/data/repository/SubscriptionRepository.kt:164 | The sort is stable: elements that compare equal keep their order |
| Sorting.SumOfAppend | app/app/src/main/java/com/example/subscription/data/repository/SubscriptionRepository.kt:88-97 | `sumOf` over a concatenation is the sum of the two sums |
| Sorting.SumOfPointwise | app/app/src/main/java/com/example/subscription/data/repository/SubscriptionRepository.kt:114-120 | Sums of lists whose terms agree position by position agree |
| Sorting.SumOfZero | app/app/src/main/java/com/example/subscription/data/repository/SubscriptionRepository.kt:119 | A sum of zero terms is 0 |
| Sorting.InsertSum | app/app/src/main/java/com/example/subscription/data/repository/SubscriptionRepository.kt:164 | Inserting adds its term to the sum |
| Sorting.SortSum | app/app/src/main/java/com/example/subscription/data/repository/SubscriptionRepository.kt:164 | Sorting leaves a sum unchanged |
| Sorting.Take | app/app/src/main/java/com/example/subscription/data/repository/SubscriptionRepository.kt:74 | `take(n)` is the prefix of length min(n, size) |
| Calculator.Step | app/app/src/main/java/com/example/subscription/data/repository/NextPaymentCalculator.kt:32-40 | One loop step, the cycle added and the day clamped, yields a valid date |
| Calculator.StepFacts | app/app/src/main/java/com/example/subscription/data/repository/NextPaymentCalculator.kt:32-40 | One loop step adds 1, 6 or 12 months, cuts the day to the new month's length, and moves the date strictly forward |
| Calculator.Advance | app/app/src/main/java/com/example/subscription/data/repository/NextPaymentCalculator.kt:27-41 | A finished loop ends on a valid date strictly after today, no more than a year past today's month unless no step ran |
| Calculator.ProjectDate | app/app/src/main/java/com/example/subscription/data/repository/NextPaymentCalculator.kt:22-43 | A first date already after today is returned unchanged, even with a cycle name that is not a cycle; otherwise an unknown cycle fails |
| Calculator.NextPayment | app/app/src/main/java/com/example/subscription/data/repository/NextPaymentCalculator.kt:18-44 | `calculate` fails with the parse error on an unreadable first date, fails only with the parse, unknown-cycle or loop-limit error, and otherwise prints a valid date after today |
| Calculator.Calculate | app/app/src/main/java/com/example/subscription/data/repository/NextPaymentCalculator.kt:18-44 | `calculate` returns what the projection specifies: the parse failure, or the loop's date as ISO text, or the loop's cycle or loop-limit failure |
| Calculator.ProjectLoop | app/app/src/main/java/com/example/subscription/data/repository/NextPaymentCalculator.kt:22-43 | The `while` loop from the parsed first date ends with exactly the projection: the same date, or the same failure |
| Calculator.LoopBody | app/app/src/main/java/com/example/subscription/data/repository/NextPaymentCalculator.kt:28-40 | One pass of the loop body fails where the projection fails (the counter checked before it rises, then the cycle name) and otherwise leaves the projection from the new date and counter unchanged |
| Calculator.AdvanceFromStep | app/app/src/main/java/com/example/subscription/data/repository/NextPaymentCalculator.kt:27-41 | From any step count with no earlier date after today, the loop ends on the first step after today or hits the limit |
| Calculator.ProjectionIsFirstDateAfterToday | app/app/src/main/java/com/example/subscription/data/repository/NextPaymentCalculator.kt:23-41 | The result is the first schedule date after today, found in at most 1001 steps; it fails, with the loop-limit error, exactly when none of the first 1002 dates is after today |
| Calculator.ToInt32 | app/app/src/main/java/com/example/subscription/data/repository/NextPaymentCalculator.kt:65 | `Long.toInt()` keeps the value when it fits and otherwise wraps modulo 2^32 into the Int range |
| Calculator.DaysUntil | app/app/src/main/java/com/example/subscription/data/repository/NextPaymentCalculator.kt:62-66 | `calculateDaysUntil` fails, with the parse error, exactly on text that does not read as a date; the count is an `Int`, and 0 for today's date |
| Calculator.DaysToNextYearEnd | app/app/src/main/java/com/example/subscription/data/repository/NextPaymentCalculator.kt:62-66 | A date at most a year past today's year is at most 731 days away |
| Calculator.DaysUntilNextPayment | app/app/src/main/java/com/example/subscription/data/repository/NextPaymentCalculator.kt:62-66 | The days until the projected payment, counted from the same today, is a day difference of at least 1; the Int returned equals it when the date is at most a year past today's year |
| Calculator.ClampCompounds | app/app/src/main/java/com/example/subscription/data/repository/NextPaymentCalculator.kt:32-40 | A Jan 31 monthly schedule pays on Feb 29 and then Mar 29 |
| Calculator.LeapDayYearly | app/app/src/main/java/com/example/subscription/data/repository/NextPaymentCalculator.kt:35-40 | A Feb 29 yearly schedule continues on Feb 28 |
| Repository.RateMap | app/app/src/main/java/com/example/subscription/data/repository/SubscriptionRepository.kt:59 | `associateBy` holds a rate for exactly the codes of the table |
| Repository.RateLookup | app/app/src/main/java/com/example/subscription/data/repository/SubscriptionRepository.kt:61 | A code with no row gets rate 1.0; a code with rows gets the rate of its last row |
| Repository.MonthlyJpyOverCycle | app/app/src/main/java/com/example/subscription/data/repository/SubscriptionRepository.kt:62-68 | The monthly amount in yen, times the months per cycle, is the payment in yen |
| Repository.NormalizedMonthlyTotalAppend | app/app/src/main/java/com/example/subscription/data/repository/SubscriptionRepository.kt:82-99 | The normalised monthly total of two lists is the sum of their totals |
| Repository.NormalizedMonthlyTotal | app/app/src/main/java/com/example/subscription/data/repository/SubscriptionRepository.kt:82-99 | The normalised total of no subscriptions is 0.0 and of one subscription is its monthly yen cost; with `NormalizedMonthlyTotalAppend` this fixes it as the sum of the monthly costs |
| Repository.CostPerUseOf | app/app/src/main/java/com/example/subscription/data/repository/SubscriptionRepository.kt:60-71 | Cost per use keeps the name; it is infinite exactly when the usage count is not positive, and otherwise times the count is the monthly amount in yen |
| Repository.CostsPerUse | app/app/src/main/java/com/example/subscription/data/repository/SubscriptionRepository.kt:60-72 | One cost per subscription, in subscription order |
| Repository.CostDescendingIsPreorder | app/app/src/main/java/com/example/subscription/data/repository/SubscriptionRepository.kt:73 | Descending order by cost, infinite first, is a total preorder |
| Repository.CostPerUseRankingSpec | app/app/src/main/java/com/example/subscription/data/repository/SubscriptionRepository.kt:54-76 | The ranking has min(limit, n) entries, dearest first, and is the head of a sorted permutation of all costs, so nothing left out is dearer; costs that compare equal keep the subscriptions' order; an unused subscription ranks first |
| Repository.CostPerUseRanking | app/app/src/main/java/com/example/subscription/data/repository/SubscriptionRepository.kt:54-76 | The ranking has min(limit, n) entries, and each is the cost per use of one of the subscriptions |
| Repository.NeverUsedRanksFirst | app/app/src/main/java/com/example/subscription/data/repository/SubscriptionRepository.kt:69-73 | When some subscription has a usage frequency of 0 or less, the full descending list is not empty and starts with an infinite cost |
| Repository.EntryForSpec | app/app/src/main/java/com/example/subscription/data/repository/SubscriptionRepository.kt:34-45 | A row succeeds exactly when the first date parses and its projection succeeds within the year range; its date is the projection's ISO text, after today, and its day count is the wrapped day difference |
| Repository.ByNextPaymentDateIsPreorder | app/app/src/main/java/com/example/subscription/data/repository/SubscriptionRepository.kt:46 | Ordering rows by their date text is a total preorder |
| Repository.AllWithNextPaymentSpec | app/app/src/main/java/com/example/subscription/data/repository/SubscriptionRepository.kt:32-48 | The list fails exactly when some row fails; otherwise it is a stable, sorted permutation of one row per subscription |
| Repository.AllWithNextPayment | app/app/src/main/java/com/example/subscription/data/repository/SubscriptionRepository.kt:32-48 | The list has one row per subscription, or fails with the error of the first subscription whose row fails |
| Repository.NextPaymentListChronological | app/app/src/main/java/com/example/subscription/data/repository/SubscriptionRepository.kt:32-47 | With four-digit years, no row's date is before an earlier row's |
| Repository.RemainingContributionOf | app/app/src/main/java/com/example/subscription/data/repository/SubscriptionRepository.kt:114-120 | A row adds its payment in yen exactly when its next date is in the current month |
| Repository.RemainingThisMonthTotalFails | app/app/src/main/java/com/example/subscription/data/repository/SubscriptionRepository.kt:104-122 | The remaining total fails exactly when the next-payment list fails |
| Repository.RemainingThisMonthTotalSpec | app/app/src/main/java/com/example/subscription/data/repository/SubscriptionRepository.kt:104-122 | The remaining total is the sum over subscriptions of the payments whose next date falls in today's month |
| Repository.RemainingThisMonthTotal | app/app/src/main/java/com/example/subscription/data/repository/SubscriptionRepository.kt:104-122 | Nothing remains of no subscriptions, and the remaining total exists only when the next-payment list does |
| Repository.NothingRemainsOnLastDay | app/app/src/main/java/com/example/subscription/data/repository/SubscriptionRepository.kt:104-122 | On the last day of a month nothing remains, since every next date is after today |
| Repository.AdvanceToMonth | app/app/src/main/java/com/example/subscription/data/repository/SubscriptionRepository.kt:199-208 | The advance loop stops on a valid date of the month's start or later, less than a cycle past it, a whole number of cycles from the first date, and does nothing to a date already there |
| Repository.PaysInMonthIff | app/app/src/main/java/com/example/subscription/data/repository/SubscriptionRepository.kt:190-214 | A subscription pays in a month exactly when the month is its first month or a whole number of cycles later |
| Repository.MonthlyAlwaysPays | app/app/src/main/java/com/example/subscription/data/repository/SubscriptionRepository.kt:199-214 | A monthly subscription pays in every month ending on or after its first date |
| Repository.YearlyPaysInAnchorMonth | app/app/src/main/java/com/example/subscription/data/repository/SubscriptionRepository.kt:199-214 | A yearly subscription pays only in the month of its first date, from its first year on |
| Repository.BiannualPaysEverySixMonths | app/app/src/main/java/com/example/subscription/data/repository/SubscriptionRepository.kt:199-214 | A half-yearly subscription pays in its first month and the month six away, from its first month on |
| Repository.AdvanceLoop | app/app/src/main/java/com/example/subscription/data/repository/SubscriptionRepository.kt:199-208 | The while loop ends on the date the advance specifies |
| Repository.MonthContributionOf | app/app/src/main/java/com/example/subscription/data/repository/SubscriptionRepository.kt:211-221 | A subscription whose first date parses adds its payment in yen when it pays in the month, else 0.0 |
| Repository.ContributionInMonth | app/app/src/main/java/com/example/subscription/data/repository/SubscriptionRepository.kt:184-221 | One `sumOf` term, step by step, equals its specified contribution, the parse failure included |
| Repository.GetMonthlyTotal | app/app/src/main/java/com/example/subscription/data/repository/SubscriptionRepository.kt:172-224 | The monthly total is the specified sum of contributions, or the first failure, or the year-month failure |
| Repository.MonthlyTotal | app/app/src/main/java/com/example/subscription/data/repository/SubscriptionRepository.kt:172-224 | The monthly total fails with the year-month error on a month `YearMonth.of` refuses, otherwise only with the unreadable-date error, and is 0.0 for no subscriptions |
| Repository.ByAmountDescendingIsPreorder | app/app/src/main/java/com/example/subscription/data/repository/SubscriptionRepository.kt:164 | Descending order by amount is a total preorder |
| Repository.BreakdownItemContribution | app/app/src/main/java/com/example/subscription/data/repository/SubscriptionRepository.kt:137-163 | A breakdown item and the same subscription's monthly-total term fail alike, and the item's amount is that term |
| Repository.SomesSum | app/app/src/main/java/com/example/subscription/data/repository/SubscriptionRepository.kt:137-164 | The present items' amounts sum to the sum of the terms, absent ones counting 0 |
| Repository.BreakdownSumsToTotal | app/app/src/main/java/com/example/subscription/data/repository/SubscriptionRepository.kt:127-166 | The breakdown fails exactly when the monthly total fails, with the same failure, and its amounts sum to the monthly total |
| Repository.BreakdownContents | app/app/src/main/java/com/example/subscription/data/repository/SubscriptionRepository.kt:137-164 | The breakdown is sorted by descending amount. It is a permutation of the items `mapNotNull` keeps, one per subscription paying in the month, equal items counted as often as they occur. Items of equal amount keep the subscriptions' order |
| Repository.ItemInMonth | app/app/src/main/java/com/example/subscription/data/repository/SubscriptionRepository.kt:138-163 | One `mapNotNull` element, step by step, equals its specified item |
| Repository.BreakdownItemOf | app/app/src/main/java/com/example/subscription/data/repository/SubscriptionRepository.kt:157-163 | A paying subscription's item carries its name and its payment in yen |
| Repository.GetMonthlyBreakdown | app/app/src/main/java/com/example/subscription/data/repository/SubscriptionRepository.kt:127-166 | The loop builds the specified breakdown |
| Repository.MonthlyBreakdown | app/app/src/main/java/com/example/subscription/data/repository/SubscriptionRepository.kt:127-166 | The breakdown fails like the monthly total, with the year-month or the unreadable-date error only, and holds at most one item per subscription |
| AddEdit.FormErrors | app/app/src/main/java/com/example/subscription/ui/addedit/AddEditViewModel.kt:167-185 | The error map has a key exactly for a blank name, an amount that does not parse or is negative, and a date of the wrong shape, and gives the message each field shows |
| AddEdit.AcceptedIff | app/app/src/main/java/com/example/subscription/ui/addedit/AddEditViewModel.kt:167-188 | Validation passes exactly when the name is not blank, the amount parses to a number that is not negative, and the date has the checked shape |
| AddEdit.ValidationIsShapeOnly | app/app/src/main/java/com/example/subscription/ui/addedit/AddEditViewModel.kt:175-185 | An amount of 0 and the date text "2024-13-45" are accepted, though that text is not a date |
| AddEdit.NoteOf | app/app/src/main/java/com/example/subscription/ui/addedit/AddEditViewModel.kt:145 | The saved note is absent exactly for a blank note, and otherwise is the trimmed, non-blank note |
| AddEdit.SubIdOf | app/app/src/main/java/com/example/subscription/ui/addedit/AddEditViewModel.kt:32 | The route id is absent exactly when it is missing, does not parse, or is -1 |
| AddEdit.SavedRecordIsClean | app/app/src/main/java/com/example/subscription/ui/addedit/AddEditViewModel.kt:137-147 | The saved record has a trimmed non-blank name, an amount not negative, date text of the checked shape, a usage count that reads back as the chosen level, a non-blank or absent note, and id 0 exactly for a new row |
| AddEdit.AddEditViewModel.constructor | app/app/src/main/java/com/example/subscription/ui/addedit/AddEditUiState.kt:8-20 | A new form holds the defaults, dated today, and the route id read as above |
| AddEdit.AddEditViewModel.OnServiceNameChanged | app/app/src/main/java/com/example/subscription/ui/addedit/AddEditViewModel.kt:67-69 | Only the service name changes |
| AddEdit.AddEditViewModel.OnAmountChanged | app/app/src/main/java/com/example/subscription/ui/addedit/AddEditViewModel.kt:71-73 | Only the amount text changes |
| AddEdit.AddEditViewModel.OnCurrencyChanged | app/app/src/main/java/com/example/subscription/ui/addedit/AddEditViewModel.kt:75-77 | Only the currency changes |
| AddEdit.AddEditViewModel.OnCycleChanged | app/app/src/main/java/com/example/subscription/ui/addedit/AddEditViewModel.kt:79-81 | Only the cycle changes |
| AddEdit.AddEditViewModel.OnDateChanged | app/app/src/main/java/com/example/subscription/ui/addedit/AddEditViewModel.kt:83-85 | Only the date text changes |
| AddEdit.AddEditViewModel.OnFrequencyChanged | app/app/src/main/java/com/example/subscription/ui/addedit/AddEditViewModel.kt:87-89 | Only the usage level changes |
| AddEdit.AddEditViewModel.OnNoteChanged | app/app/src/main/java/com/example/subscription/ui/addedit/AddEditViewModel.kt:91-93 | Only the note changes |
| AddEdit.AddEditViewModel.ValidateInput | app/app/src/main/java/com/example/subscription/ui/addedit/AddEditViewModel.kt:167-189 | The error map is stored, nothing else changes, and the answer is true exactly when the form is accepted |
| AddEdit.AddEditViewModel.SaveSubscription | app/app/src/main/java/com/example/subscription/ui/addedit/AddEditViewModel.kt:131-165 | A refused form only stores its errors and writes nothing; an accepted one inserts the clean record for a new row and updates it otherwise, then ends saved, or with the general error when the write fails |
| Detail.RateByCode | app/app/src/main/java/com/example/subscription/ui/detail/DetailViewModel.kt:60 | The row lookup finds a rate exactly when some row has the code, and the rate is that row's |
| Detail.DetailMonthlyAmount | app/app/src/main/java/com/example/subscription/ui/detail/DetailViewModel.kt:64-69 | The detail screen's monthly amount, taken over one payment cycle, adds up to one payment in yen |
| Detail.DetailRateAgrees | app/app/src/main/java/com/example/subscription/ui/detail/DetailViewModel.kt:60-61 | With one row per code, the detail screen's rate, 1.0 when missing, is the rate the aggregations use |
| Detail.DetailCostPerUse | app/app/src/main/java/com/example/subscription/ui/detail/DetailViewModel.kt:71-75 | The detail cost per use is 0.0 when the usage count is not positive, and otherwise times the count gives the monthly amount |
| Detail.DetailCostMatchesRanking | app/app/src/main/java/com/example/subscription/ui/detail/DetailViewModel.kt:64-75 | The detail monthly amount equals the ranking's; the cost per use equals the ranking's for a positive usage count, and is 0.0 where the ranking says infinite |
| Detail.DetailSubId | app/app/src/main/java/com/example/subscription/ui/detail/DetailViewModel.kt:26 | The route id is the parsed text, or 0 when missing or unparsable |
| Detail.DetailViewModel.constructor | app/app/src/main/java/com/example/subscription/ui/detail/DetailViewModel.kt:26-28 | The screen starts loading with the route id |
| Detail.DetailViewModel.LoadSubscription | app/app/src/main/java/com/example/subscription/ui/detail/DetailViewModel.kt:35-100 | A missing row ends loading with the not-found error; a failing projection ends it with that failure; otherwise the screen shows the same row the payment list shows and the detail cost per use, with no error |
| Detail.DetailViewModel.DeleteSubscription | app/app/src/main/java/com/example/subscription/ui/detail/DetailViewModel.kt:102-113 | The route's row is deleted and the screen marked deleted, or the delete error is shown |
| DashboardPrefs.CardTypeOf | app/app/src/main/java/com/example/subscription/data/preferences/DashboardPreferencesRepository.kt:38 | `valueOf` finds a card exactly for a card's name, and that card has the name |
| DashboardPrefs.NameRoundTrip | app/app/src/main/java/com/example/subscription/data/preferences/DashboardPreferencesRepository.kt:38 | Every card's name reads back as the card and holds no comma |
| DashboardPrefs.DefaultOrderListsEachOnce | app/app/src/main/java/com/example/subscription/data/preferences/DashboardPreferencesRepository.kt:20-27 | The default order lists each of the six cards exactly once |
| DashboardPrefs.NamesOf | app/app/src/main/java/com/example/subscription/data/preferences/DashboardPreferencesRepository.kt:53 | One name per card, in order |
| DashboardPrefs.TypesOf | app/app/src/main/java/com/example/subscription/data/preferences/DashboardPreferencesRepository.kt:38 | Reading the stored names keeps a card exactly when some name reads as it, and never lengthens the list |
| DashboardPrefs.TypesOfAppend | app/app/src/main/java/com/example/subscription/data/preferences/DashboardPreferencesRepository.kt:37-38 | Reading the names keeps their stored order: on two lists of names joined, it gives the cards of the first followed by those of the second |
| DashboardPrefs.LoadOrder | app/app/src/main/java/com/example/subscription/data/preferences/DashboardPreferencesRepository.kt:35-40 | The loaded order is never empty, and is the default when nothing is stored |
| DashboardPrefs.TypesOfNames | app/app/src/main/java/com/example/subscription/data/preferences/DashboardPreferencesRepository.kt:37-38 | Reading the names of an order gives the order back |
| DashboardPrefs.UnknownNamesGiveNothing | app/app/src/main/java/com/example/subscription/data/preferences/DashboardPreferencesRepository.kt:38-39 | Text naming no card loads nothing, so the default is used |
| DashboardPrefs.OrderRoundTrip | app/app/src/main/java/com/example/subscription/data/preferences/DashboardPreferencesRepository.kt:52-56 | After storing an order, loading gives it back; an empty order loads as the default |
| DashboardPrefs.AllCardTypesComplete | app/app/src/main/java/com/example/subscription/data/preferences/DashboardPreferencesRepository.kt:44 | `CardType.values()` lists every card |
| DashboardPrefs.NoneVisible | app/app/src/main/java/com/example/subscription/data/preferences/DashboardPreferencesRepository.kt:49 | The shown set is empty exactly when no card is visible |
| DashboardPrefs.EnabledFrom | app/app/src/main/java/com/example/subscription/data/preferences/DashboardPreferencesRepository.kt:42-50 | The enabled set is never empty: it holds a card exactly when its flag is true or missing, or every card when none is shown |
| DashboardPrefs.VisibleKeyInjective | app/app/src/main/java/com/example/subscription/data/preferences/DashboardPreferencesRepository.kt:58-65 | Different cards have different flag keys |
| DashboardPrefs.SetVisibleEffect | app/app/src/main/java/com/example/subscription/data/preferences/DashboardPreferencesRepository.kt:58-61 | Setting one flag leaves the other cards' visibility alone; a shown card becomes enabled, and a hidden one stays enabled only when no other card is shown |
| DashboardPrefs.VisibleOrder | app/app/src/main/java/com/example/subscription/ui/dashboard/DashboardViewModel.kt:62 | The dashboard shows exactly the ordered cards that are enabled |
| DashboardPrefs.VisibleOrderAppend | app/app/src/main/java/com/example/subscription/ui/dashboard/DashboardViewModel.kt:62 | The filter keeps the stored order: on two orders joined, it shows the visible cards of the first followed by those of the second |
| DashboardPrefs.DashboardPreferences.constructor | app/app/src/main/java/com/example/subscription/data/preferences/DashboardPreferencesRepository.kt:29-33 | The published order and enabled set are the ones loaded from the store |
| DashboardPrefs.DashboardPreferences.LoadEnabled | app/app/src/main/java/com/example/subscription/data/preferences/DashboardPreferencesRepository.kt:42-50 | The flag loop computes the enabled set specified above |
| DashboardPrefs.DashboardPreferences.SetOrder | app/app/src/main/java/com/example/subscription/data/preferences/DashboardPreferencesRepository.kt:52-56 | The store gets the order's text, the published order becomes exactly the new one, nothing else changes |
| DashboardPrefs.DashboardPreferences.SetVisible | app/app/src/main/java/com/example/subscription/data/preferences/DashboardPreferencesRepository.kt:58-61 | Only the card's flag is stored, and the published enabled set is reread from the store |
| Settings.IndexOf | app/app/src/main/java/com/example/subscription/ui/settings/SettingsViewModel.kt:60 | `indexOf` is -1 exactly for an absent card, and otherwise the first position holding it |
| Settings.SwapAdjacent | app/app/src/main/java/com/example/subscription/ui/settings/SettingsViewModel.kt:62-65 | Two neighbours change places and nothing else moves |
| Settings.MovedUp | app/app/src/main/java/com/example/subscription/ui/settings/SettingsViewModel.kt:58-67 | Moving up is a permutation, and changes nothing for an absent or first card |
| Settings.MovedDown | app/app/src/main/java/com/example/subscription/ui/settings/SettingsViewModel.kt:69-78 | Moving down is a permutation, and changes nothing for an absent or last card |
| Settings.RemoveThenInsertBefore | app/app/src/main/java/com/example/subscription/ui/settings/SettingsViewModel.kt:62-64 | Removing the card and adding it one place earlier swaps it with its predecessor |
| Settings.RemoveThenInsertAfter | app/app/src/main/java/com/example/subscription/ui/settings/SettingsViewModel.kt:73-75 | Removing the card and adding it one place later swaps it with its successor |
| Settings.MovedUpPosition | app/app/src/main/java/com/example/subscription/ui/settings/SettingsViewModel.kt:58-67 | Moving up moves the card exactly one place earlier |
| Settings.IndexOfFirst | app/app/src/main/java/com/example/subscription/ui/settings/SettingsViewModel.kt:60 | A position holding the card with none before it is its index |
| Settings.MoveUpThenDown | app/app/src/main/java/com/example/subscription/ui/settings/SettingsViewModel.kt:58-78 | Moving a card up and then down restores the order unless it was first |
| Settings.MoveDownThenUp | app/app/src/main/java/com/example/subscription/ui/settings/SettingsViewModel.kt:58-78 | On a list without repeats, moving a card down and then up restores the order unless it was last |
| Settings.MoveDownThenUpAt | app/app/src/main/java/com/example/subscription/ui/settings/SettingsViewModel.kt:69-78 | The down-then-up round trip once the card's successor is another card |
| Settings.SettingsViewModel.SetCardVisible | app/app/src/main/java/com/example/subscription/ui/settings/SettingsViewModel.kt:54-56 | Only the card's flag is stored and the enabled set is reread |
| Settings.SettingsViewModel.MoveCardUp | app/app/src/main/java/com/example/subscription/ui/settings/SettingsViewModel.kt:58-67 | The order becomes the moved-up order, and is stored only when the card moved |
| Settings.SettingsViewModel.MoveCardDown | app/app/src/main/java/com/example/subscription/ui/settings/SettingsViewModel.kt:69-78 | The order becomes the moved-down order, and is stored only when the card moved |

## Left out

- Reactive plumbing is not modelled: `Flow`, `combine`, `stateIn` and coroutines. Each aggregation is a function of one snapshot of both tables.
- The settings screen reads the order from a `stateIn` flow whose value starts as an empty list. The model reads the store's published order directly.
- Repository writes are not modelled: `getById`, `insert`, `update`, `delete`, their wall-clock timestamps and widget broadcasts. These are database and broadcast calls.
  - Only the detail screen reads a stored row: `Detail.DetailViewModel.LoadSubscription` receives the row found (`found`) as a parameter. The add/edit form's loading of an existing row is left out (see `AddEditViewModel.loadSubscription` below).
  - Whether a write throws is a parameter (`writeFails`, `deleteFails`).
  - A save returns the write it would issue.
- `AddEditViewModel.loadSubscription` is not modelled. It only copies a stored row into the form after a database read.
- The icon picker and its file copy (`onIconSelected`, `saveIconToInternalStorage`) are left out as file I/O.
- `SettingsViewModel.updateRate` is left out: it is a database upsert with a timestamp.
- The clock is not modelled. `LocalDate.now()` becomes a `today` parameter, so two clock reads that straddle midnight are not captured.
- Double arithmetic is not modelled. Amounts, rates and factors are reals, so the model says nothing about rounding, NaN or overflow to infinity.
- `toDoubleOrNull` is a given function from text to an optional real, because Kotlin's number grammar is not modelled.
- `String.compareTo` compares UTF-16 code units; `Text.StringLe` compares characters. The two orders differ only on characters outside the Basic Multilingual Plane, and the one text the model sorts by is the ISO date text, which is ASCII.
- The model's `toIntOrNull` reads ASCII digits only. Kotlin's also accepts other Unicode decimal digits, which do not occur in the route ids the app builds.
- `plusMonths` and `plusYears` throw beyond year ±999,999,999; in the model, years are unbounded. The formatter and parser do keep that range, so a projected date beyond it fails when read back, as in the source.
- The order in which the database returns rows is a given sequence. The list order before sorting is the input's.
- `CardType.kt` is not part of this model. Its six constants are taken from the default order.
- `SharedPreferences` is two maps, one for text values and one for flags. The keys of the two never collide.
- Error message texts are replaced by constructors of `Failure`, `FieldError` and `DetailError`.
- Repository.CostPerUseRanking: `limit` is a natural number, so the model leaves out the `IllegalArgumentException` that Kotlin's `take` throws on a negative limit. The only caller, `DashboardViewModel.kt:45`, passes the default limit of 3.
- The dashboard's `firstOrNull` is left out as display code. Its `order.filter { it in enabled }` is modelled (`DashboardPrefs.VisibleOrder`).
- The in-memory order after `setOrder` of an empty list is that empty list, while a reload gives the default order. The settings screen never stores an empty list, so only the reload side is proved (`DashboardPrefs.OrderRoundTrip`).
- Calculator.DaysUntilNextPayment: the returned `Int` is proved to lie in 1..731 only when the projected date is at most a year past today's year. That holds whenever the first date was not already after today. A first date already far in the future can give a day count beyond 731, and past the `Int` range it wraps.
- Detail.DetailRateAgrees: equality with the aggregations' rate is stated for tables with one row per currency code, which is the table's primary key. With duplicate codes, the two lookups pick different rows (first versus last).
- Detail.DetailCostMatchesRanking: the detail and ranking values are equal in real arithmetic. In doubles the two formulas (`x * (1/6)` against `x / 6`) may differ in the last bit.
