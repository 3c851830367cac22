# Verified models of the decision console's hard parts

A Dafny project that models the parts of the repository where state, branching or arithmetic meet, and
proves what they promise. `dafny verify dfyconfig.toml` checks all of it.

| Component | Modules | Main results |
|---|---|---|
| Invoice rules, v3 pack | `EditDistance`, `RuleKit`, `Comparable`, `AccountRules`, `MoneyRules` | the rolling-row loop is the cheapest edit script; four rules split every supplier situation without gap or overlap, whatever separators are printed; R18 fires exactly when it should and never speaks over a refusal; three rounded checks compose to a tight five-cent bound |
| Hiring mock and its policy | `Texts`, `HiringPolicy`, `HiringMock`, `HiringKey`, `HiringNames`, `HiringTables` | for every random stream the generator finishes, the batch is what the category table asks for, and the answer key is what the policy says of its 44 candidates |
| Span recorder | `SpanModel`, `SpanRuns`, `SpanRecorder` | one row a span, inner rows first, one visit to the database a trace but for outages, errors, restored contexts, over every run; and exactly which rows are lost when a task is not waited for |
| Upload pool | `UploadPool` | every interleaving is safe and bounded; success is complete; the inbox's progress test is exact |
| Demo reset and replay | `Reset`, `TraceReplay`, `Replay` | database and files change together, and no file is lost, with failures at any steps; the cached trace comes back as the same forest; reprocessing only appends |
| Amount parser | `Amounts`, `AmountGrammar`, `AmountCleaning`, `AmountPrinting` | the parser is a grammar without ambiguity and accepts nothing else; every printing of every amount is read back |
| Merge, index, copies, triage, migration | `Merge`, `OrderIndex`, `Copies`, `Sorting`, `Triage`, `Migration` | a consistent, idempotent merge; an index that agrees with the scan; an order independent of its input; when copies keep the rate of duplicates, and when a migration can be undone, both exactly |

`Options` is the option type they share.

How the sources appear: a rule, parser or policy made of expressions is a function, and the lemmas say what
it means; a loop that updates variables is a method proved against such a function; an object or shared
state that changes in place is a class (`Factory`, `Recorder`, `Pool`, `Deployment`, `Source`, `Output`,
`Ledger`, `Events`) whose methods state the whole new state. Concurrency is a state machine whose steps may
be taken in any order, and the classes of the recorder and of the pool are proved to take exactly those steps. Random
draws are arbitrary values in their range. A Python exception is a value (`Raises`, `Invalid`, `ok == false`).

## Where code and text disagree

The models follow the code.

- `frontend/src/lib/urgency.ts:86` says that within a tier the older or closer case goes first. The flags of
  the lower tiers are added to the score too, so this fails for a review pending on the younger case
  (`Triage.OlderIsNotAlwaysFirst`); `Triage.OlderFirstIff` says exactly when it holds.
- `tools/bench_scale.py:141-142` says the duplicate rule fires at the base's rate on the copies. It does not,
  for one, for orders that are all separators (`Copies.SeparatorOrdersBecomeDuplicates`), nor when the last copy is
  cut between twins (`Copies.CutCopyIsNoDuplicate`); `Copies.RateIsKeptIff` and, for whole copies,
  `Copies.WholeRateIsKeptIff` say exactly when it does.
- `matches` is documented as a tolerance of one cent. Amounts with fractions of a cent can match up to two cents
  apart, and one pair exactly a cent apart does not (`RuleKit.TwoCentsIsTight`, `RuleKit.MatchesWithinACent`).
  Between whole cents the text is exact (`RuleKit.WholeCentsMatchIff`).
- `processes/rules-v3/r03-master-iban.py:15` says that references compare without separators. A hyphen or a dot
  counts where it keeps other white space from being stripped (`Comparable.TabsHoldOn`); `SeparatedAlike` says where
  none does.
- Spans of a task that outlives its outermost span are promised to the trace but never written
  (`SpanRuns.EndedTooLate`, and `SpanRuns.TaskOutlivesItsTrace` for a run where it happens); what is promised
  holds of runs that wait for their tasks.
- `backend/alembic/versions/0008_event_spans.py:81-82` removes events whose instance or process is gone before the
  foreign keys come back. Where the referenced table is empty it removes events without a reference too
  (`Migration.NothingComesBackWithoutInstances`); `Migration.ThereAndBack` says exactly what is restored.

## Model

| member | source | states |
|---|---|---|
| `EditDistance.Differences` | processes/rules-v3/r17-iban-near-miss.py:58-69 | the two rolling rows compute the distance that `DistanceIsCheapest` shows to be the cost of the cheapest edit script |
| `EditDistance.ExtendRow` | processes/rules-v3/r17-iban-near-miss.py:66-67 | one more cell, the least of its three neighbours, extends a row of distances to prefixes by one prefix |
| `EditDistance.DistanceIsLowerBound` | processes/rules-v3/r17-iban-near-miss.py:58-69 | no script of inserts, deletes and substitutions that turns one identifier into the other is cheaper than the distance |
| `EditDistance.CheapestScript` | processes/rules-v3/r17-iban-near-miss.py:58-69 | a script of exactly that cost exists, and turns one identifier into the other |
| `EditDistance.DistanceIsCheapest` | processes/rules-v3/r17-iban-near-miss.py:58-69 | the number of differences is the length of the shortest edit script, over all scripts |
| `EditDistance.ZeroOnlyWhenEqual` | processes/rules-v3/r17-iban-near-miss.py:61-62 | no differences exactly between equal identifiers, so the early return agrees with the loop |
| `EditDistance.Symmetric` | processes/rules-v3/r17-iban-near-miss.py:58-69 | as many edits one way as the other |
| `EditDistance.Triangle` | processes/rules-v3/r17-iban-near-miss.py:58-69 | a detour through a third identifier is never shorter |
| `RuleKit.HalfUpIsNearest` | processes/rules-v3/r08-correct-vat.py:23-24 | rounding a half up gives the nearest whole number, and between two equally near ones the one further from zero, and nothing else does |
| `RuleKit.CentsOddAndMonotone` | processes/rules-v3/r08-correct-vat.py:23-24 | cents change sign with the amount and never decrease as it grows |
| `RuleKit.MatchesBound` | processes/rules-v3/r08-correct-vat.py:27-29 | two amounts that match are less than two cents apart |
| `RuleKit.TwoCentsIsTight` | processes/rules-v3/r08-correct-vat.py:27-29 | and no smaller bound holds: for any slack there are matching amounts that close to two cents apart |
| `RuleKit.MatchesWithinACent` | processes/rules-v3/r08-correct-vat.py:27-29 | of all pairs up to a cent apart exactly one does not match: half a cent on either side of zero |
| `RuleKit.MatchesWholeCents` | processes/rules-v3/r08-correct-vat.py:27-29 | an amount that matches a whole number of cents is within a cent and a half of it |
| `RuleKit.WholeCentsMatchIff` | processes/rules-v3/r08-correct-vat.py:27-29 | between whole numbers of cents the tolerance is a cent exactly: they match if and only if they are at most a cent apart |
| `Comparable.WhiteSpaceIs` | processes/rules-v3/r03-master-iban.py:5-7 | white space is the 29 characters Python strips |
| `Comparable.StripIs` | processes/rules-v3/r03-master-iban.py:5-7 | stripping takes white space off both ends of a text, all there is, and nothing else |
| `Comparable.AmountsAreStripped` | processes/rules-v3/r18-currency-policy.py:55-60 | an amount with white space around it reads as the amount |
| `Comparable.SpacesDoNotCount` | processes/rules-v3/r03-master-iban.py:14-20 | accounts and keys that differ only in spaces are the same, and no space is left in them |
| `Comparable.SeparatorsDoNotCount` | processes/rules-v3/r03-master-iban.py:14-16 | tax numbers and orders that differ only in spaces, hyphens and dots have one key, where the only white space is the plain one; spaces alone never count |
| `Comparable.NoSeparatorIsLeft` | processes/rules-v3/r03-master-iban.py:14-16 | no key has a space, a hyphen or a dot |
| `Comparable.TabsHoldOn` | processes/rules-v3/r03-master-iban.py:14-16 | where there is a tab a hyphen may count: a tab at the end is stripped, before a hyphen it is not |
| `Comparable.CapitalsAreKept` | processes/rules-v3/r03-master-iban.py:14-20 | nothing else is forgotten: of a text in capitals the account and the key are its characters without separators and outer white space |
| `AccountRules.TheirsAreExactly` | processes/rules-v3/r03-master-iban.py:79 | the rows taken for a tax number are exactly the table's rows with it |
| `AccountRules.ApprovedIsEveryRows` | processes/rules-v3/r17-iban-near-miss.py:72-86 | the approved account is that of every row of the supplier, so popping any element of the set is right |
| `AccountRules.DisagreementIsTheSame` | processes/rules-v3/r04-inconsistent-master.py:59-66 | R04's set of pairs has two elements exactly when one of the two sets of `approved_account` has |
| `AccountRules.EvaluateR03` | processes/rules-v3/r03-master-iban.py:89-100 | the imperative rule, with its loop, gives the verdict that `RulesMeanTheirSituation` characterises |
| `AccountRules.EvaluateR17` | processes/rules-v3/r17-iban-near-miss.py:89-104 | the same for R17, and when it fires the number it prints is from 1 to 4 and is the cost of the cheapest script between the two accounts |
| `AccountRules.R04Means` | processes/rules-v3/r04-inconsistent-master.py:54-66 | R04 fires exactly when two rows of the supplier differ in id or account |
| `AccountRules.ApprovedMeans` | processes/rules-v3/r17-iban-near-miss.py:72-86 | there is an approved account exactly when the supplier is known and R04 stays silent |
| `AccountRules.OneAccountMeans` | processes/rules-v3/r17-iban-near-miss.py:89-104 | another account, a misreading, the approved account: each is a range of edits from the one approved account, however many rows repeat it |
| `AccountRules.RulesMeanTheirSituation` | processes/rules-v3/r17-iban-near-miss.py:72-104 | R02, R04, R03 and R17 each fire on exactly one situation of the supplier table, said without the rules |
| `AccountRules.ExactlyOneSituation` | processes/rules-v3/r17-iban-near-miss.py:72-104 | for any table and any invoice with a tax number and an account exactly one of the five situations holds: no gap and no overlap between the rules |
| `AccountRules.NothingToCompare` | processes/rules-v3/r17-iban-near-miss.py:72-86 | without a tax number none of the four rules fires, and without an account R03 and R17 do not |
| `AccountRules.SeparatorsChangeNoVerdict` | processes/rules-v3/r03-master-iban.py:14-20 | separators added to tax numbers or taken out of them, and spaces of accounts, on the invoice or in any row of the table, change neither the approved account nor a verdict of R02, R03, R04 or R17 |
| `MoneyRules.FindOrder` | processes/rules-v3/r07-order-amount.py:61-64 | the loop that overwrites keeps the last row with the invoice's order |
| `MoneyRules.LastOrder` | processes/rules-v3/r07-order-amount.py:61-64 | the row found has the key and no later one has; none is found exactly when no row has it |
| `MoneyRules.R07Means` | processes/rules-v3/r07-order-amount.py:54-72 | R07 refuses exactly a euro invoice with a total whose order is in the table with an amount more than one whole cent away, and raises exactly where one of the two cannot be read |
| `MoneyRules.R08Means` | processes/rules-v3/r08-correct-vat.py:54-67 | R08 refuses exactly a euro invoice with base, rate and VAT whose VAT is more than one whole cent from the base's share, rounded half up, and raises exactly where one cannot be read |
| `MoneyRules.R10Means` | processes/rules-v3/r10-total-adds-up.py:54-62 | R10 refuses exactly an invoice, in any currency, whose total is more than one whole cent from base and VAT together, and raises exactly where one cannot be read |
| `MoneyRules.AnotherAccount` | processes/rules-v3/r18-currency-policy.py:103-123 | R18's inlined copy of the look-up and of the loop is true exactly when R03 fires |
| `MoneyRules.FindRate` | processes/rules-v3/r18-currency-policy.py:63-79 | the loop with its skips returns the first row in force, or none |
| `MoneyRules.RateIsReadable` | processes/rules-v3/r18-currency-policy.py:63-79 | the published rate is a row of the table, for this currency, in force on the invoice's day, with a readable figure |
| `MoneyRules.FirstInForce` | processes/rules-v3/r18-currency-policy.py:63-79 | the rate is the first row of this currency whose dates enclose the day, ends included, and whose figure can be read; none is found exactly when there is none, or no date |
| `MoneyRules.ConvertedIsNear` | processes/rules-v3/r18-currency-policy.py:169-171 | the conversion is the total times the euros per unit, to half a cent |
| `MoneyRules.ConvertedIsWhole` | processes/rules-v3/r18-currency-policy.py:169-171 | and a whole number of cents, the nearest one, of two the one further from zero |
| `MoneyRules.ConversionOffMeans` | processes/rules-v3/r18-currency-policy.py:169-174 | a conversion let through is, as an exact product, within 0.015 of the order or within the row's percentage of itself and half a cent; and with half a cent to spare either way it is let through |
| `MoneyRules.R18FiresIff` | processes/rules-v3/r18-currency-policy.py:142-191 | R18 fires exactly on a foreign invoice that R10 and R03 leave alone and whose VAT R08 would refuse in euros, whose currency is not three letters, which no row converts on its day, or whose conversion is off |
| `MoneyRules.EvaluateR18` | processes/rules-v3/r18-currency-policy.py:142-191 | the imperative rule fires exactly when the invoice is foreign, R10 and R03 are not about to refuse it, and one of the four reasons for a person holds |
| `MoneyRules.BrokenArithmeticIsR10` | processes/rules-v3/r18-currency-policy.py:92-100 | on every invoice, readable or not, R18's first carve-out is true exactly when R10 fires |
| `MoneyRules.VatDisagreesIsR08InEuros` | processes/rules-v3/r18-currency-policy.py:126-139 | R18's VAT check is R08's on the same document printed in euros |
| `MoneyRules.R18IsAloneWhenItFires` | processes/rules-v3/r18-currency-policy.py:142-191 | when R18 fires, R03 and R10 do not, and R07 and R08 pass: a foreign invoice is never refused and escalated at once |
| `MoneyRules.PassingForeignInvoice` | processes/rules-v3/r18-currency-policy.py:142-191 | a foreign invoice that everybody lets through had a rate in force on its day, and its total times that rate is within 0.015 of its order, or within the row's percentage of itself and half a cent |
| `MoneyRules.CloseForeignInvoicePasses` | processes/rules-v3/r18-currency-policy.py:142-191 | and one whose VAT agrees, with a rate, and whose total times the rate is that near to the order with half a cent to spare, passes |
| `MoneyRules.PassingVerdicts` | processes/rules-v3/r07-order-amount.py:54-72 | on a complete invoice in euros, three silent rules mean readable amounts and three matches |
| `MoneyRules.ThreeChecks` | processes/rules-v3/r08-correct-vat.py:54-67 | three matches in a row, two of them against rounded sums, add up to less than five cents |
| `MoneyRules.PassingInvoiceIsNearItsOrder` | processes/rules-v3/r10-total-adds-up.py:54-62 | if R07, R08 and R10 pass on a complete euro invoice, its order is less than 0.05 from base plus exact VAT |
| `MoneyRules.FiveCentsIsTight` | processes/rules-v3/r10-total-adds-up.py:54-62 | no smaller bound holds: for any slack there are amounts that pass all three and drift that close to 0.05 |
| `Texts.IntOfStr` | tools/hiring_mock.py:286-288 | reading back a printed integer, negative ones included, gives the integer |
| `Texts.IntOfMeans` | tools/hiring_mock.py:286-288 | what reads as an integer is digits, perhaps after one minus sign, and reads as their number |
| `Texts.ValueOfDigits` | tools/hiring_mock.py:286-288 | the decimal digits of a number denote it |
| `Texts.SplitJoin` | tools/hiring_mock.py:258-291 | splitting at the separator and stripping undoes joining, for items without separators or outer spaces |
| `Texts.LowerCharIs` | tools/hiring_mock.py:405-407 | each of the 26 capitals becomes its small letter, and nothing else changes |
| `HiringKey.OutcomeMeans` | tools/hiring_mock.py:267-317 | the policy in one line: a person if anything asks for one, else a refusal if anything refuses, else an interview; the order of reasons does not matter |
| `HiringKey.PolicyMeans` | tools/hiring_mock.py:267-317 | the policy said without any of its own steps: which printed data, table rows, dates and other CVs send a CV to a person, which refuse it, and an interview otherwise |
| `HiringKey.ByCodeIsTheLast` | tools/hiring_mock.py:276-277 | where a code has several rows the last one counts |
| `HiringMock.Sample` | tools/hiring_mock.py:347-349 | drawing without replacement: as many as asked, none more often than it was there, all of them when all are drawn |
| `HiringMock.CategoriesArePlanOk` | tools/hiring_mock.py:166-182 | the category table expects of each trap what the policy owes it, and never asks for a single duplicate |
| `HiringMock.PlainEmailTells` | tools/hiring_mock.py:328-334 | an email without suffix tells both name slugs |
| `HiringMock.TranslateIsTheTable` | tools/hiring_mock.py:405-407 | fourteen accented letters lose their accent, each to its own letter, and no other character changes |
| `HiringMock.PairsApart` | tools/hiring_mock.py:323-325 | names with different slugs give pairs with different emails |
| `HiringMock.DrawnApart` | tools/hiring_mock.py:323-325 | the drawn names have different emails too |
| `HiringMock.Factory.constructor` | tools/hiring_mock.py:320-326 | twice as many full names as first names are drawn, and when slugs differ no two of them would share an email |
| `HiringMock.Factory.Person` | tools/hiring_mock.py:328-334 | the last name of the list goes, the full name is its two parts, and the email, which nobody has used and which is then used, is their slugs, perhaps with a number of two digits; when every name left is free there is no second draw and it stays so |
| `HiringMock.Factory.PositionWith` | tools/hiring_mock.py:336-337 | a position of the table with the wanted status |
| `HiringMock.Factory.Career` | tools/hiring_mock.py:381-395 | one to three jobs without gaps, each with some length, back from the screening year, adding up to the years (one at least), at companies of the table and with the position's title, the earlier ones with their ranks |
| `HiringMock.Factory.Clean` | tools/hiring_mock.py:339-375 | a candidate the policy would interview if the position is open, drawn from the ranges of the source: years, salary, every required skill and three more, date, email of their own, career |
| `HiringMock.SampledSkills` | tools/hiring_mock.py:346-349 | shuffling required and extra skills loses none and adds none |
| `HiringMock.DroppedOne` | tools/hiring_mock.py:436-441 | dropping one required skill leaves a candidate who lacks it and still prints a list |
| `HiringMock.PositionOf` | tools/hiring_mock.py:430-437 | the first row with the candidate's code is the candidate's own position |
| `HiringMock.SetTrap` | tools/hiring_mock.py:421-495 | the category's trap is set in the source's range and nothing else of the candidate changes; the second of two duplicates is the first again, a year on and with a new career; the history row it needs comes along, within its range of days |
| `HiringMock.MakeCandidate` | tools/hiring_mock.py:417-496 | one turn of the loop: clean but for the trap of its category, its file id, an email nobody had or the twin's whole person, and its history row or none |
| `HiringMock.AddCandidate` | tools/hiring_mock.py:496 | a candidate so made keeps the batch: emails shared only inside a duplicate pair, history naming only its own, file ids in order |
| `HiringMock.PairsSurvive` | tools/hiring_mock.py:472-479 | every duplicate has its twin, except the first half while it waits for the second |
| `HiringMock.MadeOneMore` | tools/hiring_mock.py:472-479 | a batch in which everybody is clean but for a trap and the halves of a duplicate are one person stays so |
| `HiringMock.TallyOneMore` | tools/hiring_mock.py:445-471 | the history has one row for each candidate whose trap needs one |
| `HiringMock.TitleOfItsOwn` | tools/hiring_mock.py:398-403 | the title behind a position's code is the position's |
| `HiringMock.TitleOfUnknown` | tools/hiring_mock.py:398-403 | a code of no position gets one of two titles, by whether it begins with ML |
| `HiringMock.NextCandidate` | tools/hiring_mock.py:417-496 | the same as a step of the batch, the second of two duplicates being the first one's person |
| `HiringMock.BuildLine` | tools/hiring_mock.py:415-496 | a line of the table adds its count of files, all of its category, and leaves no duplicate unpaired |
| `HiringMock.AddOldHistory` | tools/hiring_mock.py:497-510 | four harmless rows of people who are not in the batch join the history and disturb nothing |
| `HiringMock.Build` | tools/hiring_mock.py:411-512 | for every random stream the batch follows the table line by line and is as the policy needs it: everybody clean but for a trap, the duplicates one person, the history one row for each candidate that needs it and four harmless ones; with slugs that differ it always finishes and no email has a suffix |
| `HiringMock.TotalOfPrefix` | tools/hiring_mock.py:415-417 | the numbering of files by lines |
| `HiringKey.FileIdsDiffer` | tools/hiring_mock.py:419 | different file numbers have different padded names, beyond 999 too |
| `HiringKey.FileIdShows` | tools/hiring_mock.py:419 | a file's name is its number in three digits or more |
| `HiringKey.SharedMeans` | tools/hiring_mock.py:642 | an email is found among the other CVs exactly when another candidate has it |
| `HiringKey.SkilledMeans` | tools/hiring_mock.py:290-293 | a candidate with all required skills, printed and read back, lacks none |
| `HiringKey.LacksOneMeans` | tools/hiring_mock.py:290-293 | a candidate without one of them does, whatever the case of letters |
| `HiringKey.EmailStory` | tools/hiring_mock.py:295-304 | history and the other CVs say of an email exactly what the candidate's category put there |
| `HiringKey.CleanAnswer` | tools/hiring_mock.py:267-317 | a clean candidate is interviewed, refused or reviewed by the state of the position and by history alone |
| `HiringKey.FaultyAnswer` | tools/hiring_mock.py:267-317 | a candidate short of years or of a skill is refused |
| `HiringKey.ReviewAnswer` | tools/hiring_mock.py:267-317 | no email, an unknown code, too high a salary or too late a date go to a person whatever else is wrong |
| `HiringKey.TrappedAnswer` | tools/hiring_mock.py:638-646 | each trap gets the decision of its category |
| `HiringKey.AnswerIsTarget` | tools/hiring_mock.py:638-646 | for every batch the generator can build, the policy asked about any candidate against all others gives the category's target: the assertion cannot fail |
| `HiringKey.ExpectedRows` | tools/hiring_mock.py:638-657 | the loop of the key: every row is the policy's answer about its candidate, against the history and all other CVs, and is the decision the candidate's line expects |
| `HiringKey.Generate` | tools/hiring_mock.py:660-664 | generator and key together, for any tables fit for the traps: 44 candidates line by line, each row the policy's answer about its candidate and the one its line expects; with slugs that differ it finishes and no email has a suffix |
| `HiringNames.FirstNamesApart` | tools/hiring_mock.py:140-146 | the 48 first names have different slugs without dots |
| `HiringNames.LastNamesApart` | tools/hiring_mock.py:147-154 | so have the 54 last names |
| `HiringTables.TablesAreOk` | tools/hiring_mock.py:46-160 | the shipped positions, skills, codes and companies are fit for the traps |
| `HiringTables.Generate` | tools/hiring_mock.py:660-664 | the shipped generator, for every random stream: it finishes, the candidates follow the category table and are clean but for their traps, the two duplicates are one person, no email ever needed a second draw, and the policy asked about each of the 44 gives its category's decision |
| `SpanModel.NextKeepsInv` | backend/app/core/events.py:87-145 | every step of any context, values set on closed spans included, keeps: parents older and in the same trace, one true row for each closed span of a list and none for an open one, handed-over lists as they were, a visit for every list but those handed over in an outage, no visit within 30 s of an unreachable one |
| `SpanModel.RunKeepsInv` | backend/app/core/events.py:101-192 | so does every run |
| `SpanModel.BeginShape` | backend/app/core/events.py:105-133 | a span hangs from the explicit parent or from what its context held, and shares the rows of the latter only |
| `SpanModel.EndShape` | backend/app/core/events.py:138-145 | an end closes its span, appends its row, restores the context, and hands the list over only when nothing was there before |
| `SpanModel.EndKeepsVisits` | backend/app/core/events.py:172-190 | at most one visit for each local trace, with its rows and what they held at that moment |
| `SpanModel.EndKeepsWritten` | backend/app/core/events.py:172-190 | a list handed over is visited at once, unless an earlier visit found the database unreachable and 30 s have not passed since its wait ended: there is no other way to lose one |
| `SpanRuns.VisitShowsItsSpans` | backend/app/core/events.py:157 | a visit has the whole list and, beside each row, what the row's span holds at that moment, or NULL where the span had no data when it ended |
| `SpanRuns.EndedSpanIsWritten` | backend/app/core/events.py:135-190 | a span that ends in time is in the visit its outermost span makes, with its trace, parent, step, status, links and data, and with the message if an exception left it, unless somebody sets another one |
| `SpanRuns.OutermostSpanIsWritten` | backend/app/core/events.py:135-190 | so is the outermost span itself |
| `SpanRuns.NextExtends` | backend/app/core/events.py:101-145 | a closed span, a row, a handed-over list and a visit never change again |
| `SpanRuns.RunExtends` | backend/app/core/events.py:101-192 | over whole runs too |
| `SpanRuns.EndRestoresContext` | backend/app/core/events.py:139 | whatever happens inside a span, in any context, its end gives its context back what it held before |
| `SpanRuns.EndedInTime` | backend/app/core/events.py:140-145 | a span that ends no later than its outermost span is in what that one hands over, with the row it had when it ended, links included |
| `SpanRuns.EndedTooLate` | backend/app/core/events.py:112-145 | a span that ends after it, as a task nobody waited for does, is in no writing, then or ever |
| `SpanRuns.TaskOutlivesItsTrace` | backend/app/core/events.py:101-145 | this does happen: a request that starts a task and answers first, from the start of the recorder |
| `SpanRuns.JoinedRunKeepsInv` | backend/app/core/events.py:101-145 | in runs that wait for what they start, contexts and enclosing spans are open, rows go inner first, and handed-over lists are whole |
| `SpanRuns.OpenSpanHasOpenChild` | backend/app/core/events.py:105-133 | under an open outermost span, an open span elsewhere in its trace means one directly inside is open |
| `SpanRuns.EverySpanHasOneRow` | backend/app/core/events.py:140-145 | a finished local trace has exactly one row for each of its spans, saying what the span held when it ended |
| `SpanRuns.InnerSpansComeFirst` | backend/app/core/events.py:140-145 | the row of a span comes before that of the span it was opened in |
| `SpanRuns.WithoutOutageAllIsWritten` | backend/app/core/events.py:172-190 | in any run in which no visit finds the database unreachable, every list that was handed over has had its visit |
| `SpanRuns.FinishedTraceIsWhole` | backend/app/core/events.py:101-192 | after any run from the start that waits for its tasks: both of these, and one visit to the database with exactly those rows and no second, or none where the outermost span ended inside an outage |
| `SpanRuns.RaisedEndIsError` | backend/app/core/events.py:135-140 | a span an exception leaves is an error with its row from then on, whatever other contexts do, and its data carries the message, cut at 1000 characters, unless somebody sets another one |
| `SpanRuns.EveryRaisedEndIsError` | backend/app/core/events.py:135-140 | so is every span left by an exception anywhere in any interleaved run, at its end |
| `SpanRuns.CrossedSpansAreErrors` | backend/app/core/events.py:135-140 | and an exception on its way out crosses exactly the open spans of its context, each the next one outwards |
| `SpanRuns.NewSpanBelongsToItsParent` | backend/app/core/events.py:116-130 | after any run, a new span has its parent's trace and its process, rule and norm rule unless it names its own, never the parent's instance, and as data exactly the values it was given that are no links |
| `SpanRuns.SetHolds` | backend/app/core/events.py:87-91 | values set later join links and data by their names, over what was there, and change nothing else of the trace |
| `SpanRuns.RunKeepsLinks` | backend/app/core/events.py:87-91 | links are always the four of the list, however spans are set |
| `SpanRecorder.Recorder.StartTask` | backend/app/core/events.py:94 | a task starts with a copy of the context: one step of the machine |
| `SpanRecorder.Recorder.EndTask` | backend/app/core/events.py:94 | and ends without one |
| `SpanRecorder.Recorder.Enter` | backend/app/core/events.py:102-133 | entering the block, in place, is the opening step |
| `SpanRecorder.Recorder.SetValues` | backend/app/core/events.py:87-90 | setting values, on a closed span too, is the step that splits links from data |
| `SpanRecorder.Recorder.Leave` | backend/app/core/events.py:134-145 | leaving it, with an exception or not, is the closing step |
| `SpanRecorder.Recorder.Write` | backend/app/core/events.py:176-192 | the write and its breaker are the visit of that step |
| `UploadPool.NextKeepsInv` | frontend/src/api/live.ts:170-192 | every reply or failure keeps: each claimed file read or with one worker, events in step, results with their origin, nobody idle while files are left |
| `UploadPool.RunKeepsInv` | frontend/src/api/live.ts:165-198 | so does every interleaving, and it is no longer than the replies still owed |
| `UploadPool.StartIsInv` | frontend/src/api/live.ts:194-196 | the start: four workers, or one a file if fewer |
| `UploadPool.PoolIsBounded` | frontend/src/api/live.ts:169-196 | at most four files, and never more than there are, are out at once; whoever waits can be answered or fail; and no run is longer than two replies a file, so the pool stops |
| `UploadPool.TwoRepliesHappen` | frontend/src/api/live.ts:175-180 | the bound is reached: a known file that is still pending takes two replies |
| `UploadPool.SuccessIsComplete` | frontend/src/api/live.ts:169-198 | when all workers finish, `results[i]` is the server's last word about `files[i]`, and the events are two a file, reading before read, numbered 1 to n in order |
| `UploadPool.ReadsAreNumbered` | frontend/src/api/live.ts:181-191 | the done counts told are 1, 2, 3 and so on |
| `UploadPool.ProgressTestIsExact` | frontend/src/routes/Inbox.tsx:264-265 | the inbox's test holds exactly when every file has been read, and never once an upload has failed |
| `UploadPool.FailureLosesOnlyItsFile` | frontend/src/api/live.ts:194-197 | a failed upload ends its worker only: when all is quiet and a worker ran out of files, the files without a result are the failed ones, fewer than four |
| `UploadPool.Pool.constructor` | frontend/src/api/live.ts:166-196 | the workers run in turn, each to its first request: the start of the machine |
| `UploadPool.Pool.Loop` | frontend/src/api/live.ts:170-172 | the head of the loop claims and announces, or stops: one claim of the machine |
| `UploadPool.Pool.Resume` | frontend/src/api/live.ts:175-192 | a reply wakes its worker until its next request: one step of the machine |
| `UploadPool.Pool.Reject` | frontend/src/api/live.ts:175-178 | a rejection stops it and nobody else |
| `AmountGrammar.ParserIsTheGrammar` | backend/app/common/normalization.py:61-79 | an unsigned text is read as an amount exactly when it is one of the grammar's three forms for it |
| `AmountGrammar.OkIsAmount` | backend/app/common/normalization.py:60-83 | whatever is read is, after an optional sign, an unsigned amount of the grammar, and is read as its canonical text |
| `AmountGrammar.AmountIsOk` | backend/app/common/normalization.py:60-83 | every such text is read, up to the 28-digit limit |
| `AmountGrammar.AcceptedIff` | backend/app/common/normalization.py:60-83 | so a text is accepted exactly when it is one: anything else, a letter, a second sign, is refused |
| `AmountGrammar.DenotedIsRead` | backend/app/common/normalization.py:63-78 | a whole number, a plain decimal and a grouped amount are read as what they denote |
| `AmountGrammar.NoTextHasTwoValues` | backend/app/common/normalization.py:63-78 | no text denotes two amounts |
| `AmountGrammar.LoneSeparatorBeforeThreeIsRefused` | backend/app/common/normalization.py:74-78 | a lone separator before three digits is refused |
| `AmountPrinting.PlainDenotes` | backend/app/common/normalization.py:74-79 | 1802,90 and 1802.90 denote 180290 cents, and so for every amount |
| `AmountPrinting.InGroupsDenotes` | backend/app/common/normalization.py:63-73 | 1.802,90 and 1,802.90 denote it too, and so for every amount |
| `AmountPrinting.ReducesToAmount` | backend/app/common/normalization.py:54-60 | whatever sign, parentheses, currency marks and spaces are around it, an amount reduces to its sign and itself |
| `AmountPrinting.EveryPrintingIsRead` | backend/app/common/normalization.py:54-83 | every amount in every such printing is read as its canonical text, 26 integer digits included; longer ones are refused |
| `AmountCleaning.InvisibleOnes` | backend/app/common/normalization.py:6 | the invisible characters are the zero-width spaces and joiners, the byte order mark and the soft hyphen |
| `AmountCleaning.InvisibleDoesNotCount` | backend/app/common/normalization.py:29-30 | an invisible character anywhere in a text changes nothing of what is read |
| `AmountCleaning.RunIsOneSpace` | backend/app/common/normalization.py:31 | a run of blanks of any kind and length becomes one space |
| `AmountCleaning.OneSpaceKeeps` | backend/app/common/normalization.py:31 | line ends, single spaces and everything else stay |
| `AmountCleaning.BlanksDoNotCount` | backend/app/common/normalization.py:29-31 | texts that Unicode normalises to the same but for a run of blanks are read alike |
| `AmountCleaning.CleanedEnds` | backend/app/common/normalization.py:31 | a cleaned text has no white space at its ends |
| `AmountPrinting.MoneyIsIdempotent` | backend/app/common/normalization.py:54-83 | reading a canonical text again changes nothing; a negative zero keeps its sign |
| `Reset.Deployment.Quarantine` | deploy/reset-demo.py:554-558 | wherever it stops, between a rename and its record too, every file is in exactly one of the two places, unchanged, the lock stays, and the record lists the quarantine but for that one file; if nothing fails only the lock is left |
| `Reset.Deployment.MoveOne` | deploy/reset-demo.py:555-558 | one turn: the file moves and is recorded, or stays, or moves unrecorded when the error strikes in between |
| `Reset.Deployment.PutBack` | deploy/reset-demo.py:559-564 | renames back may fail too: nothing is lost whatever happens; when all go the directory is as it was and the quarantine gone; and if nothing else fails, the quarantine that cannot be dropped holds the one unrecorded file |
| `Reset.Deployment.RemoveTrash` | deploy/reset-demo.py:566 | the quarantine goes, or what is left of it stays; nothing else changes |
| `Reset.Deployment.Run` | deploy/reset-demo.py:424-566 | with failures at any steps: refused exactly for a bad seed, an old quarantine or a held lock; rolled back in both stores; rolled back in the database with the undoing of the moves interrupted, nothing lost, and after a single failure one file left behind; done in both; or committed with the quarantine left. A kill leaves nothing lost and one of the two databases; the lock file is never moved; without failures it is done |
| `Reset.OneLeftMeans` | deploy/reset-demo.py:556-562 | a quarantine with one file in it: all the others are back, unchanged |
| `Reset.AppliedLast` | deploy/reset-demo.py:424-553 | a statement is applied to what the earlier ones have made of the database |
| `Reset.AppliedAppend` | deploy/reset-demo.py:424-553 | all of them are, in their order |
| `Reset.RenameBack` | deploy/reset-demo.py:560-561 | a rename back keeps the union of the two places |
| `TraceReplay.Replay` | deploy/reset-demo.py:519-549 | the restored events have fresh ids, the same traces, spans and parents, roots exactly where a parent was not recorded, and the data with the replay's marks |
| `TraceReplay.NameAll` | deploy/reset-demo.py:519-523 | the first pass names every trace and every span, one to one, before any row is made |
| `TraceReplay.ForestIsKept` | deploy/reset-demo.py:534-549 | renaming one to one keeps who shares a trace or a span and who is whose parent, in any order of the list |
| `TraceReplay.RootsAreKept` | deploy/reset-demo.py:540 | an event becomes a root exactly when its parent is not in the item |
| `TraceReplay.DataIsKept` | deploy/reset-demo.py:525-532 | recorded data survives but for the five marks, which say what the replay is |
| `Merge.MergeSheet` | tools/prepare_batch2.py:51-90 | succeeds exactly when the header has every column, every amount it has to read is a finite number, and no item contradicts the table or an earlier item; then adds only items under new, different keys, every item is represented, and nothing is added when all already were |
| `Merge.MergeItem` | tools/prepare_batch2.py:62-90 | one row: unreadable, skipped, refused or appended, keeping what the earlier ones left |
| `Merge.LookUp` | tools/prepare_batch2.py:74-87 | the rows with the item's key in order, until one says the same or has an amount that cannot be read: repeated, stopped, conflicting or unknown |
| `Merge.CompareMeans` | tools/prepare_batch2.py:76-82 | a comparison agrees exactly when every column does, and raises only at a column whose amount cannot be read, none before it differing |
| `Merge.CellsAgreeIff` | tools/prepare_batch2.py:77-81 | amounts agree when both are the same finite number, texts when they are equal after trimming; only an unreadable amount raises |
| `Merge.SameMeans` | tools/prepare_batch2.py:76-82 | a row says the same as an item exactly when each column does in that sense |
| `Merge.HasKeyIff` | tools/prepare_batch2.py:74 | keys compare as printed texts, an empty cell printing as None |
| `Merge.ItemOkIff` | tools/prepare_batch2.py:65-73 | an item is refused for its amounts alone, and only for one that is missing or no finite number |
| `Merge.AsRowHas` | tools/prepare_batch2.py:88 | the added row has the header's columns and no others, and under each what the item has there |
| `Merge.StuckInTable` | tools/prepare_batch2.py:74-89 | only rows of the original table can make a comparison raise: rows added by the merge never do |
| `Merge.Skipped` | tools/prepare_batch2.py:84-85 | a repeated row changes nothing and contradicts nothing |
| `Merge.Contradicted` | tools/prepare_batch2.py:86-87 | a known key that no row with it agrees with means no consistent merge exists |
| `Merge.Appended` | tools/prepare_batch2.py:88-90 | a new key joins the table and the rows later items are compared with |
| `Merge.SameKeySays` | tools/prepare_batch2.py:76-85 | two items with one new key that are both represented say the same |
| `Merge.Output.Prepare` | tools/prepare_batch2.py:44-93 | both sheets or nothing, decided by both headers, all amounts and all keys: the saved workbook is the old rows in order and then the added ones, and otherwise nothing is saved |
| `Merge.RepresentedIsConsistent` | tools/prepare_batch2.py:76-87 | items the table already says never conflict |
| `Merge.MergeTwice` | tools/prepare_batch2.py:62-90 | the first result is a merge of the items into the table; merging the same items into it succeeds and adds no row |
| `Merge.AddsNothing` | tools/prepare_batch2.py:62-90 | so does whatever else merges them again into the result of any merge |
| `OrderIndex.BuildIndex` | tools/bench_scale.py:220-224 | the dictionary built in one pass holds under each order the names that claim it, in order, and no empty order |
| `OrderIndex.R16FiresIff` | processes/rules-v3/r16-duplicate-order.py:54-66 | R16 fires exactly when the invoice has an order that somebody else has too |
| `OrderIndex.IndexAgreesWithScan` | processes/rules-v3/r16-duplicate-order.py:54-66 | with unique ids the indexed rule fires exactly when R16 does on everyone else, and a bucket without one's own name is R16's list of twins |
| `OrderIndex.OthersAround` | processes/rules-v3/r16-duplicate-order.py:59-63 | everyone else is the population without this entry, in order |
| `Copies.MakeCopies` | tools/bench_scale.py:140-152 | entry i is copy i // b of base entry i % b, with its own name and order |
| `Copies.Quotient` | tools/bench_scale.py:145 | the counting used in the proofs is Python's // and % |
| `Copies.CopyKey` | tools/bench_scale.py:148-149 | a copy's key is the order's stem, a C and the number |
| `Copies.CopyShare` | tools/bench_scale.py:140-162 | two copies share an order exactly when their numbers are equal and, beyond the base itself, so are their stems; or when one is an order of the base that reads as the other's |
| `Copies.SharingIsKeptIff` | tools/bench_scale.py:140-162 | with at least one full copy, copying keeps who shares an order with whom exactly when stems tell orders apart in the base and no order of the base reads as that of a copy |
| `Copies.DuplicateMeans` | tools/bench_scale.py:140-162 | for any base and any number of entries, an entry is a duplicate exactly when another entry of its copy is there and shares its stem (its key, in the base itself), or when an order of the base reads as a copy's |
| `Copies.RateIsKeptIff` | tools/bench_scale.py:140-152 | the promise, that the duplicate rule fires at the base's rate, holds of `n` entries if and only if those conditions on keys, stems and places agree with the base's duplicates: any base, any `n`, a last copy cut short included |
| `Copies.WholeRateIsKeptIff` | tools/bench_scale.py:140-152 | of whole copies it holds if and only if orders of the base that read as copies are duplicates already and each entry is a duplicate exactly when its copies are met by others: a condition on the base alone |
| `Copies.RateIsKeptByStems` | tools/bench_scale.py:140-152 | and where no order of the base reads as a copy's, if and only if the duplicates of the base are its entries with a shared stem |
| `Copies.TrimmedOrdersAreTold` | tools/bench_scale.py:148-149 | stems tell orders apart when orders have no space at the end and are more than separators |
| `Copies.CopiesKeepDuplicates` | tools/bench_scale.py:140-152 | so it holds, in whole copies, when stems tell orders apart and no order reads as a copy's |
| `Copies.NoCNoCopy` | tools/bench_scale.py:148-149 | no order reads as a copy's when no order of the base holds a C |
| `Copies.SeparatorOrdersBecomeDuplicates` | tools/bench_scale.py:140-152 | it does not for the order "-": no duplicates in the base, but all its copies are |
| `Copies.OneEntryOver` | tools/bench_scale.py:140-152 | nor is it kept when the last copy is cut off after its first entry and that entry had a twin |
| `Copies.CutCopyIsNoDuplicate` | tools/bench_scale.py:140-152 | as for two entries with the order "1" and one copy |
| `Sorting.SortPermutes` | frontend/src/lib/urgency.ts:106 | sorting keeps every element as often as it was there |
| `Sorting.SortOrders` | frontend/src/lib/urgency.ts:106 | and orders them |
| `Sorting.OrderedIsUnique` | frontend/src/lib/urgency.ts:106 | where no two elements are level there is only one order |
| `Sorting.SortIgnoresInputOrder` | frontend/src/lib/urgency.ts:106 | so the result does not depend on the order of the input |
| `Triage.TriageIsAPermutation` | frontend/src/lib/urgency.ts:63-107 | every case is in the list once, with its own flags and score, in order |
| `Triage.FlagsMean` | frontend/src/lib/urgency.ts:76-85 | a case is overdue from the 31st day after its issue date on, soon in the eight days before, large from the threshold on, whatever nobody has read being neither |
| `Triage.ScoreIs` | frontend/src/lib/urgency.ts:87-92 | the score in full, from the issue date and the flags |
| `Triage.TriageIgnoresInputOrder` | frontend/src/lib/urgency.ts:63-107 | with distinct ids the list does not depend on the order cases come in |
| `Triage.TiersAreInOrder` | frontend/src/lib/urgency.ts:86-92 | every overdue case precedes every soon one, then the large ones, then the rest: bonuses never cross a tier, said of the flags themselves |
| `Triage.OlderFirstIff` | frontend/src/lib/urgency.ts:86-106 | within the two dated tiers the older or closer goes first exactly when its days, capped at a year, outweigh the other's flags |
| `Triage.OlderIsNotAlwaysFirst` | frontend/src/lib/urgency.ts:63-107 | the comment's promise fails of the list itself: a case one day late with a review pending comes before one eleven days late |
| `Triage.ShareOfLarge` | frontend/src/lib/urgency.ts:65-69 | with five amounts or more, at least a fifth of them and one more reach the threshold and at most a fifth exceed it |
| `Triage.LargeFlagsAreCounted` | frontend/src/lib/urgency.ts:84 | the cases flagged large are as many as the amounts that reach it |
| `Replay.Ledger.Decide` | deploy/run-seed.py:30-105 | succeeds exactly when there is an instance for every name and no more, every one of them is pending with the seed's hash and symbols, and every verdict and its reasons are the expected ones where the seed gives any; then appends one decision each and marks it, else keeps nothing |
| `Replay.PopulationMeans` | deploy/run-seed.py:41-43 | the population test, said of the instances and the names |
| `Replay.FitsMeans` | deploy/run-seed.py:44-88 | the two tests of an instance, said of the seed's fields |
| `Replay.Ledger.DecideSelected` | deploy/run-seed.py:66-95 | the second loop: all decided, or at the first surprise nothing kept |
| `Replay.SelectedIsDistinct` | deploy/run-seed.py:41 | selecting by name keeps instances apart, so nobody is decided twice |
| `Replay.Ledger.Reprocess` | deploy/run-seed.py:135-181 | succeeds exactly when all were decided; appends a decision only where the verdict changed; earlier ones stand; changed and unchanged add up to the selection; every instance's latest decision is its present verdict |
| `Replay.LatestOf` | deploy/run-seed.py:143-150 | the dictionary filled in order keeps each instance's last decision |
| `Replay.ChangesOf` | deploy/run-seed.py:160-176 | among the new decisions, an instance has the one of its changed verdict, or none |
| `Replay.LatestIsTheVerdict` | deploy/run-seed.py:160-176 | afterwards the latest decision of every selected instance is its verdict, and nobody else's latest changed |
| `Replay.ChangedPlusUnchanged` | deploy/run-seed.py:261-266 | changed plus unchanged is the selection |
| `Replay.SecondPassAddsNothing` | deploy/run-seed.py:135-181 | the same verdicts a second time append nothing |
| `Migration.RowRoundTrip` | backend/alembic/versions/0008_event_spans.py:40-47 | a row comes back exactly as it was, SQL NULL data included, if and only if it is not an unpriced row that carries the migration's own marker |
| `Migration.ConflictsIff` | backend/alembic/versions/0008_event_spans.py:32-38 | a conflict is a price beside data that is no object or has one of the three keys |
| `Migration.MarkedIff` | backend/alembic/versions/0008_event_spans.py:74-79 | a row is marked when its data is an object with the marker, as a boolean or as a text |
| `Migration.CostInMeans` | backend/alembic/versions/0008_event_spans.py:74 | the price read on the way back: none where it is absent or null, a number or a numeric text otherwise; anything else makes the cast fail |
| `Migration.UpgradedMeans` | backend/alembic/versions/0008_event_spans.py:40-47 | upwards a priced row carries price, marker and, if it had no data, that too, beside all it had, in its data; other rows stay |
| `Migration.DowngradedMeans` | backend/alembic/versions/0008_event_spans.py:73-79 | downwards a marked row gets the price that can be read and loses the three keys or its whole data; other rows get an empty price |
| `Migration.Events.Upgrade` | backend/alembic/versions/0008_event_spans.py:26-48 | goes through exactly when no priced row conflicts, and then moves each price into its data |
| `Migration.Events.Downgrade` | backend/alembic/versions/0008_event_spans.py:67-82 | goes through exactly when every marked price can be read, and keeps, in order, the rows whose references are found and, where they have none, whose referenced table is not empty |
| `Migration.KeptIff` | backend/alembic/versions/0008_event_spans.py:73-82 | the kept rows are the former ones exactly when each comes back as its own |
| `Migration.NothingComesBackWithoutInstances` | backend/alembic/versions/0008_event_spans.py:81-82 | on a database without instances no row comes back, those without a reference included: `NOT IN` over no rows is true of a NULL |
| `Migration.UnreferencedComesBackIff` | backend/alembic/versions/0008_event_spans.py:81-82 | a priced row without references comes back exactly when there is some instance and some process |
| `Migration.ThereAndBack` | backend/alembic/versions/0008_event_spans.py:26-82 | the upgrade goes through exactly when nothing conflicts, else changes nothing; and it is undone exactly when no unpriced row carries the marker, every reference is found, and where a row has none the referenced table is not empty |

## Left out

- Retrieval, agents, OCR, the real decision engine, the sandbox, HTTP and the screens: input and output around the parts modelled; verdicts in `Replay` are any function of the instance.
- Single-branch rules (R01, R09, R11, R12, R15) and schema-only migrations: they would only add easy members.
- Texts: upper-casing, letters and what reads as a finite decimal are parameters (`RuleKit.Platform`); lower-casing in `Texts` covers ASCII letters, which is all the modelled emails and skills need.
- Amounts are real numbers: results are assumed to fit the 28 significant digits of Python's decimal context, except where the parser's limit is the point. NaN and infinities do not read as decimals.
- The wording of reasons: rules return verdicts; R17's number of edits and the set of reasons of the policy are kept.
- Sources whose cells are not texts: a numeric 0 or a boolean counts as a text here.
- `tools/hiring_mock.py`: phone, degree, English level, language, scanning, notes, rendering and the workbook are not modelled, nor the printed dates (days are numbers, the screening day among them). The final sort of the history by email is any reordering, since no result depends on it.
- HiringMock.Build: with names whose slugs collide, the loop that draws suffixes until one is free may not end; the model gives up after a given number of attempts and then says `ok == false`.
- Span recorder: durations, start times and the OpenTelemetry and Logfire halves are left out, and `record`, which writes one row directly. Identifiers are numbers in order of opening, so distinct.
- SpanRuns.RaisedEndIsError: the value under `error` is the message as Python prints it, a parameter here, cut at 1000 characters.
- Upload pool: `onProgress` is assumed not to raise, and the names and the counts of read values in its events are left out.
- AmountGrammar.ParserIsTheGrammar: digits are the ASCII ones, while the source's pattern takes every decimal digit of Unicode.
- AmountPrinting.ReducesToAmount: compatibility normalisation is any function that leaves the characters of printed amounts alone; its tables are not modelled.
- Reset.Deployment.Run: the statements of the transaction are any functions of the database and its commit is one step. Locks and timeouts are outcomes of a step.
- TraceReplay.Replay: status, times and durations are copied as they are and not modelled. Random identifiers are drawn from a counter, so fresh by construction.
- Merge.Output.Prepare: reading the CSV files, the path checks and the manifest are left out; items come as read.
- OrderIndex.IndexAgreesWithScan: sorting the names and cutting the list to five in the reason are left out.
- Copies.MakeCopies: of an entry's symbols only the purchase order is kept; the copier leaves the others as they are.
- Triage.TriageIsAPermutation: days are day numbers, so time zones and daylight saving are not modelled; the share of a fifth is taken exactly.
- Replay.Ledger.Decide: the captured inputs and the published version are left out; verdicts and reasons are any functions of the instance.
- Migration.ThereAndBack: `cost` is a real number, so a stored NaN is not modelled, and the columns added and dropped beside it hold nothing the way back reads.
