# BaZi chart and interpretation core, in Dafny

This project models the computing core of a four-pillar (八字, BaZi) fortune
service. It covers two files: `backend/utils/bazi-calculator.js` and
`backend/utils/ai-service.js`.

- `wrappers.dfy` holds the `Option` type.
- `js_strings.dfy` (module `JsStrings`) models the JavaScript built-ins
  the core relies on: the String methods `split`, `trim`, `includes` and
  `replace(/^##\s*/, '')`, the Array methods `join` and `indexOf`, and
  radix-less `parseInt`. `StartsWith` expresses the `^##` anchor of the
  regular expression. The module proves the split/join round trips and
  what `trim` guarantees.
- `bazi_calculator.dfy` (module `BaziCalculator`) covers the calculator:
  - the stem, branch, time-block and element tables;
  - `getHourBranch`, `parseTimeRange`, `getNayin` and `getHourGanIndex`
    (the 五鼠遁 rule that derives the hour stem from the day stem);
  - `calculateElements`, the five-element tally, as a loop;
  - the part of `calculateBazi` that builds the four pillars and the
    tally from the year, month and day pillars the calendar library gives.

  The proved properties include:
  - `getNayin` knows exactly the sixty pairs whose stem and branch have
    the same parity, and names each by its position in the sexagenary
    cycle;
  - the hour pillar is always one of those sixty;
  - the tally of a chart always adds up to eight.
- `ai_service.dfy` (module `AiService`) covers the interpretation side:
  - `parseInterpretation` is an imperative line scanner, proved against a
    declarative definition. Each section's text is the non-empty cleaned
    lines after that section's last heading line, up to the next heading.
  - `getMockInterpretation` is the fixed fallback.
  - `getAIInterpretation` is the rule that every failure of the completion
    service yields that fallback.

A heading that appears twice restarts its section, and the text written
under the first occurrence is lost. The model keeps this as the source
does (`RepeatedHeadingRestarts`, `RepeatedOverviewExample`).

Three behaviours of the code are kept as the code has them:

- **Unknown nayin pairs.** `getNayin` does not fail on a stem and branch
  pair outside the sixty; it returns 未知, and `GetNayin` does the same.
  `NayinKnownIffSameParity` shows that 未知 comes exactly from the pairs of
  unequal parity. With the intended time-block lookup (`GetHourBranch`),
  `HourPillarNayin` shows that the hour pillar never gets it; with the
  lookup as written, an inherited name gives 未知 (see Findings).
- **Unrecognised time blocks.** A string that is not one of the twelve
  labels falls back to 子, except for the names every object inherits
  from `Object.prototype` (see Findings).
- **Tally total.** The tally adds up to eight only when every symbol is a
  known stem or branch. `CalculateElements` states the sum together with
  the unknown symbols, and `CalculateBazi` states eight for the charts it
  builds.

## Model

| member | source | states |
|---|---|---|
| `BaziCalculator.GetHourBranch` | backend/utils/bazi-calculator.js:48-50 | the branch of a time block is always one of the twelve branch symbols, whatever the string (the fallback is 子) |
| `BaziCalculator.TimeToBranchEntries` | backend/utils/bazi-calculator.js:15-28 | the time-block table holds each of the twelve labels, and label i maps to branch i |
| `BaziCalculator.HourBranchOfLabel` | backend/utils/bazi-calculator.js:48-50 | each of the twelve labels gets its own branch; every other string gets 子 |
| `BaziCalculator.TimeBlockStart` | backend/utils/bazi-calculator.js:15-28 | label i is two digits and a '-'; its start hour is 2i - 1 (mod 24), and its branch is the one whose two-hour window opens at that hour |
| `BaziCalculator.ParseTimeRange` | backend/utils/bazi-calculator.js:55-58 | the start hour is what `parseInt` reads from the field before the first '-' (the special case keeps 23 as 23); a block that opens with two decimal digits and a '-' gives the hour those digits spell |
| `BaziCalculator.LeadingTwoDigits` | backend/utils/bazi-calculator.js:56 | `parseInt` of the field before the first '-' of a block that opens with two digits and a '-' is the decimal value of the two digits |
| `BaziCalculator.ElementMapTotal` | backend/utils/bazi-calculator.js:31-43 | ELEMENT_MAP has an entry for every stem symbol and every branch symbol |
| `BaziCalculator.StemElementPairs` | backend/utils/bazi-calculator.js:32-36 | stems 2k and 2k + 1 share element k, in the order wood, fire, earth, metal, water |
| `BaziCalculator.BranchElementSeasons` | backend/utils/bazi-calculator.js:37-42 | 丑 辰 未 戌 are earth; the other two branches of each season are water (亥 子), wood (寅 卯), fire (巳 午) or metal (申 酉) |
| `BaziCalculator.GetHourGanIndex` | backend/utils/bazi-calculator.js:121-144 | for every day stem and hour branch the hour stem is a valid stem index (never undefined), with the parity of the branch |
| `BaziCalculator.GetNayin` | backend/utils/bazi-calculator.js:79-115 | `getNayin` always gives 未知 or one of the thirty nayin names |
| `BaziCalculator.NayinIndex` | backend/utils/bazi-calculator.js:81-110 | every entry of the nayin table is one of the thirty names, given by its position in the name list |
| `BaziCalculator.HourStemClosedForm` | backend/utils/bazi-calculator.js:127-141 | the BASE_GAN rule equals (2 * day stem + hour branch) mod 10 |
| `BaziCalculator.HourStemFiveApart` | backend/utils/bazi-calculator.js:127-138 | day stems five apart (甲/己, 乙/庚, …) give the same hour stem in every hour |
| `BaziCalculator.HourStemSteps` | backend/utils/bazi-calculator.js:140-141 | the 子 hour takes the day's base stem, and each later hour takes the next stem (mod 10) |
| `BaziCalculator.HourStemAcrossMidnight` | backend/utils/bazi-calculator.js:127-141 | the 子 hour of the next day stem takes the stem after the 亥 hour's, so the hour stems run on without a break |
| `BaziCalculator.CyclePosition` | backend/utils/bazi-calculator.js:81-110 | every stem and branch of equal parity meet at a position k < 60 of the sexagenary cycle |
| `BaziCalculator.NayinOfCyclePosition` | backend/utils/bazi-calculator.js:81-110 | the nayin table gives cycle position k the name k / 2, so positions 2m and 2m + 1 share a name |
| `BaziCalculator.NayinOfUnevenYangPair` | backend/utils/bazi-calculator.js:79-115 | a yang stem with a yin branch gets 未知 |
| `BaziCalculator.NayinOfUnevenYinPair` | backend/utils/bazi-calculator.js:79-115 | a yin stem with a yang branch gets 未知 |
| `BaziCalculator.NayinNamesDistinct` | backend/utils/bazi-calculator.js:81-110 | the thirty nayin names are pairwise distinct and none of them is 未知 |
| `BaziCalculator.NayinKnownIffSameParity` | backend/utils/bazi-calculator.js:79-115 | `getNayin` gives a name other than 未知 if and only if stem and branch have the same parity, and that name is the one of the pair's cycle position |
| `BaziCalculator.NayinPairsShareName` | backend/utils/bazi-calculator.js:81-110 | cycle positions 2m and 2m + 1 share their nayin, and different m give different nayin |
| `BaziCalculator.HourBranchAsWritten` | backend/utils/bazi-calculator.js:48-50 | the lookup as written never yields `undefined`: it gives an own table entry, an inherited Object.prototype member, or 子 |
| `BaziCalculator.InheritedNamesAreNoLabels` | backend/utils/bazi-calculator.js:15-28 | none of the names inherited from `Object.prototype` is one of the twelve time-block labels |
| `BaziCalculator.JsRemainder` | backend/utils/bazi-calculator.js:141 | JavaScript's `%` gives a remainder of magnitude below the divisor whose sign follows the dividend: non-negative for a non-negative dividend, where it equals the mathematical remainder, and non-positive for a negative one, where it is the dividend itself when -n < a < 0 |
| `BaziCalculator.HourBranchAsWrittenDiffers` | backend/utils/bazi-calculator.js:48-50 | the written lookup agrees with `GetHourBranch` on every string except the inherited names, where it returns the inherited member; with such a name on a 甲 or 己 day the hour stem is undefined |
| `BaziCalculator.HourGanAsWritten` | backend/utils/bazi-calculator.js:190-196 | with the lookup as written, a string that is not an inherited name gets the hour stem of `GetHourBranch`'s branch; an inherited name gets no hour stem exactly on a 甲 or 己 day |
| `BaziCalculator.ConstructorLabel` | backend/utils/bazi-calculator.js:190-196 | the label "constructor" on a 甲 day gives no hour stem as written, where the intended fallback gives the 甲子 hour |
| `BaziCalculator.SymbolsOfChart` | backend/utils/bazi-calculator.js:66-71 | the tally reads the year, month, day and hour pillars in that order, stem before branch |
| `BaziCalculator.Tally` | backend/utils/bazi-calculator.js:64-71 | the counter object always has exactly the five element keys |
| `BaziCalculator.CountsAddUp` | backend/utils/bazi-calculator.js:63-74 | every symbol is counted once: under its element, or as unknown |
| `BaziCalculator.CountOfGrows` | backend/utils/bazi-calculator.js:69-70 | reading more symbols never lowers a counter |
| `BaziCalculator.TallySnoc` | backend/utils/bazi-calculator.js:69-70 | one more known symbol raises its element's counter by one and leaves the others; an unknown symbol changes no counter |
| `BaziCalculator.TallyCounts` | backend/utils/bazi-calculator.js:63-74 | each counter is the number of symbols of its element, and the five counters plus the unknown symbols number all symbols |
| `BaziCalculator.CountSymbol` | backend/utils/bazi-calculator.js:67-70 | one increment step turns the tally of the symbols seen into the tally of one more, and records an `undefined` entry exactly when an unknown symbol was seen |
| `BaziCalculator.CalculateElements` | backend/utils/bazi-calculator.js:63-74 | the counters are the tally of the chart's eight symbols; an `undefined` entry appears exactly when a symbol is unknown; counters plus unknown symbols number eight |
| `BaziCalculator.MakePillar` | backend/utils/bazi-calculator.js:199-220 | a pillar carries its stem and branch symbols, and its nayin is known if and only if the stem's and the branch's indices have the same parity |
| `BaziCalculator.NayinOfSymbols` | backend/utils/bazi-calculator.js:79-115 | for a stem and a branch symbol, `getNayin` gives a name other than 未知 if and only if their indices have the same parity |
| `BaziCalculator.IndexOfSymbols` | backend/utils/bazi-calculator.js:190-194 | `indexOf` finds every stem and every branch symbol at its own index |
| `BaziCalculator.HourBranchIndex` | backend/utils/bazi-calculator.js:190-191 | the index of the hour branch is always in 0..11 and reads back as that branch |
| `BaziCalculator.HourPillarNayin` | backend/utils/bazi-calculator.js:190-218 | for every day stem and time block the hour pillar is a valid sexagenary pair, so its nayin is never 未知 |
| `BaziCalculator.ChartSymbolsKnown` | backend/utils/bazi-calculator.js:199-223 | a chart whose pillars are made of stem and branch symbols has no symbol ELEMENT_MAP does not know |
| `BaziCalculator.LibraryPillarsNayin` | backend/utils/bazi-calculator.js:199-215 | the year, month and day pillars get a nayin other than 未知 if and only if their stem and branch have the same parity |
| `BaziCalculator.CalculateBazi` | backend/utils/bazi-calculator.js:149-273 | the year, month and day pillars are the library's; the hour branch is the time block's and the hour stem follows from the day stem by the 五鼠遁 rule; the hour nayin is known; the elements are the chart's tally and total eight; day master, gender and birth info are carried over |
| `AiService.HeadingFirstMatch` | backend/utils/ai-service.js:111-122 | a line heads a section if and only if it contains that section's title and none of the titles tried before it, and it heads nothing if and only if it contains none of the six |
| `AiService.MatchHeading` | backend/utils/ai-service.js:111-122 | the inner loop returns the first title, in sectionMap order, that the line contains |
| `AiService.ShortLineHeadsNothing` | backend/utils/ai-service.js:111-112 | a line shorter than four characters heads no section |
| `AiService.OverviewHeadingLine` | backend/utils/ai-service.js:111-112 | the line "## 总体概况" heads the overview |
| `AiService.Clean` | backend/utils/ai-service.js:127 | a cleaned content line is one piece of the line: before it only the leading "##" and white space, after it only white space; it has no white space at either end |
| `AiService.CleanIsSlice` | backend/utils/ai-service.js:127 | stripping the heading marks and then trimming keeps one piece of the line with only the mark and white space before it and only white space after it |
| `AiService.BlankLineDropped` | backend/utils/ai-service.js:125 | a white-space-only line would clean to nothing, so the `line.trim()` guard loses no content |
| `AiService.CleanAddsNothing` | backend/utils/ai-service.js:127 | cleaning adds no character, in particular no line break |
| `AiService.ClassifyByTitles` | backend/utils/ai-service.js:108-131 | a line is a heading line if and only if it contains one of the six titles; it heads a section if and only if it contains that section's title and none of the titles before it in sectionMap order; any other line is kept as its cleaned text |
| `AiService.KeptFrom` | backend/utils/ai-service.js:128-130 | no kept content line is empty |
| `AiService.KeptFromSnoc` | backend/utils/ai-service.js:125-131 | a further content line adds its cleaned text to the open section if that text is not empty, and a heading line adds nothing |
| `AiService.StoredIsSectionText` | backend/utils/ai-service.js:115 | the buffer of the current section, joined and trimmed, is exactly that section's text |
| `AiService.TitleScanned` | backend/utils/ai-service.js:113-118 | a heading line stores the current section's text and opens its own section with an empty buffer, and every other section keeps its text |
| `AiService.ContentScanned` | backend/utils/ai-service.js:125-131 | a content line extends the current section's buffer by its cleaned text if not empty, and every other section keeps its text |
| `AiService.ScanLine` | backend/utils/ai-service.js:108-132 | one iteration of the scanning loop keeps the scanner's state in step with the lines read so far |
| `AiService.StoreLast` | backend/utils/ai-service.js:134-137 | after the final store every section holds its text |
| `AiService.ScanLines` | backend/utils/ai-service.js:85-137 | all six keys are present, and each holds the content after its last heading line; a section that has no heading is '' |
| `AiService.ParseInterpretation` | backend/utils/ai-service.js:84-140 | the result of `parseInterpretation` is, key by key, the section text of the text's lines |
| `AiService.LeadingLinesIgnored` | backend/utils/ai-service.js:125 | lines before the first heading belong to no section |
| `AiService.RepeatedHeadingRestarts` | backend/utils/ai-service.js:114-118 | a section whose heading occurs again holds only the content after its last occurrence |
| `AiService.RepeatedOverviewExample` | backend/utils/ai-service.js:108-137 | for the lines "## 总体概况", "甲乙", "## 总体概况", "丙丁" the overview is "丙丁": the first block is lost |
| `AiService.SectionHasNoBlankLine` | backend/utils/ai-service.js:125-136 | every line of a non-empty section text is non-empty and trimmed |
| `AiService.JoinTrimmedUnchanged` | backend/utils/ai-service.js:115 | trimming the joined buffer changes nothing, because every buffered line is non-empty and trimmed |
| `AiService.MockText` | backend/utils/ai-service.js:208-222 | every fallback section text is non-empty |
| `AiService.MockInterpretation` | backend/utils/ai-service.js:207-223 | the fallback has exactly the six keys and every one of them has text |
| `AiService.GetAIInterpretation` | backend/utils/ai-service.js:145-203 | with no API key, a thrown request, a status that is not ok, a body without a message, or content that is not a string, the result is the fallback; otherwise it is the parsed content; all six keys are always present and no failure reaches the caller |
| `JsStrings.Trim` | backend/utils/ai-service.js:127 | `trim` keeps one piece of the string with only white space on either side of it; the result has no white space at either end, is '' exactly for all-white-space strings, and is the string itself when already trimmed |
| `JsStrings.StripHeadingMarks` | backend/utils/ai-service.js:127 | the replace leaves a string that does not start with "##" as it is; otherwise it removes the "##" and the white space run after it, giving a suffix that starts with no white space |
| `JsStrings.IncludesAt` | backend/utils/ai-service.js:112 | `includes` holds if and only if the title occurs in the line at some position, as a contiguous slice |
| `JsStrings.Split` | backend/utils/ai-service.js:104 | `split` gives at least one and at most length + 1 parts, none containing the separator |
| `JsStrings.JoinCons` | backend/utils/ai-service.js:115 | `join` of a first part and further parts is the first part, the separator, then the join of the rest |
| `JsStrings.JoinSplit` | backend/utils/ai-service.js:104 | joining the parts of a split gives back the string |
| `JsStrings.SplitJoin` | backend/utils/ai-service.js:115 | splitting the join of parts without the separator gives back the parts |
| `JsStrings.SplitAtFirstSep` | backend/utils/bazi-calculator.js:56 | the first part of a split is the text before the first separator |
| `JsStrings.IndexOf` | backend/utils/bazi-calculator.js:191 | `indexOf` is -1 exactly when the symbol is absent, and otherwise the first position holding it |
| `JsStrings.ParseInt` | backend/utils/bazi-calculator.js:56 | `parseInt` of a non-empty run of decimal digits is their decimal value, and of an empty or all-white-space string is `NaN` |

## Left out

- The lunisolar calendar library (`Solar`, `Lunar`, `getEightChar`) and
  the `Date` parsing in `calculateBazi` (bazi-calculator.js:151-187) are
  not part of this model. The year, month and day pillars are the input
  `EightChar`.
- The lunar date, solar date and solar-term fields of the result
  (bazi-calculator.js:225-236 and 243-260) come from the same library and
  are not modelled.
- The `try`/`catch` of `calculateBazi` (bazi-calculator.js:150 and
  269-272) rethrows every failure with the prefix 八字计算失败. The model
  takes `birthTime` as a string. A `birthTime` that is not a string (a
  JSON number passes the presence check at routes/bazi.js:12) makes
  `timeRange.split` throw a TypeError at bazi-calculator.js:56, which is
  caught and rethrown there. That path, and failures of the calendar
  library and the date parsing, are not modelled.
- The `hour` that `parseTimeRange` returns is only written to the log
  (bazi-calculator.js:155-157). All console logging is left out.
- BaziCalculator.GetHourBranch: reads only the table's own entries, as
  the code evidently intends. The inherited-member lookup the code
  actually performs is modelled separately as
  `BaziCalculator.HourBranchAsWritten` (see Findings).
- BaziCalculator.GetNayin: takes one stem and one branch character, and
  the model's hour pillar is built on the intended lookup
  (`GetHourBranch`). With the lookup as written, a `birthTime` that is an
  inherited name makes the hour branch the inherited member on every day
  stem, not a branch symbol. What follows from that is not modelled:
  - the nayin key at bazi-calculator.js:113 is the hour stem (or
    "undefined" on a 甲 or 己 day) followed by the member's string form,
    which is no key of the table, so the hour nayin is 未知 on every day
    stem;
  - `ELEMENT_MAP` at bazi-calculator.js:67-68 has no entry for that
    member (nor for the `undefined` stem), so the five counters total
    seven, or six on a 甲 or 己 day, and an `undefined: NaN` entry is
    added.

  `HourGanAsWritten` models the as-written path up to the hour stem.
- BaziCalculator.CalculateElements: uses a flag for the `undefined: NaN`
  entry the source adds for an unknown symbol. The value `NaN` itself is
  not modelled.
- BaziCalculator.ParseTimeRange: states the hour those digits spell only
  for blocks that open with two digits and a '-'. For other strings it
  states only that the result is `JsStrings.ParseInt` of the field
  before the first '-'.
- JsStrings.ParseInt: returns an unbounded integer. JavaScript returns a
  double, so its loss of precision beyond 2^53 and the value -0 are not
  modelled. Neither can arise from the labels.
- AiService.MockText: states in its contract only that each text is
  non-empty. The six texts themselves are the function's body, copied
  from ai-service.js:208-222.
- AiService.GetAIInterpretation: takes the outcome of the HTTP exchange
  as an input (`Exchange`). Left out are:
  - the request itself: URL, headers, model name, temperature 0.7 and the
    2048-token cap (ai-service.js:157-178);
  - the prompt builders `buildSystemPrompt` and `buildUserPrompt`;
  - the JSON decoding and the awaiting.
- Strings are sequences of Unicode scalar values, not of UTF-16 code
  units as in JavaScript. Lengths count code points, and a lone surrogate
  cannot be represented. All the characters the core compares (stems,
  branches, titles, digits, '-', '#', white space) are one code unit
  each, so no modelled comparison depends on this.
- The interpretation is a map from the datatype `SectionKey` to strings,
  not from the source's string keys.
- The HTTP routes, the server, the frontend and the API test script are
  not part of this model.

## Findings

| source | as written | input that shows it | evidently intended | confidence | as-written member | corrected member |
|---|---|---|---|---|---|---|
| backend/utils/bazi-calculator.js:48-50 | The time-block lookup reads a property of a plain object literal, so names that every object inherits (`constructor`, `toString`, …) are found there. They come back as the inherited member (a function, or `Object.prototype` itself for `__proto__`), not as a branch, and since that value is truthy the fallback 子 is skipped. Then `indexOf` gives -1, and on a 甲 or 己 day the hour stem index is (0 + -1) % 10 = -1. The hour stem is therefore `undefined`. On every day stem, the hour nayin is then 未知 and the tally falls short of eight, because neither the nayin table nor ELEMENT_MAP has an entry for the inherited member (see "## Left out"). The route only checks that `birthTime` is present. | birthTime "constructor" on a day with stem 甲 | every string that is not one of the twelve labels falls back to 子, which gives the 甲子 hour on a 甲 day | not executed | BaziCalculator.ConstructorLabel | BaziCalculator.GetHourBranch |
