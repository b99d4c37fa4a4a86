# Koala: a verified model of the blocker, the dashboard lists, the CSV import and the study page

Koala is a browser extension that blocks chosen web sites. When a request
goes to a blocked site, the tab is sent to a study page that shows a
flashcard. The user types an answer, an AI tutor grades it, and a score,
a streak and a koala whose mood follows the accuracy keep track of progress.

This project models the sequential logic at its core and proves what that
logic guarantees:

- **Blocking.** The background script decides, request by request, whether
  the URL matches a blocked-site pattern. It compares lower-cased URLs
  without their scheme or leading "www.", using a two-way substring test.
  On a block it updates the block statistics with a day rollover, builds
  the redirect to the study page, and keeps a click counter.
- **Dashboard lists.** The dashboard keeps the blocked-site list and the
  flashcard list. It validates a new site and rejects duplicates by a
  normalised host. It adds and removes cards, and merges a CSV import.
- **CSV parser.** The parser scans each line character by character with
  an in-quotes flag.
- **Study page.** The page moves five figures on every answer: score,
  streak, best streak, correct answers and answers. It reads the grade,
  explanation and feedback out of the tutor's free-text reply, and a grade
  of A, B or C counts as correct.
- **Koala mood.** The mood rules choose a picture, a CSS class and an
  encouragement.

Modules and files:

| file | module | models |
|---|---|---|
| `optional.dfy` | `Optional` | `Option` and `Result` |
| `lists.dfy` | `Lists` | `Array.prototype.filter` and key uniqueness |
| `text.dfy` | `Text` | `trim`, ASCII case mapping, `includes`, `startsWith`, `endsWith` |
| `url_text.dfy` | `UrlText` | the URL rewrites `/^https?:\/\//`, `/^www\./` and `split("/")[0]` |
| `records.dfy` | `Records` | the stored `BlockedSite` and `Flashcard` records |
| `background.dfy` | `Background` | `handleWebRequest` and the counter messages of `src/background/index.js` |
| `csv.dfy` | `Csv` | `parseCSV` of `src/options/Dashboard.jsx`, as a loop-based method and the function `Csv.Parse` that specifies it |
| `csv_roundtrip.dfy` | `CsvRoundTrip` | what the parser recovers from text in the import format |
| `dashboard.dfy` | `Dashboard` | the site and card lists of `src/options/Dashboard.jsx` |
| `grading.dfy` | `Grading` | the regular-expression reading of the tutor's reply in `src/custom-page/CustomPage.jsx` |
| `koala_mood.dfy` | `KoalaMood` | `src/utils/koalaMood.js` |
| `study_page.dfy` | `StudyPage` | `updateScore`, `gradeAnswer` and `resetCard` of `src/custom-page/CustomPage.jsx` |

State that the source updates in place is modelled as classes:

- `Background.BackgroundStorage` holds the storage keys.
- `Dashboard.DashboardState` holds the two lists. Each list is a `seq` field that the methods reassign.
- `StudyPage.CustomPage` holds the page's state variables.

Pure code is modelled as functions. The nested scanning loops of
`parseCSV` are methods with loop invariants (`Csv.ScanFields`,
`Csv.ParseCsv`), proved equal to the specification function `Csv.Parse`.

Two behaviours of the code are worth knowing:

- **`normalizeUrl` is not idempotent.** Each application removes only one
  leading "www." (`Dashboard.NormalizeUrlRemovesOneWww`). The background's
  comparison form behaves the same way (`Background.CleanRemovesOnlyOneWww`).
  The dashboard and background normal forms also differ from each other
  (`Dashboard.NormalizationsDiffer`, `Dashboard.DashboardDropsPath`).
- **`only,one` parses to a card.** `parseCSV` splits that line into two
  non-empty fields, so it yields one card with category "Imported"
  (`CsvRoundTrip.UnquotedPair`).

## Model

| member | source | states |
|---|---|---|
| Text.Trim | src/options/Dashboard.jsx:59-61 | trimming never lengthens the text |
| Text.TrimFacts | src/options/Dashboard.jsx:165 | the trimmed text has no white space at either end, is a piece of the original, is empty exactly when the original is all white space, and equals the original when that has none at its ends |
| Text.Lower | src/background/index.js:62-63 | lower-casing keeps the length and leaves no capital letter |
| Text.LowerOfLowerCase | src/background/index.js:62-63 | lower-casing is the identity exactly on text without capitals |
| UrlText.StripScheme | src/background/index.js:66-67 | removing the scheme leaves a suffix of the URL |
| UrlText.StripWww | src/background/index.js:66-67 | removing "www." leaves a suffix |
| UrlText.BeforeSlash | src/background/index.js:69 | `split('/')[0]` is a '/'-free prefix that ends at the first '/' or at the end |
| Lists.Filter | src/options/Dashboard.jsx:99 | filtering keeps exactly the accepted elements and never lengthens the list |
| Lists.FilterConcat | src/options/Dashboard.jsx:99 | filtering keeps the order: the filter of a concatenation is the concatenation of the filters |
| Lists.FilterKeepsDistinctKeys | src/options/Dashboard.jsx:99 | filtering a list whose keys are distinct keeps them distinct |
| Lists.AppendKeepsDistinctKeys | src/options/Dashboard.jsx:88 | appending an element with a new key keeps the keys distinct |
| Lists.Any | src/background/index.js:60 | `some` holds exactly when one of the elements satisfies the predicate |
| Background.Clean | src/background/index.js:62-67 | the comparison form is lower-case and a suffix of the lower-cased URL |
| Background.CleanRemovesSchemeThenWww | src/background/index.js:62-67 | one optional scheme ("http://" or "https://") and then one optional "www.", each in any letter case, are removed, and the rest is lower-cased |
| Background.CleanOfHostAndPath | src/background/index.js:62-67 | a URL of scheme, optional "www.", host of any length and path, each in any letter case, cleans to the lower-cased host, '/', and the lower-cased path |
| Background.CleanRemovesOnlyOneWww | src/background/index.js:66-67 | "www.www.x" cleans to "www.x"; cleaning twice removes the second "www.", so cleaning is not idempotent |
| Background.IsBlocked | src/background/index.js:61-70 | a request is blocked if and only if some site's cleaned pattern occurs in the cleaned request, or the cleaned pattern contains the request's text before its first '/' |
| Background.BlockedByMoreSites | src/background/index.js:61 | a list containing every site of another blocks whatever the other blocks |
| Background.BlockedIgnoresOrder | src/background/index.js:61 | reordering the list never changes the decision |
| Background.AddingSiteKeepsBlocked | src/background/index.js:61 | adding a site at either end never unblocks a request |
| Background.SiteBlocksItsOwnUrl | src/background/index.js:61-70 | a request to a site's own stored URL is blocked |
| Background.ContainedPatternBlocks | src/background/index.js:69 | a pattern whose cleaned form occurs in the cleaned request blocks it |
| Background.SharedHostMatches | src/background/index.js:69 | a pattern and a request with the same host before their paths match |
| Background.PatternBlocksWholeHost | src/background/index.js:62-69 | a pattern of scheme, optional "www.", host and path blocks every request of any scheme, optional "www." and path on the same host, letter case ignored |
| Background.Intercepts | src/background/index.js:55-70 | with interception disabled or no sites nothing is intercepted; otherwise a request is intercepted if and only if it is blocked |
| Background.NextStats | src/background/index.js:76-81 | a block adds one to the total, records today as the last day, and counts one more for today, or restarts at 1 on a new day |
| Background.NextStatsKeepsConsistency | src/background/index.js:76-81 | today's count stays between 1 and the total, and an unset last day means no blocks |
| Background.BlocksOnOneDay | src/background/index.js:76-81 | after n blocks on one day the total grows by n, and today's count grows by n, or is n after a rollover |
| Background.DayRollover | src/background/index.js:79 | the first block on a new day gives today's count 1, and a later block on the same day adds one |
| Background.RedirectTarget | src/background/index.js:86-87 | the target is the study page URL, then "?original=", then the encoded request URL |
| Background.BackgroundStorage.HandleWebRequest | src/background/index.js:50-101 | an intercepted request is cancelled and redirected, and the stats become NextStats of the stored (or default) stats; any other request passes with the stats untouched |
| Background.BackgroundStorage.IncrementCounter | src/background/index.js:123-129 | stores and answers the old count plus one, an unset count counting as 0 |
| Background.BackgroundStorage.ResetCounter | src/background/index.js:131-134 | stores and answers 0 |
| Csv.SplitLines | src/options/Dashboard.jsx:161 | `split("\n")` gives at least one piece, none containing a line feed |
| Csv.JoinOfSplit | src/options/Dashboard.jsx:161 | splitting loses nothing: joining the pieces with line feeds gives the text back |
| Csv.SplitOfJoin | src/options/Dashboard.jsx:161 | lines without line feeds are recovered by splitting their join |
| Csv.SplitLinesOfLineFeed | src/options/Dashboard.jsx:161 | splitting two texts joined by a line feed gives the pieces of the first and then those of the second |
| Csv.ScanConcat | src/options/Dashboard.jsx:173-185 | the scanner over a concatenation continues from the state the first part left |
| Csv.ScanKeepsFieldsClean | src/options/Dashboard.jsx:173-185 | every finished column is trimmed and free of '"', and the current field never holds a '"' |
| Csv.ColumnsAreClean | src/options/Dashboard.jsx:173-189 | every field of a line is trimmed and free of '"', so the quote-pair removal and the second trim change nothing |
| Csv.CleanColumnOfCleanField | src/options/Dashboard.jsx:187-189 | `replace(/^"(.*)"$/, "$1").trim()` leaves a trimmed, quote-free field unchanged |
| Csv.RowsAreClean | src/options/Dashboard.jsx:165-189 | every field of every row is clean |
| Csv.Rows | src/options/Dashboard.jsx:164-166 | one row of fields per non-blank line |
| Csv.RowsConcat | src/options/Dashboard.jsx:164-189 | the rows of concatenated line lists are the rows of each list, in order |
| Csv.CardOf | src/options/Dashboard.jsx:192-204 | a row yields a card if and only if it has at least two fields and its first two are non-empty; the card has the given id |
| Csv.CardOfWellFormed | src/options/Dashboard.jsx:192-204 | a row of clean fields yields only a card with non-empty, clean front, back and category |
| Csv.Cards | src/options/Dashboard.jsx:164-205 | there are never more cards than rows |
| Csv.CardIdsIncrease | src/options/Dashboard.jsx:198-199 | the ids lie between `now` and `now` plus the number of lines, and strictly increase, so they are distinct within an import |
| Csv.CardsCountIgnoresBase | src/options/Dashboard.jsx:192-204 | whether a row yields a card does not depend on the id |
| Csv.CardsWellFormed | src/options/Dashboard.jsx:186-204 | rows of clean fields yield only well-formed cards |
| Csv.CardsConcat | src/options/Dashboard.jsx:164-205 | cards follow line order: the cards of concatenated rows are those of the first rows, then those of the rest with ids continuing |
| Csv.ParseOfJoinedTexts | src/options/Dashboard.jsx:160-209 | parsing two texts joined by a line feed gives the cards of the first, then those of the second with ids continuing after the first text's non-blank lines |
| Csv.ParseCountIgnoresClock | src/options/Dashboard.jsx:160-209 | the number of cards a text yields does not depend on the clock |
| Csv.ParseWellFormed | src/options/Dashboard.jsx:160-209 | every parsed card has a non-empty front, back and category, each trimmed and free of '"' |
| Csv.ScanFields | src/options/Dashboard.jsx:169-185 | the scanning loop with `current` and `inQuotes` returns the columns of the line |
| Csv.LineCard | src/options/Dashboard.jsx:165-204 | one iteration of the outer loop yields the card, if any, of the line's row |
| Csv.ParseCsv | src/options/Dashboard.jsx:160-209 | the parsing loop returns exactly the cards of `Csv.Parse`: the cards of the non-blank lines, the card of line i stamped `now + i` |
| CsvRoundTrip.ScanInsideQuotes | src/options/Dashboard.jsx:176-183 | inside quotes every character but '"' is kept, ',' included |
| CsvRoundTrip.ScanQuoted | src/options/Dashboard.jsx:176-183 | a quoted field goes whole into the current field, and the quotes only toggle the state |
| CsvRoundTrip.ScanComma | src/options/Dashboard.jsx:178-180 | a ',' outside quotes closes the trimmed current field |
| CsvRoundTrip.ScanPlain | src/options/Dashboard.jsx:181-183 | outside quotes text without '"' or ',' goes into the current field |
| CsvRoundTrip.ScanJoinQuoted | src/options/Dashboard.jsx:173-185 | the scanner splits quoted, comma-separated clean fields back apart |
| CsvRoundTrip.ColumnsOfJoinQuoted | src/options/Dashboard.jsx:169-186 | the columns of a line of quoted clean fields are those fields |
| CsvRoundTrip.RowOfJoinQuoted | src/options/Dashboard.jsx:165-189 | the row of such a line is those fields, with the quotes gone |
| CsvRoundTrip.CardOfQuotedFields | src/options/Dashboard.jsx:192-204 | such a line yields one card from its first two fields and its third; a missing or empty third gives "Imported", and later fields are ignored |
| CsvRoundTrip.NoCardWithoutFrontAndBack | src/options/Dashboard.jsx:192-198 | such a line with fewer than two fields, or an empty front or back, yields no card |
| CsvRoundTrip.RowOfPlainPair | src/options/Dashboard.jsx:165-189 | the unquoted line `front,back` has the fields front and back |
| CsvRoundTrip.UnquotedPair | src/options/Dashboard.jsx:160-209 | the text `front,back` parses to one card with category "Imported" |
| CsvRoundTrip.ParseRoundTrip | src/options/Dashboard.jsx:160-209 | parsing records written as quoted lines recovers them in order, ids `now`, `now + 1`, …, an empty category read as "Imported", commas inside fields kept |
| CsvRoundTrip.ParseEmpty | src/options/Dashboard.jsx:160-163 | the empty text parses to no cards |
| Dashboard.NormalizeUrl | src/options/Dashboard.jsx:44-51 | the normal form has no '/', no capital, and is a prefix of the lower-cased URL without scheme and "www." |
| Dashboard.Host | src/options/Dashboard.jsx:107-111 | the host part has no '/' |
| Dashboard.DomainName | src/options/Dashboard.jsx:107-113 | the display name is the host with its first character replaced by `UpperChar` of it, so it is no lower-case letter, and the rest unchanged |
| Dashboard.NormalizeUrlIsLoweredHost | src/options/Dashboard.jsx:44-51 | the normal form is the lower-cased host |
| Dashboard.DomainNameIsNormalizedHost | src/options/Dashboard.jsx:107-113 | the display name lower-cased is the normal form |
| Dashboard.NormalizeUrlOfLowerCase | src/options/Dashboard.jsx:44-51 | on a lower-case URL, the normal form is the host part of the background's comparison form |
| Dashboard.NormalizationsDiffer | src/options/Dashboard.jsx:44-51 | the dashboard leaves an upper-case scheme in place ("HTTP://x" normalises to "http:"), where the background removes it |
| Dashboard.DashboardDropsPath | src/options/Dashboard.jsx:44-51 | the dashboard keeps only the host of "host/path", where the background keeps the path |
| Dashboard.NormalizeUrlRemovesOneWww | src/options/Dashboard.jsx:47-48 | normalising removes one "www." per application, so it is not idempotent |
| Dashboard.NewSite | src/options/Dashboard.jsx:58-88 | blank input, input without '.' that does not start with "http", and input whose normal form is already listed are each refused with their own error; otherwise the record holds the trimmed lower-cased input, its display name, count 0 and the given clock and date |
| Dashboard.NewSiteKeepsUniqueHosts | src/options/Dashboard.jsx:72-89 | a list without duplicate normal forms keeps none after an accepted site |
| Dashboard.NewSiteIsLowerCase | src/options/Dashboard.jsx:61 | an accepted site is lower-case, so its normal form is the host part of the background's comparison form |
| Dashboard.SameHostIsDuplicate | src/options/Dashboard.jsx:72-78 | an input with the same normal form as a listed site is refused as a duplicate |
| Dashboard.WithoutSite | src/options/Dashboard.jsx:98-100 | removal keeps exactly the sites with another id |
| Dashboard.WithoutSiteOfConcat | src/options/Dashboard.jsx:99 | removal keeps the order of the remaining sites |
| Dashboard.WithoutAbsentSite | src/options/Dashboard.jsx:99 | removing an id that no site has changes nothing |
| Dashboard.WithoutSiteKeepsUniqueHosts | src/options/Dashboard.jsx:98-100 | removal keeps the normal forms distinct |
| Dashboard.WithoutCard | src/options/Dashboard.jsx:280-282 | removal keeps exactly the cards with another id |
| Dashboard.WithoutCardOfConcat | src/options/Dashboard.jsx:281 | removal keeps the order of the remaining cards |
| Dashboard.WithoutAbsentCard | src/options/Dashboard.jsx:281 | removing an id that no card has changes nothing |
| Dashboard.NewFlashcard | src/options/Dashboard.jsx:258-270 | no card when the trimmed front or back is empty; otherwise the trimmed fields, with a blank category becoming "General" |
| Dashboard.NewFlashcardIsTrimmed | src/options/Dashboard.jsx:264-269 | a card added by hand has non-empty fields without white space at either end |
| Dashboard.MergeImport | src/options/Dashboard.jsx:211-236 | no file, a name not ending in ".csv" in any case, and a text with no cards are each refused; otherwise the list is the old cards followed by the parsed ones |
| Dashboard.CsvNameIgnoresCase | src/options/Dashboard.jsx:216 | "Deck.CSV" is accepted and "deck.txt" refused |
| Dashboard.ImportTwice | src/options/Dashboard.jsx:235 | importing a file twice appends its cards twice, each batch stamped by its own clock reading |
| Dashboard.DashboardState.AddSite | src/options/Dashboard.jsx:58-95 | the list grows by exactly the new record unless the input is refused, in which case it is unchanged; distinct normal forms stay distinct |
| Dashboard.DashboardState.RemoveSite | src/options/Dashboard.jsx:98-105 | the list becomes the sites with another id, and distinct normal forms stay distinct |
| Dashboard.DashboardState.ClearAllSites | src/options/Dashboard.jsx:119-126 | a confirmed clear empties the list; otherwise the list is unchanged |
| Dashboard.DashboardState.AddFlashcard | src/options/Dashboard.jsx:258-277 | the list grows by exactly the new card unless the front or back is blank |
| Dashboard.DashboardState.RemoveFlashcard | src/options/Dashboard.jsx:280-287 | the list becomes the cards with another id |
| Dashboard.DashboardState.ImportFlashcardsCsv | src/options/Dashboard.jsx:211-256 | the cards become the merge of the import and the number of imported cards is returned; a refused import leaves them unchanged and returns the reason |
| Grading.SkipSpace | src/custom-page/CustomPage.jsx:231 | greedy `\s*` stops at the first character that is not white space |
| Grading.SkipSpaceStops | src/custom-page/CustomPage.jsx:231 | a white-space run followed by a non-space character ends where `\s*` stops |
| Grading.Leftmost | src/custom-page/CustomPage.jsx:231-233 | the match found is at the first position where one exists; none is found only when no position has one |
| Grading.GradeAtIsMatch | src/custom-page/CustomPage.jsx:231 | the letter captured at a position is exactly a letter the regular expression `/Grade:\s*([A-F])/i` can match there |
| Grading.FirstGradeLetter | src/custom-page/CustomPage.jsx:231 | the letter is that of the leftmost match, and there is none only when no position matches |
| Grading.ExtractGrade | src/custom-page/CustomPage.jsx:231-238 | the grade is "N/A" exactly when nothing matches; otherwise it is the upper-cased letter A to F of the leftmost match |
| Grading.GradeOfFormattedReply | src/custom-page/CustomPage.jsx:220-231 | a reply starting "Grade:", white space, then a letter gives that letter upper-cased |
| Grading.PassesIffGoodLetter | src/custom-page/CustomPage.jsx:246-247 | the answer passes if and only if the leftmost grade letter is A, B or C in either case |
| Grading.NoGradeFails | src/custom-page/CustomPage.jsx:246-255 | a reply without "Grade:" gets "N/A" and fails, as do D, E and F |
| Grading.LineEnd | src/custom-page/CustomPage.jsx:232-233 | `[^\n]+` runs to the next line feed or the end |
| Grading.LastNotLineFeed | src/custom-page/CustomPage.jsx:232-233 | the last position in a range that is not a line feed; every later position is one |
| Grading.LineCaptureIsGreedyMatch | src/custom-page/CustomPage.jsx:232-233 | the captured line exists if and only if `/Label:\s*([^\n]+)/i` can match at the position; it is the greedy match with the most white space before the rest of the line |
| Grading.LabelledLine | src/custom-page/CustomPage.jsx:232-233 | the captured line is that of the leftmost match |
| Grading.LabelledLineIsLeftmostCapture | src/custom-page/CustomPage.jsx:232-233 | a non-global `match` returns the leftmost match: any capture with none before it is the one `LabelledLine` returns |
| Grading.CaptureOr | src/custom-page/CustomPage.jsx:239-242 | `match ? match[1] : fallback` is the leftmost capture, or the fallback when the label has no match |
| Grading.GradeOfReply | src/custom-page/CustomPage.jsx:237-244 | the record holds the extracted grade and the full reply; its explanation and feedback are the captures of the leftmost match of their label, or "No explanation provided" and "No feedback provided" when the label has no match |
| Grading.LabelAtEndCapturesNothing | src/custom-page/CustomPage.jsx:232-242 | a label followed only by line feeds captures nothing |
| Grading.TrailingSpaceIsCaptured | src/custom-page/CustomPage.jsx:232-233 | a label followed by a space and then only line feeds captures the single space, because `\s*` gives it back |
| KoalaMood.CalculateKoalaMood | src/utils/koalaMood.js:16-18 | happy if and only if the accuracy is at least 80, sad otherwise |
| KoalaMood.MoodIsMonotone | src/utils/koalaMood.js:17 | raising the accuracy never turns happy into sad |
| KoalaMood.GetKoalaImage | src/utils/koalaMood.js:25-34 | the sad picture exactly for "sad", the happy one for every other value |
| KoalaMood.ImageOfAccuracy | src/utils/koalaMood.js:16-34 | the picture of a computed mood is sad exactly below 80 |
| KoalaMood.GetKoalaMoodClass | src/utils/koalaMood.js:69-71 | the class is "koala-" followed by the mood |
| KoalaMood.MoodClassIsInjective | src/utils/koalaMood.js:69-71 | two moods get the same class if and only if they are equal |
| KoalaMood.GetKoalaMessage | src/utils/koalaMood.js:42-62 | for "happy", a streak above 5 wins over an accuracy of 90 or more, with "Great job" otherwise; every other mood gets "Don't give up" for no streak below 50, "Keep studying" below 60, and "Almost there" otherwise; each branch is given if and only if its conditions hold |
| KoalaMood.MessageFitsAccuracy | src/utils/koalaMood.js:9-62 | with the mood taken from the same accuracy, a cheerful message means 80 or more, "Great job" 80 to 90, "Almost there" 60 to 80 |
| StudyPage.NextScore | src/custom-page/CustomPage.jsx:101-125 | a correct answer adds one to the score, the streak and both totals and lifts the best streak to the new streak; a wrong one takes one from the score, zeroes the streak, adds one answer and keeps the correct count and best streak |
| StudyPage.NextScoreKeepsConsistency | src/custom-page/CustomPage.jsx:106-125 | streak ≤ best streak ≤ correct answers ≤ answers is preserved and holds initially |
| StudyPage.ReplayTotals | src/custom-page/CustomPage.jsx:101-125 | over a run of answers the totals grow by the numbers of answers and of correct ones, the score by correct minus wrong, and the streak is the run of correct answers since the last wrong one, or the old streak plus all of them when none was wrong |
| StudyPage.ReplayKeepsConsistency | src/custom-page/CustomPage.jsx:101-125 | the consistency holds after any run of answers |
| StudyPage.LoadedAccuracy | src/custom-page/CustomPage.jsx:93 | with no answers the accuracy is 0, otherwise the percentage of correct answers |
| StudyPage.NoAnswersMeansSad | src/custom-page/CustomPage.jsx:93-95 | with no answers yet the koala is sad |
| StudyPage.UngradedReplyCostsAPoint | src/custom-page/CustomPage.jsx:246-255 | a reply without any grade costs a point and ends the streak |
| StudyPage.PassingReplyEarnsAPoint | src/custom-page/CustomPage.jsx:246-250 | a reply graded A, B or C in the requested format earns a point |
| StudyPage.CustomPage.constructor | src/custom-page/CustomPage.jsx:16-35 | the page starts with zero figures, a happy koala, no answer or grade and the plain answer section |
| StudyPage.CustomPage.UpdateScore | src/custom-page/CustomPage.jsx:101-130 | the five figures become NextScore of the old ones and the mood follows the new percentage of correct answers |
| StudyPage.CustomPage.ScoreReply | src/custom-page/CustomPage.jsx:237-255 | the grade record is shown; a passing reply allows continuing, turns the section green and scores a correct answer, any other turns it red and scores a wrong one |
| StudyPage.CustomPage.ShowVerdict | src/custom-page/CustomPage.jsx:247-255 | a correct answer allows continuing and turns the section green, a wrong one forbids it and turns it red; either way the score moves by NextScore and the mood follows the new percentage |
| StudyPage.CustomPage.GradeAnswer | src/custom-page/CustomPage.jsx:185-267 | a blank answer only raises the error banner and changes no figure; a missing key raises its banner; a reply is recorded and scored; a failed call shows the error record and scores nothing |
| StudyPage.CustomPage.ResetCard | src/custom-page/CustomPage.jsx:269-275 | the answer, its grade, the answer input and the flip are cleared and the section class reset |

## Left out

- Storage, tabs and messaging. `chrome.storage` reads and writes, `chrome.tabs`, the `webRequest` listener set-up, the runtime message switch and context menus are I/O. Stored values are constructor parameters or fields, and a write is a field update. The race between concurrent read-modify-write updates of `blockStats` is not modelled.
- Clock and date. `Date.now()`, `new Date().toDateString()` and `toISOString()` are parameters (`now`, `today`, `isoDate`).
- Csv.ParseCsv: does not model that `parseCSV` reads the clock once per card. All ids are stamped from a single reading, `now + i`. With a clock that moves forward between cards the source's ids are larger, but still increasing.
- Extension URL and encoding. `chrome.runtime.getURL` is the parameter `customPageUrl`, and `encodeURIComponent` is the uninterpreted parameter `encode`.
- Dialogs and animation. `window.confirm` is the parameter `confirmed` of `ClearAllSites`. `alert`, the shake animation, the banner component and all rendering are left out. A refusal is returned as an error value instead.
- File reading. `FileReader` is left out: a chosen file is its name and text (`CsvFile`).
- The `catch` of `importFlashcardsCSV`. It is not modelled, because `parseCSV` cannot throw on a string.
- The tutor. The GoogleGenAI call and its prompt are outside the model. The reply text, or the error the call raised, is an input of `GradeAnswer`. `isGrading` is stated only at the end of the call, not while it awaits.
- The leaderboard. Syncing the score to the remote leaderboard (`updateLeaderboardScore`) and writing the figures to storage are left out of `UpdateScore`.
- Floating point. The accuracy `totalCorrect / totalAnswered * 100` and `Math.round` are left out. `accuracy` is a `real`, and the page's percentage is the uninterpreted parameter `percent`. On loading, a stored `totalAnswered` that is set while `totalCorrect` is unset gives NaN in the source. The model passes 0 to `percent` instead.
- Koala message text. The number-to-string interpolation is left out: the model keeps which branch is chosen and the value interpolated.
- Case mapping. `toLowerCase` and `toUpperCase` are modelled on ASCII letters only, so non-ASCII letters keep their case. The regular expressions are exact, because under the `i` flag without `u` an ASCII letter matches only its two ASCII cases.
- Dashboard.DomainName: does not model that upper-casing a non-ASCII first character can change the length (for example 'ß' to "SS").
- String indexing. Strings are sequences of Unicode characters rather than UTF-16 code units, so `charAt(0)` and `slice(1)` of a character outside the basic plane are not modelled.
- Dynamic typing. Stored values of an unexpected type, such as a string `count`, are not modelled.
- Other handlers. `loadFlashcard`, `handleNextCard` (random card choice), `handleGoBack` (the `URL` bypass parameter), `loadScore`, JSON site import and export, the popup, the content script, the theme manager and the build configuration are not part of this model. Of `loadStreakData`, only its accuracy guard is modelled (`StudyPage.LoadedAccuracy`).
