# Bias Radar page core in Dafny

Bias Radar is a single-page app. The reader pastes two news articles and presses Analyze, and the page shows a mock "bias analysis" of each article side by side. This project models the logic behind that page, all of it in `src/pages/Index.tsx`:

- **`analyzeText`** (module `Analyzer`, `analyzer.dfy`) turns one article into an `AnalysisResult` record. It works as follows:
  - It lower-cases the text and splits it on runs of whitespace.
  - It counts the words that contain a bias keyword and the words that contain an emotional keyword.
  - It combines the two counts with a random offset into a score and clamps the score to [0, 10].
  - It stores the score rounded to one decimal, and picks an explanation sentence from the unrounded score.
  - It lists up to four emotional keywords that occur anywhere in the lower-cased text.
  - It draws a tone, a sentiment and three list prefixes at random.
  - It truncates the text to a 120-character summary followed by `...`.

  The function draws `Math.random()` six times, and each draw is a parameter of the model (`Draws`), constrained to [0, 1). That makes the analysis a function from the text and the draws to the record.
- **The string primitives** the analyser relies on (module `Text`, `text.dfy`):
  - the ECMAScript whitespace set, used by both `\s` and `trim`;
  - `toLowerCase` on ASCII letters;
  - `includes`;
  - `trim`;
  - `split(/\s+/)`.

  Module `Lists` (`lists.dfy`) holds `slice(0, n)` and the subsequence relation that describes what `filter` keeps.
- **The page state and `handleAnalyze`** (module `Page`, `page.dfy`). The seven `useState` hooks are modelled as the fields of class `PageState`. The Analyze handler is a method on that class:
  - When either article is blank after trimming, the handler changes nothing and reports the "Missing Articles" notice.
  - Otherwise it stores both analyses and sets the two fixed narrative texts. It ends with the page no longer busy.
- **`getBiasColor`**: the three-way colour of the score badge.

Two less obvious facts are proved:
- The explanation reads the unrounded score and the badge reads the rounded one. They disagree exactly when the score lies in (4, 4.05) or (7, 7.05), and a concrete analysis exhibits this. Even so, a "High" explanation always comes with a red badge, and a green badge always with the neutral explanation.
- The five bias phrases that contain a space can never match a word produced by the split. The bias count therefore equals the count over the five single-word phrases.

## Model

| member | source | states |
|---|---|---|
| Text.LowerChar | src/pages/Index.tsx:38 | the lower-cased character is never a capital; only A-Z change, by +32; whitespace is preserved both ways (`Text.Lower`, the model of `toLowerCase`, applies it to every character) |
| Text.LowerLeavesLowercase | src/pages/Index.tsx:38 | a string without capitals is its own lower-case form |
| Text.ContainsIff | src/pages/Index.tsx:42 | `Text.Contains` (`includes`) holds exactly when the needle occurs at some offset of the text |
| Text.SpacedNeedleNeverContained | src/pages/Index.tsx:40-43 | a whitespace-free string contains no needle that has a whitespace character |
| Text.TrimStartStrips | src/pages/Index.tsx:90 | the result of `Text.TrimStart` is a suffix of the input, what it drops is all whitespace, and it does not start with whitespace |
| Text.TrimEndStrips | src/pages/Index.tsx:90 | the result of `Text.TrimEnd` is a prefix of the input, what it drops is all whitespace, and it does not end with whitespace |
| Text.BlankIffAllSpace | src/pages/Index.tsx:90 | `Text.IsBlank` (`!s.trim()`, with `Text.Trim` = `TrimEnd` after `TrimStart`) holds exactly when every character of s is whitespace |
| Text.FirstSpaceBounds | src/pages/Index.tsx:38 | the first-whitespace index bounds a whitespace-free prefix and, if inside the string, points at whitespace |
| Text.SplitPieces | src/pages/Index.tsx:38 | `Text.Split` (`split(/\s+/)`) yields at least one piece; no piece contains whitespace; only the first and last may be empty; the first is non-empty when the text starts with a non-space |
| Text.SplitRebuild | src/pages/Index.tsx:38 | the text is its split pieces glued back together with a non-empty run of whitespace between each two, so the cuts fall exactly on the maximal whitespace runs |
| Text.SplitLosesOnlySpaces | src/pages/Index.tsx:38 | concatenating the pieces gives the text with exactly its whitespace removed |
| Lists.SubsequencePrefix | src/pages/Index.tsx:78 | a prefix of an order-preserving subsequence of a list is again one |
| Lists.SubsequenceMembers | src/pages/Index.tsx:78 | every entry of a subsequence is an entry of the list |
| Lists.Take | src/pages/Index.tsx:79-81 | `slice(0, n)` has length min(n, length) and is a prefix of the list |
| Analyzer.PickIndex | src/pages/Index.tsx:75-76 | `Math.floor(u * n)` for a draw u in [0, 1) is a valid index below n |
| Analyzer.Pick | src/pages/Index.tsx:75-76 | a drawn tone or sentiment is an entry of its list |
| Analyzer.DrawPrefix | src/pages/Index.tsx:79-81 | `list.slice(0, base + floor(2u))` is a prefix of the list of length base or base + 1 |
| Analyzer.MatchesAnyIff | src/pages/Index.tsx:42-43 | `Analyzer.MatchesAny` (`words.some(w => token.includes(w))`) holds exactly when some keyword occurs in the token |
| Analyzer.CountMatching | src/pages/Index.tsx:42-43 | the count of matching words is at most the number of words, and is zero exactly when no word matches |
| Analyzer.CountMatchingIsCardinality | src/pages/Index.tsx:42-43 | the count equals the number of indices whose word contains one of the keywords |
| Analyzer.CountMatchingAppend | src/pages/Index.tsx:42-43 | counting over two runs of words adds up |
| Analyzer.Clamp | src/pages/Index.tsx:46 | the clamped value lies in [0, 10], equals the input inside that range, is 10 above it and 0 below it |
| Analyzer.RawScore | src/pages/Index.tsx:46 | the unclamped score is never negative, so the lower clamp never applies |
| Analyzer.Score | src/pages/Index.tsx:46 | the clamped, unrounded score lies in [0, 10] |
| Analyzer.RoundTenth | src/pages/Index.tsx:77 | rounding to one decimal moves the score by at most 0.05 (halves up), yields a whole number of tenths and keeps [0, 10] |
| Analyzer.OccurringKeeps | src/pages/Index.tsx:78 | the emotional-word filter `Analyzer.Occurring` keeps, in list order, exactly the words that occur in the text |
| Analyzer.OccurringAppend | src/pages/Index.tsx:78 | filtering a list in two parts filters each part |
| Analyzer.MissingWordComesLate | src/pages/Index.tsx:78 | an occurring word that the first n kept words leave out comes after n kept words, all earlier in the list |
| Analyzer.EmotionalLanguageFound | src/pages/Index.tsx:78 | the reported emotional language (`Analyzer.EmotionalLanguage`) has at most 4 entries, is an order-preserving subsequence of the emotional list, and each entry occurs in the lower-cased text; an occurring emotional word is missing only when 4 words are reported, all of them earlier in the list, so these are the first four occurring words |
| Analyzer.Summary | src/pages/Index.tsx:85 | the summary is a prefix of the text of at most 120 characters followed by `...`; a short text is kept whole; a long one gives exactly 123 characters |
| Analyzer.AnalyzeText | src/pages/Index.tsx:34-87 | tone and sentiment come from their lists; the stored score is in [0, 10] and within 0.05 of the unrounded score; the explanation is that of the unrounded score; the emotional-language bounds; prefix slices of lengths 3-4, 2-3 and 3-4; the summary shape; and exactly: the stored score is `RoundTenth` of the score, the emotional language is `EmotionalLanguage(text)` and the summary is `Summary(text)` |
| Analyzer.TokensAreSpaceFree | src/pages/Index.tsx:38 | no word of `Analyzer.Tokens`, the lower-cased, split text, contains whitespace |
| Analyzer.SpaceFreeBiasMatch | src/pages/Index.tsx:40-43 | on a whitespace-free word, matching the full bias list and matching its five single-word entries agree |
| Analyzer.SpacedBiasPhraseAbsent | src/pages/Index.tsx:40 | a whitespace-free word contains none of the five spaced bias phrases |
| Analyzer.CountAgrees | src/pages/Index.tsx:43 | two lists that match every word alike give the same count |
| Analyzer.SpacedBiasPhrasesNeverCount | src/pages/Index.tsx:40-43 | `Analyzer.BiasCount` of any text equals its count over the single-word bias phrases only |
| Analyzer.KeywordsNonEmpty | src/pages/Index.tsx:39-40 | every emotional and bias keyword is non-empty |
| Analyzer.EmptyTextIsOneEmptyWord | src/pages/Index.tsx:38 | splitting the empty text yields the single empty word |
| Analyzer.NothingCountsInEmptyWord | src/pages/Index.tsx:42-43 | the empty word matches no list of non-empty keywords |
| Analyzer.EmptyTextCountsNothing | src/pages/Index.tsx:38-43 | for the empty text both `Analyzer.EmotionalCount` and `Analyzer.BiasCount` are 0 |
| Analyzer.ExplanationPartition | src/pages/Index.tsx:82-84 | `Analyzer.Explanation` chooses the High, Moderate and Neutral sentences exactly for scores above 7, in (4, 7] and at most 4 |
| Analyzer.ExplanationMonotone | src/pages/Index.tsx:82-84 | a higher score never gets a milder explanation |
| Analyzer.RoundingChangesExplanation | src/pages/Index.tsx:77-84 | the rounded and unrounded scores get different explanations exactly when the score is in (4, 4.05) or (7, 7.05) |
| Analyzer.StoredExplanationCanDisagreeWithStoredScore | src/pages/Index.tsx:34-87 | the text "clearlyamazing" with offset draw 0.27 stores score 4.0 with the Moderate explanation, although 4.0 itself reads as Neutral |
| Analyzer.SplitOneWord | src/pages/Index.tsx:38 | a whitespace-free string splits into itself |
| Analyzer.OneMatchingWord | src/pages/Index.tsx:42-43 | a single word counts 1 exactly when it matches |
| Analyzer.RandomFieldsIgnoreText | src/pages/Index.tsx:74-81 | tone, sentiment and the three prefix slices depend only on the draws, never on the text |
| Page.GetBiasColor | src/pages/Index.tsx:129-133 | the badge colour is one of green, yellow and red |
| Page.BiasColorPartition | src/pages/Index.tsx:129-133 | green exactly below 3, yellow exactly in [3, 6), red exactly from 6 up |
| Page.BiasColorMonotone | src/pages/Index.tsx:129-133 | a higher score never gets a milder colour |
| Page.BadgeAgreesWithExplanation | src/pages/Index.tsx:232 | for every analysis, a High explanation comes with a red badge (`Page.BadgeColor`, `getBiasColor` of the stored score) and a green badge with the Neutral explanation |
| Page.PageState.constructor | src/pages/Index.tsx:25-31 | the page starts with empty articles, no results, not busy and empty narrative texts |
| Page.PageState.SetArticle1 | src/pages/Index.tsx:166 | typing into the first text area sets article1 and keeps the page valid |
| Page.PageState.SetArticle2 | src/pages/Index.tsx:183 | typing into the second text area sets article2 and keeps the page valid |
| Page.PageState.HandleAnalyze | src/pages/Index.tsx:89-127 | the Missing Articles notice comes exactly when an article is blank, and then nothing changes; otherwise both results are the analyses of the two articles, the narrative texts are the fixed sentences, results are shown (`Page.PageState.ShowsResults`, the render condition `analysis1 && analysis2` at line 212) and the page is not busy; the articles never change |
| Page.PageState.Finish | src/pages/Index.tsx:106-126 | the end of a run stores both results, sets both narrative texts and leaves the page valid and not busy |
| Page.BlankArticleBlocksRun | src/pages/Index.tsx:89-127 | a page with an empty first article refuses to run; after the first article is typed in, a run completes and shows the results |

## Left out

- The JSX rendering is left out: layout, icons, badges, the progress bar and the tabs. Only the render condition `analysis1 && analysis2` is kept, as `PageState.ShowsResults`.
- Toast notifications are a foreign UI call. The model returns which notice a run shows (`Notice`) instead of calling the toast.
- The 2000 ms `setTimeout` delay and the `Promise.all` fan-out are timing and concurrency, so the two analyses run one after the other.
- The `catch` branch is left out. The modelled analyser cannot fail, so the "Analysis Failed" path is unreachable. The `finally` step that clears `isAnalyzing` is part of `Finish`.
- `Math.random()` is replaced by the `Draws` parameters, each in [0, 1).
- Numbers are modelled as exact reals, not IEEE-754 doubles. This affects `* 1.5`, `Math.random() * 2`, and `Math.round(x * 10) / 10` (modelled as floor(10x + 0.5) / 10).
- `toLowerCase` changes only the ASCII letters A-Z. Other Unicode case mappings are not modelled.
- Strings are sequences of code points, while `substring(0, 120)` counts UTF-16 code units. The two differ only for text outside the Basic Multilingual Plane.
- The `articleNumber` parameter of `analyzeText` is never read by the source, so the model has no such parameter.
