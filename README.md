# tulip stock core, modelled in Dafny

tulip is a Korean stock-community web application. Its stock pages read
disclosure facts from SEC EDGAR (`companyfacts`), quotes and option chains
from Yahoo Finance, and rankings and quotes from the Korea Investment
("Hantu") open API. From these facts it builds:

- the past-performance, financial-health and future-performance
  checklists, each a fixed list of pass/fail items with a score;
- options analytics: open-interest walls and the max-pain strike;
- an ownership breakdown.

Beside the stock pages, the application scores community texts with a
rule-based Korean sentiment analyser and its API routes. It also has
a per-IP rate limiter, a cached access token for the Hantu API, a
request-URL builder, and a few small mapping helpers.

This project models that core as Dafny modules, one per source file or
concern:

- **Fact-series layer.** `Facts`, `Normalize`, `Units`, `Ttm`, `Growth`,
  `PastMetrics` and `PastChecklist` model
  `client/src/features/stock/utils/stock-past-info.ts`.
- **Financial health.** `HealthSeries` and `HealthChecklist` model
  `stock-financial-health.ts`.
- **Future checklist.** `Future` models `stock-future-info.ts`.
- **Shared checklist shape.** `Checklist` holds the fixed item list and
  the score that the three engines share.
- **Options.** `Options` models `stock-options.ts`.
- **Ownership.** `Ownership` and `OwnershipDto` model the two ownership
  files.
- **Summary card.** `StockInfoDto` models `dto/stock-info.ts`.
- **Sentiment analyser.** `SentimentText`, `Counting`, `SentimentScore`
  and `SentimentKeywords` model `analysis/sentiment_analysis.py`.
- **Sentiment routes.** `SentimentSummary`, `AnalyzeRoute`,
  `SentimentRoute` and `FrontendSentimentRoute` model the three route
  files.
- **Small state machines.** `RateLimit`, `HantuToken` and `IdCounter`
  are classes whose methods update the module-level state of the
  source.
- **Helpers.** `Fetcher`, `SearchStock`, `ShortInterest`,
  `CompanyFacts`, `StockList` and `IsOwner` model the remaining helpers.
  `Common` holds shared definitions: Option, sums, filters, ASCII case
  mapping and decimal text.

How the source is turned into Dafny:

- **Dates.** Dates are day numbers. `parseDate` differences are day
  differences, and a year is 365.25 days.
- **Numbers.** JavaScript and Python numbers are reals. A `JsNumber`
  (finite, NaN, ±Infinity) appears only where the code tests finiteness.
- **Ordered maps.** Objects and `Map`s whose key order matters are
  sequences of key/value pairs.
- **Loops.** A loop that updates state in the source is a method with
  its loop. The method is proved equal to a specification function, and
  the properties are lemmas about that function.

Where the code disagrees with its own comments or names, the model
follows the code:

- **Trailing twelve months.** The comment at
  `client/src/features/stock/utils/stock-financial-health.ts:64` calls
  the TTM the sum of the latest four quarters. The code sums the last
  four quarter facts of a tier and never checks that they are
  consecutive.
- **Ownership comment.** The comment at
  `client/src/features/stock/dto/stock-ownership.ts:28` promises that
  the rows add up to 100%. That holds only when insiders do not exceed
  institutions: otherwise the insider part is counted twice.
- **Ranking list pages.** The names `page` and `hasNextPage` at
  `client/src/features/stock/components/stock-list.tsx:60-64` suggest a
  page number from 0 and a flag for a further, non-empty page. The code
  slices from `page * size`, so a negative page counts from the end of
  the list. With a size of 0 every page is empty, yet `hasNextPage`
  holds whenever there are matches.

## Model

| member | source | states |
|---|---|---|
| RateLimit.Recent | client/src/utils/rate-limit.ts:8 | the kept timestamps are exactly those less than `WINDOW` before `now`: every kept one is a stored one inside the window, and every stored one inside the window is kept |
| RateLimit.RecentIsFilter | client/src/utils/rate-limit.ts:8 | the pruned list is the filter of the stored list by the window test: exactly the timestamps less than `WINDOW` before `now`, in their order and with their repetitions |
| RateLimit.RateLimiter.constructor | client/src/utils/rate-limit.ts:1 | the table of timestamps per IP starts empty |
| RateLimit.RateLimiter.CheckRateLimit | client/src/utils/rate-limit.ts:5-13 | the answer and the new table are those of `Check` on the old table |
| RateLimit.CheckFacts | client/src/utils/rate-limit.ts:5-13 | `Check`: a request is allowed exactly when fewer than 10 of the IP's stored timestamps are inside the window; an allowed one stores the pruned list plus `now` (at most 10 entries), a refused one changes nothing, and no other IP's list ever changes |
| RateLimit.CheckKeepsBounded | client/src/utils/rate-limit.ts:9-11 | no stored list ever holds more than `LIMIT` timestamps |
| RateLimit.RecentTwice | client/src/utils/rate-limit.ts:8 | pruning at `a` and then at a later `b` is the same as pruning at `b` |
| RateLimit.RecentAppendNow | client/src/utils/rate-limit.ts:8-10 | pruning a list that ends in `now` at `now` keeps `now` as its last element |
| RateLimit.RunProjects | client/src/utils/rate-limit.ts:5-13 | one IP's stored list and allowed requests after any run of calls depend only on that IP's own calls |
| RateLimit.RunIpTracks | client/src/utils/rate-limit.ts:7-11 | with non-decreasing times an IP's stored list is always its allowed times inside the window of its last allowed request, and every allowed time is one of its request times |
| RateLimit.AllowedFar | client/src/utils/rate-limit.ts:8-9 | a request allowed at `now` is at least `WINDOW` after the allowed request `LIMIT` places before it |
| RateLimit.RunIpWindow | client/src/utils/rate-limit.ts:2-13 | for one IP with non-decreasing times, any 11 allowed requests span at least 60 000 ms |
| RateLimit.AtMostLimitPerWindow | client/src/utils/rate-limit.ts:1-13 | the sliding-window guarantee for a whole run from an empty table: no IP whose own times are non-decreasing gets more than 10 requests allowed within any minute, whatever the other IPs do |
| IdCounter.IdOf | frontend/src/app/hooks/useId.tsx:7 | an id is the prefix followed by a non-empty counter text |
| IdCounter.IdGenerator.constructor | frontend/src/app/hooks/useId.tsx:3 | the counter starts at 0 |
| IdCounter.IdGenerator.GenerateId | frontend/src/app/hooks/useId.tsx:5-8 | the counter goes up by one and the id is the prefix (default `tulip-id-`) followed by the new counter value |
| IdCounter.IdsDistinct | frontend/src/app/hooks/useId.tsx:5-8 | two different counter values never give the same id under one prefix |
| IdCounter.Ids | frontend/src/app/hooks/useId.tsx:5-8 | the `i`-th call of a run gets the id of counter value `start + i + 1` |
| IdCounter.SamePrefixUnique | frontend/src/app/hooks/useId.tsx:5-8 | two calls of one run that use the same prefix never return the same id |
| IsOwner.IsOwnerIff | client/src/features/auth/utils/is-owner.ts:14-31 | the entity is owned exactly when the user and the entity are both present, the entity names a non-empty owner, and that owner is the user's id |
| IsOwner.IsOwnerDependsOnIds | client/src/features/auth/utils/is-owner.ts:14-31 | only the user's id and the entity's owner id affect the answer |
| Fetcher.DropLeadingSlash | client/src/lib/fetcher.ts:28 | the path is its one optional leading slash followed by the result |
| Fetcher.UrlJoin | client/src/lib/fetcher.ts:26-28 | a relative path is joined to the base with exactly one slash: the base loses one trailing slash, the path one leading slash |
| Fetcher.BuildUrlFacts | client/src/lib/fetcher.ts:21-32 | `BuildUrl`: an absolute path is used verbatim; without parameters the URL is bare; otherwise it is the bare URL, one separator (`&` when it already has a `?`, else `?`) and the serialised parameters |
| Fetcher.Put | client/src/lib/fetcher.ts:41 | after `acc[k] = v` the key maps to `v` and every other key keeps its value |
| Fetcher.LastWritten | client/src/lib/fetcher.ts:40-42 | a value `mergeHeaders` takes from one source is never empty |
| Fetcher.LastWrittenAll | client/src/lib/fetcher.ts:38-43 | a merged value is never empty |
| Fetcher.MergeEntriesLookup | client/src/lib/fetcher.ts:40-42 | merging one source overrides a key exactly when the source writes a defined, non-empty value for it |
| Fetcher.MergeAllLookup | client/src/lib/fetcher.ts:34-45 | each merged header is the value the latest defined source wrote for it; empty and undefined values never erase an earlier one |
| Fetcher.MergeHeaders | client/src/lib/fetcher.ts:34-45 | the two loops compute `MergeAll` of the sources |
| Fetcher.SpreadLookup | client/src/lib/fetcher.ts:94-97 | in `{ ...base, ...over }` a key has its last value in `over`, else its value in `base` |
| Fetcher.PostInit | client/src/lib/fetcher.ts:92-100 | `post` sends method `POST` with cache `no-store`, and a body exactly when one is given |
| Fetcher.GetInit | client/src/lib/fetcher.ts:74-78 | `get` sends method `GET`, no body and cache `no-store` |
| Fetcher.PostPrecedence | client/src/lib/fetcher.ts:92-97 | in `post` a defined, non-empty caller header wins; without a caller entry `content-type` is the JSON type; a caller entry that is empty or undefined leaves the default's value (and so removes the JSON type) |
| Fetcher.PostLookup | client/src/lib/fetcher.ts:94-97 | a header of a two-source merge is the later source's written value, else the earlier one's |
| Fetcher.GetRequestLookup | client/src/lib/fetcher.ts:76-116 | `get` and `request` send the defaults overridden by the caller's defined, non-empty headers; `request` without headers sends the defaults alone |
| Fetcher.PutUnique | client/src/lib/fetcher.ts:41 | assigning a key keeps the record free of duplicate keys |
| Fetcher.SpreadUnique | client/src/lib/fetcher.ts:94-97 | spreading keeps the record free of duplicate keys |
| Fetcher.LastWrittenUnique | client/src/lib/fetcher.ts:40-41 | on a record with one entry per key, a key's written value is its own value when that is defined and non-empty |
| HantuToken.TokenCache.constructor | client/src/features/stock/queries/get-hantu-access-token.ts:59 | the cache starts empty |
| HantuToken.TokenCache.ClearHantuTokenCache | client/src/features/stock/queries/get-hantu-access-token.ts:62-64 | the cache is empty afterwards |
| HantuToken.TokenCache.FetchHantuToken | client/src/features/stock/queries/get-hantu-access-token.ts:74-94 | the result and the new cache are those of `FetchResult` on the old cache |
| HantuToken.TokenCache.GetHantuAccessToken | client/src/features/stock/queries/get-hantu-access-token.ts:96-113 | the result and the new cache are those of `GetAccessToken` on the old cache |
| HantuToken.TokenCache.WithHantuToken | client/src/features/stock/queries/get-hantu-access-token.ts:121-135 | the result and the new cache are those of `WithToken` on the old cache |
| HantuToken.ForceNewIgnoresCache | client/src/features/stock/queries/get-hantu-access-token.ts:98-113 | with `forceNew` the old cache plays no part: a token is always fetched, and a failed fetch leaves the cache empty |
| HantuToken.ServedFromCacheIff | client/src/features/stock/queries/get-hantu-access-token.ts:102-112 | the cached token is returned, with the cache kept, exactly when it is set and `now` is more than five minutes before its expiry; otherwise the result is a fetch from the pruned cache |
| HantuToken.FailedRefresh | client/src/features/stock/queries/get-hantu-access-token.ts:104-112 | a failed fetch after expiry leaves the cache empty; one inside the refresh buffer but before expiry keeps the old token |
| HantuToken.FetchFacts | client/src/features/stock/queries/get-hantu-access-token.ts:74-94 | a response is cached exactly when it carries an access token, expiring `expires_in` seconds after the request started; a missing token is thrown with its message, missing credentials or a transport error are rethrown, and the cache is then unchanged |
| HantuToken.OperationsKeepValid | client/src/features/stock/queries/get-hantu-access-token.ts:83-135 | every operation keeps the cache free of tokens without an access token, and every token handed out has one |
| HantuToken.WithTokenFacts | client/src/features/stock/queries/get-hantu-access-token.ts:121-135 | `withHantuToken` runs `fn` with the token it got, rethrows any error unchanged, and clears the cache exactly when the error mentions `EGW00123` |
| SearchStock.BuildParamsFacts | client/src/features/stock/queries/get-search-stock.ts:95-101 | the parameters are exactly `AUTH`, `EXCD` and `SYMB`, in that order, each carrying the query's own field |
| SearchStock.PriceChangeFacts | client/src/features/stock/queries/get-search-stock.ts:136-165 | the rate is `t_xrat` whenever that is a non-empty finite number; otherwise `(last - base) / base * 100` when both are finite and `base` is not zero; there is no result exactly when neither applies; the sign flag is set exactly when the rate is negative |
| SearchStock.FallbackSign | client/src/features/stock/queries/get-search-stock.ts:150-161 | computed from prices with a positive base, the change is negative exactly when the last price is below the base |
| ShortInterest.ExchangeSlugFacts | client/src/features/stock/queries/get-short-interest.ts:17-29 | `NAS`, `NYS` and `AMS` map to `nasdaq`, `nyse` and `nyseamerican` whatever their letter case; any other code maps to its lower-cased form |
| ShortInterest.SlugNoUpper | client/src/features/stock/queries/get-short-interest.ts:17-29 | a slug never holds an upper-case letter |
| ShortInterest.ExchangeSlugIgnoresCase | client/src/features/stock/queries/get-short-interest.ts:18 | codes equal up to letter case give the same slug |
| ShortInterest.SymbolFacts | client/src/features/stock/queries/get-short-interest.ts:33-34 | the symbol is the slug, a dash and the lower-cased ticker, with no upper-case letter anywhere |
| CompanyFacts.SecBaseUrlFacts | client/src/features/stock/queries/get-company-facts.ts:5-9 | without a configured value the base URL is the SEC API's; a configured value starting with `http` is kept, less one trailing slash; any other gets `https://` in front, so a non-empty one then starts with `https://` |
| CompanyFacts.Digits | client/src/features/stock/queries/get-company-facts.ts:20 | the result holds only digits and is no longer than the text |
| CompanyFacts.DigitsIsFilter | client/src/features/stock/queries/get-company-facts.ts:20 | the digits are the filter of the text by `IsDigit`: every digit of the text, in order, and nothing else |
| CompanyFacts.Zeros | client/src/features/stock/queries/get-company-facts.ts:21 | the padding is exactly `n` zeros |
| CompanyFacts.NormalizeCikShape | client/src/features/stock/queries/get-company-facts.ts:19-22 | the CIK's digits in order, left-padded with zeros to ten characters and never truncated |
| CompanyFacts.NormalizeIdempotent | client/src/features/stock/queries/get-company-facts.ts:19-22 | normalising a normalised CIK changes nothing |
| CompanyFacts.NormalizeCikValue | client/src/features/stock/queries/get-company-facts.ts:19-22 | a numeric CIK normalises to digits that read back as the same number |
| CompanyFacts.CompanyFactsUrl | client/src/features/stock/queries/get-company-facts.ts:26-31 | the request URL is the base URL, less one more trailing slash, followed by the company-facts path, with no query |
| StockList.ProductTypeCodeFacts | client/src/features/stock/components/stock-list.tsx:24-31 | only `NAS`, `NYS` and `AMS`, in upper case, have a product type code; every other code, `nas` included, gets the empty code |
| StockList.LastMeta | client/src/features/stock/components/stock-list.tsx:37 | the entry found has the name and no later entry has it; there is none exactly when no entry has the name |
| StockList.NameToMetaLookup | client/src/features/stock/components/stock-list.tsx:37 | the map holds a name exactly when some entry has it, and then the last such entry |
| StockList.Matches | client/src/features/stock/components/stock-list.tsx:33-44 | there are no more matches than ranking items |
| StockList.MatchRankingByName | client/src/features/stock/components/stock-list.tsx:33-44 | the loop computes `Matches` of the ranking and the metadata |
| StockList.MatchesAppend | client/src/features/stock/components/stock-list.tsx:39-42 | matching keeps ranking order: the matches of two runs of items are those of the first followed by those of the second |
| StockList.MatchesOne | client/src/features/stock/components/stock-list.tsx:40-41 | an item is kept, paired with the last metadata entry of its name, exactly when some entry has that name |
| StockList.MatchesPairLastMeta | client/src/features/stock/components/stock-list.tsx:33-44 | every match pairs a ranking item with the last metadata entry of the same name |
| StockList.SliceIndex | client/src/features/stock/components/stock-list.tsx:62 | a resolved index of `slice` lies within the list |
| StockList.PageFacts | client/src/features/stock/components/stock-list.tsx:60-62 | for a non-negative page the page is the run of at most `size` matches from `page * size` on |
| StockList.NextPageFacts | client/src/features/stock/components/stock-list.tsx:60-64 | an announced next page means this page is full and, for a positive size, the next one is not empty; no announcement means the next page is empty; with size 0 pages are empty yet a next page is announced whenever there are matches |
| StockList.PagesCover | client/src/features/stock/components/stock-list.tsx:60-62 | successive pages cover the matches with no gap and no overlap |
| StockList.NegativePages | client/src/features/stock/components/stock-list.tsx:60-62 | a negative page counts from the end: with size 10, page -1 is empty and page -2 holds the ten matches before the last ten |
| Counting.Bump | analysis/sentiment_analysis.py:250 | `counter[w] += 1`: every known word keeps its place and does not lose count; a known word adds no entry, and an unknown one is appended with count 1 |
| Counting.BumpCounts | analysis/sentiment_analysis.py:250 | bumping adds one to the count of `w` and leaves every other word's count as it was |
| Counting.CountAllFacts | analysis/sentiment_analysis.py:236-250 | tallying a word list gives each distinct word one entry with a positive count equal to its number of occurrences; the counts add up to the number of words; the first entry is the first word; only words of the list are counted |
| Counting.CountedIffOccurs | analysis/sentiment_analysis.py:236-250 | a word has an entry exactly when it occurs |
| Counting.CountAllOrder | analysis/sentiment_analysis.py:236-250 | the counter of a word list lists its words in the order of their first occurrence |
| Counting.BumpKeepsOrder | analysis/sentiment_analysis.py:250 | bumping a counter whose words are in first-occurrence order keeps them so, provided an unknown word occurs after every known one |
| SentimentText.Strip | analysis/sentiment_analysis.py:123 | a stripped text neither starts nor ends with whitespace |
| SentimentText.StripNonSpace | analysis/sentiment_analysis.py:123 | stripping removes whitespace only |
| SentimentText.CollapseShape | analysis/sentiment_analysis.py:122 | `re.sub(r'\s+', ' ', text)` keeps every non-whitespace character in order, leaves the plain space as the only whitespace, never two spaces in a row, and keeps a first character that is not whitespace |
| SentimentText.PreprocessShape | analysis/sentiment_analysis.py:120-123 | the prepared text has no whitespace at either end, none inside but single plain spaces, and the non-whitespace characters of the lower-cased text in order |
| SentimentText.AnyContained | analysis/sentiment_analysis.py:127-130 | true exactly when some listed word occurs in the text |
| SentimentText.EmotionFeaturesOf | analysis/sentiment_analysis.py:125-131 | each of the four flags is set exactly when some word of its list occurs in the prepared text |
| SentimentScore.Clamp100 | analysis/sentiment_analysis.py:164 | the result lies in [0, 100] and a value already there is kept |
| SentimentScore.RuleScoreFacts | analysis/sentiment_analysis.py:143-164 | a swear word fixes the score at 5 whatever else the text holds; every score lies in [0, 85]; a text with no dictionary word scores 50; without a positive word the score is at most 50 |
| SentimentScore.RuleScoreMonotone | analysis/sentiment_analysis.py:148-161 | without a swear word, a positive word never lowers the score and a negative or very negative one never raises it |
| SentimentScore.ScoreWithRules | analysis/sentiment_analysis.py:133-164 | the score built rule by rule is the rule score of the prepared text's features, with the `!!` and thumbs-up tests made on the raw text |
| SentimentScore.SentimentLabel | analysis/sentiment_analysis.py:193-202 | the five labels partition the scores: positive from 75, somewhat positive in [55, 75), neutral in the open band (45, 55), somewhat negative in [25, 45] and negative below 25 |
| SentimentScore.LabelMonotone | analysis/sentiment_analysis.py:193-202 | a higher score never gets a lower class |
| SentimentScore.ConfidenceOf | analysis/sentiment_analysis.py:209 | high exactly when the score is more than 20 from 50, otherwise medium, never low |
| SentimentScore.ConfidenceAgreesWithLabel | analysis/sentiment_analysis.py:193-209 | a neutral score is never of high confidence, and a high-confidence score lies on the same side of 50 as its class |
| SentimentScore.Weight | analysis/sentiment_analysis.py:176-177 | a class weight lies in [0, 1.5] |
| SentimentScore.Weights | analysis/sentiment_analysis.py:172-178 | there are five weights, the `i`-th of class `i` |
| SentimentScore.ClassWeights | analysis/sentiment_analysis.py:173-178 | the loop yields the five class weights in class order |
| SentimentScore.WeightTotalPositive | analysis/sentiment_analysis.py:180 | for a score in [0, 100] the weights add up to at least 1, so the `or 1.0` fallback never applies |
| SentimentScore.Divider | analysis/sentiment_analysis.py:180 | the divisor is positive |
| SentimentScore.ClassProbabilitiesOf | analysis/sentiment_analysis.py:180-186 | five entries, one per label in class order, each the class weight's percentage of the total |
| SentimentScore.ClassProbabilitiesSpread | analysis/sentiment_analysis.py:166-186 | every percentage is non-negative, and for a score in [0, 100] the five add up to 100 |
| SentimentScore.ClassProbabilities | analysis/sentiment_analysis.py:166-186 | the method computes the class percentages of the score |
| SentimentScore.AnalyzeText | analysis/sentiment_analysis.py:188-219 | the method yields the analysis record of the text, or the fallback for a value that is not a string |
| SentimentScore.AnalysisFacts | analysis/sentiment_analysis.py:188-219 | a string gets a score in [0, 85] with the label and confidence of that score and percentages adding up to 100; the confidence is low exactly for the fallback |
| SentimentKeywords.TokensShape | analysis/sentiment_analysis.py:235-242 | every token found is a run of two or more Hangul syllables, ASCII letters or digits |
| SentimentKeywords.NoTokenChars | analysis/sentiment_analysis.py:235-242 | a text with no token character has no token |
| SentimentKeywords.TallyWellCounted | analysis/sentiment_analysis.py:236-250 | the counter holds distinct keywords, each lower-case, neither excluded nor all digits, with positive counts |
| SentimentKeywords.CountTokensTotal | analysis/sentiment_analysis.py:243-250 | every kept token counts once: the counts grow by the number of tokens that are neither excluded nor all digits |
| SentimentKeywords.CountTokensAll | analysis/sentiment_analysis.py:243-250 | counting a text's tokens into the counter of some words gives the counter of those words followed by the lower-case forms of the kept tokens |
| SentimentKeywords.TallyIsCountAll | analysis/sentiment_analysis.py:236-250 | `Tally`, the counting loops over all texts, is the counter of the kept words: the lower-case forms of the tokens neither excluded nor all digits, text by text |
| SentimentKeywords.TallyCounts | analysis/sentiment_analysis.py:236-250 | each word's count is the number of kept tokens whose lower-case form it is; the words are kept words, in the order of their first occurrence |
| SentimentKeywords.SortByCountFacts | analysis/sentiment_analysis.py:253 | the sort orders the entries by non-increasing count and is a permutation of the counter |
| SentimentKeywords.SortByCountStable | analysis/sentiment_analysis.py:253 | the sort is stable: for a counter whose words are in the order of first occurrence in `ws`, entries of equal count stay in that order |
| SentimentKeywords.SortByCountKeepsTies | analysis/sentiment_analysis.py:253 | for a counter of distinct words, entries of equal count keep their counter order |
| SentimentKeywords.MostCommon | analysis/sentiment_analysis.py:253 | `most_common(n)` gives `min(n, len)` entries, none for `n <= 0` |
| SentimentKeywords.MostCommonSorted | analysis/sentiment_analysis.py:253 | the chosen entries are in order of count and come from the counter |
| SentimentKeywords.MostCommonRanks | analysis/sentiment_analysis.py:253 | no entry left out has a larger count than a chosen one |
| SentimentKeywords.MostCommonStable | analysis/sentiment_analysis.py:253 | the chosen entries keep ties in counter order, and an entry left out with the count of a chosen one comes after it: ties go to the entries counted first |
| SentimentKeywords.MostCommonDistinct | analysis/sentiment_analysis.py:253 | a counter of distinct words never has the same entry chosen twice |
| SentimentKeywords.MostCommonWords | analysis/sentiment_analysis.py:253-254 | the words of the chosen entries are at most `n`, distinct, keywords, and in order of count |
| SentimentKeywords.MostCommonWordTies | analysis/sentiment_analysis.py:253-254 | chosen words of equal count are in the counter's order |
| SentimentKeywords.MostCommonLeftOut | analysis/sentiment_analysis.py:253-254 | a counted word left out has at most the count of each chosen word, and comes after it in the counter's order when the counts are equal |
| SentimentKeywords.CountText | analysis/sentiment_analysis.py:243-250 | the inner loop counts one text's tokens as the tally function does |
| SentimentKeywords.ExtractTopKeywords | analysis/sentiment_analysis.py:221-254 | the loops compute the top keywords of the texts, excluding stop words and every emotion-dictionary word |
| SentimentKeywords.TopKeywordsFacts | analysis/sentiment_analysis.py:221-254 | `TopKeywords`: no keywords for no texts or `top_n <= 0`; otherwise at most `top_n` distinct keywords, each a lower-case token of two or more characters, neither excluded nor all digits |
| SentimentKeywords.TopKeywordsOrder | analysis/sentiment_analysis.py:221-254 | each keyword is a kept word of the texts, and the keywords come in order of how often they occur among the kept words |
| SentimentKeywords.TopKeywordsTies | analysis/sentiment_analysis.py:221-254 | keywords occurring equally often come in the order of their first occurrence |
| SentimentKeywords.TopKeywordsLeftOut | analysis/sentiment_analysis.py:221-254 | no kept word left out occurs more often than a chosen keyword, and one occurring as often first occurs after it |
| SentimentSummary.Shares | client/src/app/api/analyze/route.ts:166-173 | one entry per tally entry, in tally order, with its label, its count and the count's percentage of the total |
| SentimentSummary.SharesPercentSum | client/src/app/api/analyze/route.ts:166-173 | the percentages add up to the tallied count's percentage of the total |
| SentimentSummary.CountLabels | client/src/app/api/analyze/route.ts:154-164 | the `acc`-mutating reduce computes the label tally |
| SentimentSummary.DistributionCounts | client/src/app/api/analyze/route.ts:154-173 | the distribution has one entry per distinct label, in order of first occurrence starting with the first label, each counting that label's (positive) number of occurrences |
| SentimentSummary.DistributionCovers | client/src/app/api/analyze/route.ts:154-173 | every label of the results has an entry |
| SentimentSummary.DistributionSum | client/src/app/api/analyze/route.ts:166-173 | the percentages add up to 100 |
| SentimentSummary.MeanBounds | client/src/app/api/analyze/route.ts:175-180 | the mean lies within any bounds every score respects |
| SentimentSummary.KeepFirstLabelKeeps | client/src/app/api/analyze/route.ts:182-194 | the reducer as written never changes the label or the count: they stay those of the first entry whatever the shown percentages |
| Common.FixedNear | client/src/app/api/analyze/route.ts:99-101 | `parseFloat(x.toFixed(n))` is within half a unit of the n-th place of `x` |
| Common.FixedSum | client/src/app/api/analyze/route.ts:99-101 | two values rounded to two places add up to their sum within 0.01 |
| Common.FixedMonotone | client/src/app/api/analyze/route.ts:182-194 | rounding to n places keeps the order of non-negative values |
| Common.FixedSeparates | client/src/app/api/analyze/route.ts:182-194 | non-negative values at least one unit of the n-th place apart stay strictly ordered after rounding |
| SentimentSummary.FirstMax | frontend/src/app/api/sentiment/route.ts:123-127 | the index of the first entry with the greatest percentage as read back from its two-place text: no entry shows a greater one and every earlier entry a smaller one |
| SentimentSummary.FirstMaxCounts | frontend/src/app/api/sentiment/route.ts:103-127 | in a distribution of at most 10000 results the first greatest shown percentage is also the first greatest count |
| SentimentSummary.ShownOrder | frontend/src/app/api/sentiment/route.ts:109-127 | out of at most 10000, shown percentages of two counts compare as the counts do, strictly and not |
| SentimentSummary.PercentStep | frontend/src/app/api/sentiment/route.ts:109-114 | out of at most 10000, one more occurrence adds at least 0.01 percent |
| SentimentSummary.DominantMismatch | client/src/app/api/analyze/route.ts:182-194 | for labels `a, b, b` the reducer as written reports `a`, while the first greatest share is `b` with two of the three results |
| AnalyzeRoute.SentimentStrength | client/src/app/api/analyze/route.ts:136-142 | the five strengths partition the scores: from 75, [55, 75), the open band (45, 55), [25, 45] and below 25 |
| AnalyzeRoute.KoreanResultOf | client/src/app/api/analyze/route.ts:92-108 | the score rounded to two places is both the sentiment score and the positive share, within 0.005 of the score; the negative share is its complement to 100, rounded, so the shares add up to 100 within 0.01; the service's label is both the detailed and the overall sentiment, confidence and class probabilities are passed through, and the strength is that of the unrounded score |
| AnalyzeRoute.KoreanResults | client/src/app/api/analyze/route.ts:92-108 | one mapped result per service result, in order |
| AnalyzeRoute.OverallAsWritten | client/src/app/api/analyze/route.ts:144-204 | the summary as written throws exactly for an empty result list |
| AnalyzeRoute.AsWrittenDominantIsFirst | client/src/app/api/analyze/route.ts:182-197 | as written, the dominant label is always the first result's label |
| AnalyzeRoute.AsWrittenMisreports | client/src/app/api/analyze/route.ts:182-197 | for three results labelled `a, b, b` the code as written reports `a`, the corrected summary `b` |
| AnalyzeRoute.OverallOf | client/src/app/api/analyze/route.ts:144-204 | the corrected summary throws exactly for an empty result list |
| AnalyzeRoute.OverallFacts | client/src/app/api/analyze/route.ts:144-204 | the summary of a non-empty list counts every result; its distribution counts the label occurrences and adds up to 100 percent; the dominant label is the first of greatest shown percentage and, for at most 10000 results, occurs at least as often as any other and more often than every label first seen before it; the average is the mean of the rounded scores, in [0, 100] when every one is; the strength is that of the average and the confidence the first result's |
| AnalyzeRoute.RoundedStrength | client/src/app/api/analyze/route.ts:99-106 | the summary's strength is that of the rounded scores: a lone score of 54.996 is "보통" itself but carried as 55.00, whose strength is "강함" |
| AnalyzeRoute.DetermineOverallSentiment | client/src/app/api/analyze/route.ts:144-204 | the reduce loops compute the corrected summary |
| AnalyzeRoute.FeedTexts | client/src/app/api/analyze/route.ts:55-57 | the texts are at most as many as the feeds, each a non-empty text of some feed, and every non-empty text of a feed is among them |
| AnalyzeRoute.FeedTextsAppend | client/src/app/api/analyze/route.ts:55-57 | the texts of two feed lists put together are the texts of the first followed by those of the second |
| AnalyzeRoute.FeedTextsSingle | client/src/app/api/analyze/route.ts:55-57 | one feed gives its text exactly when the text is present and non-empty, and nothing otherwise |
| AnalyzeRoute.Individual | client/src/app/api/analyze/route.ts:110-113 | one pair per text, in order; the `i`-th holds the `i`-th mapped result, and none when the service sent fewer results than texts |
| AnalyzeRoute.AnalyzePostCases | client/src/app/api/analyze/route.ts:15-133 | a refused caller gets 429 before anything else; a missing or empty `stock_id` gets 400; the fixed neutral answer is given exactly when the crawl succeeds with no text; a summary of results pairs every text and counts as many results as the service sent, and reports the label of the first result as dominant; the status is 200 exactly for an analysed answer |
| AnalyzeRoute.AnalyzePost | client/src/app/api/analyze/route.ts:15-133 | as written: a server error exactly when an allowed caller with a `stock_id` and configured services meets a failed crawl, or a crawl with text whose analysis fails or is empty; an analysed answer with results reports the first result's label as dominant |
| AnalyzeRoute.AnalyzePostCorrected | client/src/app/api/analyze/route.ts:15-133 | with the corrected reducer: an analysed answer with results carries the corrected summary of the mapped service results |
| AnalyzeRoute.OverallOnlyDominantDiffers | client/src/app/api/analyze/route.ts:144-204 | for any non-empty list of results the summary as written and the corrected summary agree on every field (average, distribution, confidence, strength, count); only the dominant label can differ |
| AnalyzeRoute.AnalyzePostCorrectedOnlyDominant | client/src/app/api/analyze/route.ts:15-133 | the corrected handler answers as written on every request, except that an analysed answer may name another dominant label |
| SentimentRoute.EmptyFeedFails | client/src/app/api/sentiment/route.ts:9-59 | as written, a feed without text gets 500, since the summary of no results throws |
| SentimentRoute.SentimentGetAsWritten | client/src/app/api/sentiment/route.ts:4-61 | as written: 500 exactly when the scrape fails or the analysis fails or is empty, a feed without text included; an analysed answer pairs every text, counts every result and reports the first result's label as dominant |
| SentimentRoute.SentimentGet | client/src/app/api/sentiment/route.ts:4-61 | with the empty-feed guard and the corrected reducer: 500 exactly when the scrape fails, or a feed with text gets no analysis or an empty one; an analysed answer with results carries the corrected summary of the mapped results |
| SentimentRoute.SentimentGetGuards | client/src/app/api/sentiment/route.ts:4-61 | with the guard and the corrected reducer, a feed without text gets the neutral answer with 200; on any other request the answer is of the same kind as the written one, an answer that is not analysed is the written one, and an analysed one has the written individual results and the written summary except perhaps the dominant label, counting every result and pairing every text |
| FrontendSentimentRoute.DetailedSentiment | frontend/src/app/api/sentiment/route.ts:77-83 | five bands of width 0.2, each label exactly for its band |
| FrontendSentimentRoute.ConfidenceLevel | frontend/src/app/api/sentiment/route.ts:85-90 | by twice the distance from 0.5: low below 0.33, medium below 0.66, high from there, each exactly in its band |
| FrontendSentimentRoute.ConfidenceSymmetric | frontend/src/app/api/sentiment/route.ts:85-90 | the confidence of a score and of its complement to 1 agree |
| FrontendSentimentRoute.InterpretLabel | frontend/src/app/api/sentiment/route.ts:92-101 | the five star labels map to their Korean labels and every other label to neutral |
| FrontendSentimentRoute.AnalyzeKoreanSentiment | frontend/src/app/api/sentiment/route.ts:51-74 | a failing model gives the neutral error record; otherwise the score is the model's rounded to four places, the percentages are the score and its complement as percentages, each rounded to two places and adding up to 100 within 0.01, the band and confidence are those of the unrounded score, and the overall label is the star label read |
| FrontendSentimentRoute.OverallOf | frontend/src/app/api/sentiment/route.ts:103-135 | the summary throws exactly for an empty list |
| FrontendSentimentRoute.DetermineOverallSentiment | frontend/src/app/api/sentiment/route.ts:103-135 | the reduce loops compute the summary |
| FrontendSentimentRoute.OverallFacts | frontend/src/app/api/sentiment/route.ts:103-135 | the percentages add up to 100; the dominant label counts its occurrences and is the first of greatest shown percentage and, for at most 10000 texts, occurs at least as often as any other and more often than every label first seen before it; the average is the mean of the rounded scores, in [0, 1] when every one is; the confidence is that of the average |
| FrontendSentimentRoute.RoundedConfidence | frontend/src/app/api/sentiment/route.ts:57-61 | a lone text scored 0.66499 has confidence "낮음" but is carried as 0.6650, so the summary's confidence is "중간" |
| FrontendSentimentRoute.FrontendGetCases | frontend/src/app/api/sentiment/route.ts:7-41 | `FrontendGet`: the answer is an error exactly when the scrape fails or leaves no text; otherwise each text is paired with its own analysis, in order |
| FrontendSentimentRoute.FrontendGet | frontend/src/app/api/sentiment/route.ts:7-41 | the overall summary of an analysed answer is the summary of its own individual analyses |
| Options.CountOf | client/src/features/stock/utils/stock-options.ts:43-44 | a finite count is kept; a missing or NaN count is 0 |
| Options.BucketKeyNearest | client/src/features/stock/utils/stock-options.ts:31-34 | with a positive bucket size the key is within half a bucket of the strike, a half-way strike rounding up |
| Options.BucketKeyIdempotent | client/src/features/stock/utils/stock-options.ts:31-34 | bucketing a bucket key again changes nothing |
| Options.StrikeIndex | client/src/features/stock/utils/stock-options.ts:46 | `map.get(key)`: the position found holds the key, and there is none exactly when no entry holds it |
| Options.TallyKeys | client/src/features/stock/utils/stock-options.ts:36-48 | the map holds one distinct entry per bucket key of a kept row |
| Options.TallyTotals | client/src/features/stock/utils/stock-options.ts:38-48 | each entry sums the open interest and volume of the kept rows of its bucket |
| Options.TallyConserves | client/src/features/stock/utils/stock-options.ts:38-48 | aggregation conserves open interest: the entries add up to the kept rows' total |
| Options.InsertRanked | client/src/features/stock/utils/stock-options.ts:56-59 | inserting adds exactly the one entry |
| Options.Rank | client/src/features/stock/utils/stock-options.ts:56-59 | the sort is a permutation of the entries |
| Options.RankRanked | client/src/features/stock/utils/stock-options.ts:56-59 | the sorted entries are by open interest descending, ties by strike ascending |
| Options.RankSum | client/src/features/stock/utils/stock-options.ts:56-59 | sorting keeps the open-interest total |
| Options.AggregateProperties | client/src/features/stock/utils/stock-options.ts:18-62 | one distinct entry per bucket key of a kept row (a finite strike inside the band), each summing that bucket's open interest and volume; the total open interest of the kept rows is conserved; the entries are ranked by open interest descending, ties by strike ascending |
| Options.AggregateOiByStrike | client/src/features/stock/utils/stock-options.ts:18-62 | the loops and the sort compute the aggregation |
| Options.PickOiWall | client/src/features/stock/utils/stock-options.ts:64-70 | no wall exactly when no row is kept; otherwise an aggregated entry with the most open interest, the lowest strike among equals |
| Options.PickOiWallTopN | client/src/features/stock/utils/stock-options.ts:72-80 | nothing for `n <= 0`, else the first `min(n, len)` entries of the ranking; no entry left out ranks ahead of a chosen one |
| Options.ScanStrikesMembers | client/src/features/stock/utils/stock-options.ts:86-94 | the strikes scanned are strictly increasing and are exactly the finite strikes of the calls and puts |
| Options.CollectStrikes | client/src/features/stock/utils/stock-options.ts:86-93 | the loops collect the set of finite strikes, calls first |
| Options.SortAscendingIncreasing | client/src/features/stock/utils/stock-options.ts:94 | sorting distinct values gives a strictly increasing sequence of the same values |
| Options.PainAt | client/src/features/stock/utils/stock-options.ts:101-113 | the inner loops sum every contract's payout at the settlement strike |
| Options.BestOfMinimal | client/src/features/stock/utils/stock-options.ts:97-121 | the scan finds a strike of minimal pain, the first such in scan order, and nothing only for no strikes |
| Options.MaxPainMinimal | client/src/features/stock/utils/stock-options.ts:82-122 | max pain is absent exactly when there are no rows; otherwise it is an observed strike of minimal pain, and every lower observed strike has strictly more pain |
| Options.MaxPainNoInterest | client/src/features/stock/utils/stock-options.ts:100-121 | with no open interest anywhere, max pain is the lowest observed strike |
| Options.LegPainPermutation | client/src/features/stock/utils/stock-options.ts:103-113 | a leg's pain does not depend on the order of its rows |
| Options.MaxPainOrderFree | client/src/features/stock/utils/stock-options.ts:82-122 | max pain does not depend on the order of the calls or of the puts |
| Options.ComputeMaxPain | client/src/features/stock/utils/stock-options.ts:82-122 | the loops compute the max-pain strike |
| Options.WallsOf | client/src/features/stock/utils/stock-options.ts:168-169 | one wall per entry, with its strike and open interest |
| Options.ExpirationOf | client/src/features/stock/utils/stock-options.ts:173-178 | the date part of a date or a text, and `null` for anything else |
| Options.BuildOptionsSnapshot | client/src/features/stock/utils/stock-options.ts:145-187 | no snapshot exactly for an empty chain; otherwise the spot and expiration, as walls of each leg the first `min(topN, buckets)` of its $1 buckets within 30% of the spot, largest open interest first, and the max pain of the unfiltered legs, which then always exists and is an observed strike |
| Ownership.SafeNum | client/src/features/stock/utils/stock-ownership.ts:1-3 | the value exactly of a finite number |
| Ownership.Clamp01 | client/src/features/stock/utils/stock-ownership.ts:5-7 | the result lies in [0, 1]: a value inside is kept, one below becomes 0, one above 1 |
| Ownership.Clamp01Idempotent | client/src/features/stock/utils/stock-ownership.ts:5-7 | clamping twice is clamping once |
| Ownership.NormalizePctMaybe | client/src/features/stock/utils/stock-ownership.ts:9-16 | a value exactly for a finite input, in [0, 1]: one above 1 is read as a percentage and divided by 100, one up to 1 kept as a fraction, then clamped |
| Ownership.NormalizePctIdempotent | client/src/features/stock/utils/stock-ownership.ts:9-16 | normalising twice is normalising once |
| Ownership.NormalizePercentOrFraction | client/src/features/stock/utils/stock-ownership.ts:12 | a fraction in (0.01, 1] and the same figure as a percentage normalise alike |
| Ownership.RoundShares | client/src/features/stock/utils/stock-ownership.ts:18-20 | `Math.round`: the one integer in (x - 0.5, x + 0.5] |
| Ownership.RoundSharesHalves | client/src/features/stock/utils/stock-ownership.ts:18-20 | a half rounds toward +infinity, for negative numbers too |
| Ownership.FormatPct01 | client/src/features/stock/utils/stock-ownership.ts:22-25 | `n/a` exactly for a missing or non-finite value, otherwise the value as a percentage |
| Ownership.FormatShares | client/src/features/stock/utils/stock-ownership.ts:27-36 | `n/a` exactly for a missing or non-finite count; below 1000 in magnitude the rounded count; otherwise the largest of K, M, B, T whose scaled value is at least 1 (below 1000 except for T), the scaled value times the unit being the count |
| OwnershipDto.InstPct | client/src/features/stock/dto/stock-ownership.ts:22-25 | known exactly when the institutions' fraction is; net of the insiders' (clamped) when both are known, else as reported |
| OwnershipDto.OtherPct | client/src/features/stock/dto/stock-ownership.ts:29 | known exactly when the institutions' fraction is, and then its complement to 1, clamped |
| OwnershipDto.SharesFor | client/src/features/stock/dto/stock-ownership.ts:31-44 | known exactly when the outstanding shares and the fraction are, and then their product rounded |
| OwnershipDto.OwnershipAsOf | client/src/features/stock/dto/stock-ownership.ts:46-52 | the first ten characters of the most recent quarter when it is a string, else the date part of the market time, and nothing when neither exists |
| OwnershipDto.BreakdownRows | client/src/features/stock/dto/stock-ownership.ts:54-81 | `BuildOwnershipBreakdown`: three rows, institutions, insiders and other, each with shares consistent with the outstanding shares; institutions and other are known exactly when the institutions' figure is finite, insiders when theirs is |
| OwnershipDto.BreakdownSumsToOne | client/src/features/stock/dto/stock-ownership.ts:21-29 | when insiders hold no more than institutions the three fractions add up to 1; otherwise the excess of insiders over institutions is counted twice |
| Facts.YearsBetween | client/src/features/stock/utils/stock-past-info.ts:234-237 | the span in years is positive exactly when the first date is earlier, and non-negative exactly when it is not later |
| Facts.AnnualQuarterDisjoint | client/src/features/stock/utils/stock-past-info.ts:11-21 | no fact is both annual-like (330 to 400 days) and quarter-like (80 to 120 days) |
| Facts.FilterByForms | client/src/features/stock/utils/stock-past-info.ts:131-137 | the kept facts are those of the input whose form is listed, and every such fact is kept |
| Facts.FilterByFp | client/src/features/stock/utils/stock-past-info.ts:139-142 | the kept facts are those of the input whose fiscal period is listed, and every such fact is kept |
| Facts.InsertByEnd | client/src/features/stock/utils/stock-past-info.ts:51-53 | inserting adds exactly the one fact |
| Facts.SortByEnd | client/src/features/stock/utils/stock-past-info.ts:51-53 | the sort by end date is a permutation of the facts |
| Facts.SortByEndSorted | client/src/features/stock/utils/stock-past-info.ts:51-53 | the sorted facts are in end-date order |
| Facts.SortByEndStrict | client/src/features/stock/utils/stock-past-info.ts:51-53 | when no two facts share an end date the sorted facts are strictly increasing by end date |
| Facts.SortByEndOfSorted | client/src/features/stock/utils/stock-past-info.ts:51-53 | the sort is stable: an already ordered series is unchanged |
| Facts.LastAsOf | client/src/features/stock/utils/stock-past-info.ts:29-35 | a fact exactly for a non-empty list: the last fact in series order ending on the date when there is one; else the last ending by the date, every later fact ending after it; else the last fact |
| Facts.LastEndingOnUnique | client/src/features/stock/utils/stock-past-info.ts:29-30 | the last of the facts ending on a date exists exactly when one ends on it, and it is the one fact ending on it with none after it |
| Facts.LastAsOfFilter | client/src/features/stock/utils/stock-past-info.ts:23-35 | the "as of" choice among the facts passing a test exists exactly when one passes, and it is the last passing fact ending on the date, else by it, else the last passing fact |
| Facts.SortByEndStable | client/src/features/stock/utils/stock-past-info.ts:51-53 | the sort by end date keeps the order of the facts that end on any one date |
| Facts.SortedLastAsOf | client/src/features/stock/utils/stock-past-info.ts:29-35 | on an end-ordered series the "as of" choice is the last fact with its end, has the latest end among facts ending by the date, and otherwise the latest end of all |
| Normalize.IndexOfEnd | client/src/features/stock/utils/stock-past-info.ts:42 | `byEnd.get(end)`: the first entry holding the end date, and none exactly when no entry holds it |
| Normalize.WinnerUnique | client/src/features/stock/utils/stock-past-info.ts:41-50 | at most one fact per end date survives |
| Normalize.WinnerExists | client/src/features/stock/utils/stock-past-info.ts:41-50 | every end date of the input has a survivor |
| Normalize.ByEndInvariant | client/src/features/stock/utils/stock-past-info.ts:40-50 | the map loop keeps one entry per end date seen, holding that date's surviving fact: filed no earlier than every fact before it with the same end, and strictly later than every one after it (a missing filing date counting as earliest) |
| Normalize.NormalizedCharacterization | client/src/features/stock/utils/stock-past-info.ts:38-54 | one fact per end date of the input, strictly increasing by end date, each the winner for its end date; empty exactly for an empty input |
| Normalize.NormalizeItems | client/src/features/stock/utils/stock-past-info.ts:38-54 | the map loop and the sort compute the normalised series, which is strictly increasing by end date |
| Units.FirstPreferred | client/src/features/stock/utils/stock-past-info.ts:67-70 | the list of the first preferred unit that has a non-empty list, and none exactly when no preferred unit has one |
| Units.PickUnitSeriesCases | client/src/features/stock/utils/stock-past-info.ts:56-75 | no units gives an empty series; otherwise the normalised list of the first preferred unit with data, or failing that the normalised list of the first unit key |
| Units.CurrencyFallback | client/src/features/stock/utils/stock-past-info.ts:91-107 | the currency list is consulted only when the preferred pick is empty, and then gives the series of the first listed currency with data |
| Units.AbsentConcept | client/src/features/stock/utils/stock-past-info.ts:56-107 | a concept the company does not report gives the empty series |
| Units.FirstConcept | client/src/features/stock/utils/stock-past-info.ts:115-118 | the first concept with a non-empty series, and none exactly when no concept has one |
| Units.CrossTaxonomyOrder | client/src/features/stock/utils/stock-past-info.ts:109-129 | a us-gaap concept with data wins; an ifrs-full concept is named only when no listed concept has us-gaap data; otherwise the result is empty; the named concept is the first with data in its taxonomy and the series is its series |
| Units.PickFirstSeriesCrossTaxonomy | client/src/features/stock/utils/stock-past-info.ts:109-129 | the two early-return loops compute the cross-taxonomy pick |
| Ttm.FilterCountPermutation | client/src/features/stock/utils/stock-past-info.ts:149-156 | filtering a permutation keeps as many facts, so a tier's size does not depend on the input order |
| Ttm.TtmTierOrder | client/src/features/stock/utils/stock-past-info.ts:144-210 | the tiers are tried in the order Q_FP, Q_DURATION, FY, ANNUAL_LIKE, Q_LIKE: each is taken exactly when it has enough facts (four for the quarterly tiers, one otherwise) and every earlier tier has too few; there is no result exactly when none has enough |
| Ttm.FilterSorted | client/src/features/stock/utils/stock-past-info.ts:149-199 | a tier filtered from the sorted facts is sorted |
| Ttm.TierLastIsLatest | client/src/features/stock/utils/stock-past-info.ts:149-199 | the last fact of a tier has the latest end date among the input facts of that tier, and every fact of the tier is an input fact of it |
| Ttm.TtmEndIsLatest | client/src/features/stock/utils/stock-past-info.ts:144-210 | the result's end date is the latest end among the input facts of the tier it came from, and some input fact of that tier ends on it |
| Growth.Cagr | client/src/features/stock/utils/stock-past-info.ts:239-244 | a rate exactly for a positive span and positive endpoints, and then `(latest / past)^(1 / years) - 1` |
| Growth.CagrPositive | client/src/features/stock/utils/stock-past-info.ts:239-244 | for an increasing power function the rate is positive exactly when the latest value exceeds the past one |
| Growth.PickPastValueNearYears | client/src/features/stock/utils/stock-past-info.ts:247-260 | none exactly when no fact lies before the latest end by at least `targetYears`; otherwise the last such fact in series order |
| Growth.LastPastCandidateUnique | client/src/features/stock/utils/stock-past-info.ts:247-260 | the picked past value is the one fact at least `targetYears` before the latest end with no later such fact |
| Growth.PastValueIsLastOfFilters | client/src/features/stock/utils/stock-past-info.ts:254-259 | the two successive filters followed by taking the last element give that same fact |
| Growth.TurnaroundFrom | client/src/features/stock/utils/stock-past-info.ts:311-318 | the first position at or after `i` whose predecessor is a loss or zero and which is a profit, and none exactly when there is no such position |
| Growth.FindTurnaroundYear | client/src/features/stock/utils/stock-past-info.ts:307-320 | the loop yields the year of the first turnaround, and a year exactly when some adjacent pair turns from loss or zero to profit |
| Growth.FirstTurnaroundUnique | client/src/features/stock/utils/stock-past-info.ts:307-320 | the turnaround found is the first position whose predecessor is a loss or zero and which is a profit, and there is none exactly when no position is one |
| Growth.PickAnnualSeriesForGrowth | client/src/features/stock/utils/stock-past-info.ts:294-305 | every fact is an input fact; the FY facts of the annual forms when there are some; when no input fact is both, the annual-like facts sorted by end date |
| Growth.TurnaroundOr | client/src/features/stock/utils/stock-past-info.ts:340-342 | a turnaround names the non-zero year of the first position whose predecessor is a loss or zero and which is a profit, with its label; a first turnaround with a non-zero year always gives one; otherwise the given reason |
| Growth.GrowthFrom | client/src/features/stock/utils/stock-past-info.ts:337-357 | a rate is the compound growth from the last annual fact at least `targetYears` before the latest one, both positive, and there is one whenever both are; "no past value" exactly when no fact is that old; "not applicable" carries that fact and the latest, not both positive; a turnaround names the first turnaround |
| Growth.GrowthRateMeaning | client/src/features/stock/utils/stock-past-info.ts:321-358 | a growth rate is the compound growth from the last annual fact at least `targetYears` before the "as of" latest annual fact, both positive |
| Growth.GrowthTurnaroundMeaning | client/src/features/stock/utils/stock-past-info.ts:321-358 | a turnaround names the non-zero year of the first annual fact that is a profit while its predecessor was a loss or zero |
| Growth.GrowthNaMeaning | client/src/features/stock/utils/stock-past-info.ts:321-358 | "latest annual value not found" exactly when there is no annual fact, and "not applicable" carries endpoints that are not both positive |
| Growth.PickLatestAnnual | client/src/features/stock/utils/stock-past-info.ts:212-232 | a point of an input fact; none exactly when no fact is a 10-K FY fact or annual-like; without 10-K FY facts, the annual-like fact with the latest end |
| Growth.PickLatestAnnualChoice | client/src/features/stock/utils/stock-past-info.ts:212-232 | with a 10-K FY fact, the point of the last such fact in series order; otherwise the point of the last annual-like fact carrying the latest end |
| Growth.LatestOfSorted | client/src/features/stock/utils/stock-past-info.ts:223-228 | the last element of the sorted copy is an input fact with the latest end |
| Growth.PickAnnualAsOf | client/src/features/stock/utils/stock-past-info.ts:23-36 | an annual-like input fact, none exactly when there is none; one ending on the date when there is one, else one ending by it; the last in series order with its end; the latest end among annual-like facts ending by the date, and the latest of all when it ends after the date |
| Growth.PickLatestAsOf | client/src/features/stock/utils/stock-past-info.ts:726-733 | none exactly when every fact ends after the date; otherwise the last fact in series order ending by the date |
| Growth.PickLatestAsOfUnique | client/src/features/stock/utils/stock-past-info.ts:726-733 | the picked fact is the one fact ending by the date with every later fact ending after it |
| Growth.PickFYAsOf | client/src/features/stock/utils/stock-past-info.ts:744-758 | an FY annual-form input fact, none exactly when there is none; the last such fact ending on the date when there is one, else the last ending by it, else the last such fact |
| PastMetrics.SeriesScore | client/src/features/stock/utils/stock-past-info.ts:652-669 | a score lies in [0, 170] |
| PastMetrics.SeriesScoreParts | client/src/features/stock/utils/stock-past-info.ts:652-669 | the score reaches 100 exactly when some fact is FY or of an annual form; its remainder modulo 100 reaches 50 exactly when at least four facts are quarterly; its remainder modulo 50 is the length capped at 20 |
| PastMetrics.Candidates | client/src/features/stock/utils/stock-past-info.ts:673-677 | one candidate per concept, in order, with that concept's unit series and its score |
| PastMetrics.BestOfIsBest | client/src/features/stock/utils/stock-past-info.ts:671-684 | no concept exactly when every series is empty; otherwise the first candidate of highest score among those with a non-empty series, with its series and score |
| PastMetrics.BestSeriesOnly | client/src/features/stock/utils/stock-past-info.ts:640-684 | when only one candidate concept has facts, its series is the best |
| PastMetrics.BestSeriesNone | client/src/features/stock/utils/stock-past-info.ts:640-684 | when no candidate concept has facts, the best series is empty |
| PastMetrics.MetricsWithAnnualFacts | client/src/features/stock/utils/stock-past-info.ts:433-459 | annual-like facts in the revenue and income series are enough for style metrics |
| PastMetrics.HeadlineWithAnnualFacts | client/src/features/stock/utils/stock-past-info.ts:433-459 | an annual-like fact in each series is enough for the headline figures |
| PastMetrics.NoTenKIncomeNoRate | client/src/features/stock/utils/stock-past-info.ts:496-531 | when there are style metrics but no FY income fact on form 10-K or 10-K/A, there is no income rate |
| PastMetrics.NoTenKIncomeMetrics | client/src/features/stock/utils/stock-past-info.ts:433-531 | series starting with annual-like facts, with no income fact on form 10-K or 10-K/A, give style metrics without an income rate |
| PastMetrics.PickBestSeriesByTTMSupport | client/src/features/stock/utils/stock-past-info.ts:640-685 | the loop keeping the best series, replaced only on a strictly higher score, yields the best candidate |
| PastMetrics.FirstUsGaapSeries | client/src/features/stock/utils/stock-past-info.ts:384-390 | the first concept with a non-empty us-gaap series and that series; no concept and no series exactly when every series is empty |
| PastMetrics.PickFirstSeries | client/src/features/stock/utils/stock-past-info.ts:384-390 | the early-return loop yields the first us-gaap series |
| PastMetrics.RevenueSeries | client/src/features/stock/utils/stock-past-info.ts:393-418 | the best us-gaap concept in USD when it has data, else the best ifrs-full concept of the list plus `Revenue` in USD, DKK or EUR |
| PastMetrics.HeadlineFigures | client/src/features/stock/utils/stock-past-info.ts:437-459 | both TTM values, dated by the income TTM, when both exist; otherwise the latest annual values dated by the income one, and nothing exactly when either is missing; the date is always the end of an income fact |
| PastMetrics.NetMargin | client/src/features/stock/utils/stock-past-info.ts:462-463 | a margin exactly for non-zero revenue, and then the income over the revenue |
| PastMetrics.AverageEquityRoe | client/src/features/stock/utils/stock-past-info.ts:474-488 | an ROE is the income over the non-zero mean of an equity fact ending by the reference date and one at least a year older |
| PastMetrics.AverageEquityRoeChoice | client/src/features/stock/utils/stock-past-info.ts:474-488 | an ROE exists exactly when there is a pair of the last equity fact ending by the reference date and the last one at least a year before it, with a non-zero mean, and it is the income over that mean |
| PastMetrics.TenKFY | client/src/features/stock/utils/stock-past-info.ts:492-499 | the 10-K FY facts of a series: every kept fact is one, and every one is kept |
| PastMetrics.CagrOverYears | client/src/features/stock/utils/stock-past-info.ts:501-531 | a rate is the compound growth from the last fact at least `years` before the last fact, both positive, and there is one whenever both are |
| PastMetrics.DerivedEpsCagr | client/src/features/stock/utils/stock-past-info.ts:561-600 | a derived EPS rate needs income and shares facts, and a shares fact ending exactly on the past income fact's end, with non-zero shares |
| PastMetrics.DerivedEpsCagrChoice | client/src/features/stock/utils/stock-past-info.ts:561-600 | a derived EPS rate exists exactly when the last income fact five years before the latest, the last shares fact on its end and the shares for the latest income (the last on its end, else the last shares fact) give positive per-share values, and it is their compound growth |
| PastMetrics.NetIncomeGrowth | client/src/features/stock/utils/stock-past-info.ts:604-606 | without a 10-K FY income fact there is no latest income end; otherwise the growth of the income series up to the last FY income end, a rate being the compound growth between two positive income facts at least five years apart |
| PastMetrics.EpsGrowth | client/src/features/stock/utils/stock-past-info.ts:608-618 | without an EPS series the answer is "no eps series"; otherwise the growth of the EPS series up to the last FY income end, else its own last end, a rate being the compound growth between two positive EPS facts at least five years apart |
| PastMetrics.MetricsFrom | client/src/features/stock/utils/stock-past-info.ts:461-631 | the metrics carry the headline figures and their date; the margin exists exactly for non-zero revenue; without a 10-K FY income fact the income growth is "no latest net income end" |
| PastMetrics.MetricsOf | client/src/features/stock/utils/stock-past-info.ts:433-631 | metrics exactly when both series are non-empty and the headline figures exist, and then they agree with the income series |
| PastMetrics.ComputeSimplyStyleMetrics | client/src/features/stock/utils/stock-past-info.ts:360-632 | metrics exist exactly when both the revenue and the income series exist and so do the headline figures; the reference date is the end of an income fact, the margin exists exactly for non-zero revenue, and there is no income growth without a 10-K FY income fact |
| PastChecklist.ChecklistRevenue | client/src/features/stock/utils/stock-past-info.ts:809-831 | the best us-gaap concept in USD when it has data, else the best ifrs-full one in USD, DKK or EUR |
| PastChecklist.FlowSeriesAll | client/src/features/stock/utils/stock-past-info.ts:870-900 | the series of each concept, in order |
| PastChecklist.FirstFlowSeries | client/src/features/stock/utils/stock-past-info.ts:870-900 | the series of the first concept with data in either taxonomy, and empty exactly when no concept has any |
| PastChecklist.PickFirstFlowSeries | client/src/features/stock/utils/stock-past-info.ts:870-884 | the concept loop, us-gaap then ifrs-full per concept, yields the first non-empty series |
| PastChecklist.FYOrAnnualLike | client/src/features/stock/utils/stock-past-info.ts:840-854 | every fact is an input fact; the 10-K FY facts when there are any; otherwise exactly the annual-like facts |
| PastChecklist.SecondLast | client/src/features/stock/utils/stock-past-info.ts:934-941 | the element before the last, exactly when there are two |
| PastChecklist.MarginOf | client/src/features/stock/utils/stock-past-info.ts:943-949 | a margin exactly when both facts exist and revenue is not zero, and then the income over the revenue |
| PastChecklist.FlowFYItem | client/src/features/stock/utils/stock-past-info.ts:902-911 | an FY annual-form or annual-like input fact; none exactly when there is neither; with FY annual-form facts, the last of them ending on the date, else by it, else the last; otherwise the annual-like "as of" choice |
| PastChecklist.FlowForLatestNi | client/src/features/stock/utils/stock-past-info.ts:902-911 | nothing without an FY income fact, otherwise the cash-flow fact for the end of the latest one |
| PastChecklist.FreeCashFlow | client/src/features/stock/utils/stock-past-info.ts:918-919 | free cash flow exactly when both figures exist, and then the cash flow plus the (signed) capital spending |
| PastChecklist.PositiveCount3y | client/src/features/stock/utils/stock-past-info.ts:979-985 | at most three profitable years |
| PastChecklist.RevenueYoY | client/src/features/stock/utils/stock-past-info.ts:1005-1007 | growth exactly when there are two facts and the earlier is non-zero, and then `latest / prev - 1` |
| PastChecklist.RoeForLatestNi | client/src/features/stock/utils/stock-past-info.ts:1045-1054 | an ROE is the latest FY income over the non-zero mean of an equity fact by its end and one at least a year older |
| PastChecklist.RoeForLatestNiChoice | client/src/features/stock/utils/stock-past-info.ts:1045-1054 | an ROE exists exactly when there is FY income and an equity pair for its end (the last fact ending by it and the last at least a year before that), and it is the latest income over the pair's mean |
| PastChecklist.PastChecklistFrom | client/src/features/stock/utils/stock-past-info.ts:1058-1108 | five items in the order quality, margins, trend, growth, ROE, and the score is the number that pass |
| PastChecklist.PastChecklistOf | client/src/features/stock/utils/stock-past-info.ts:760-1122 | the score counts the passing items, and the ROE item passes exactly above the threshold, 0.15 by default |
| PastChecklist.EarningsTrendRule | client/src/features/stock/utils/stock-past-info.ts:960-996 | the trend passes exactly when the latest FY income is positive and its five-year CAGR is positive or, with no CAGR, at least two of the last three yearly results were profits |
| PastChecklist.QualityRule | client/src/features/stock/utils/stock-past-info.ts:902-925 | quality passes exactly when the latest FY income is positive and below the free cash flow of that year |
| PastChecklist.MarginsRule | client/src/features/stock/utils/stock-past-info.ts:931-955 | margins pass exactly when the latest margin is positive and above the previous year's |
| PastChecklist.AcceleratingGrowthRule | client/src/features/stock/utils/stock-past-info.ts:1002-1022 | growth passes exactly when the year-over-year revenue growth and the three-year CAGR both exist and the first is larger; there is never a five-year revenue CAGR |
| PastChecklist.HighRoeRule | client/src/features/stock/utils/stock-past-info.ts:1027-1056 | ROE passes exactly when the ROE for the latest FY income exists and exceeds the threshold |
| PastChecklist.RecentEndRule | client/src/features/stock/utils/stock-past-info.ts:856-864 | the reference date is the end of the latest FY income fact, else of the latest FY revenue fact, and none exactly when both are missing |
| PastChecklist.PositiveCountOfFYLike | client/src/features/stock/utils/stock-past-info.ts:979-985 | the re-filter before counting keeps the whole FY-like series, so the count looks at its last three facts by end date |
| Checklist.Score | client/src/features/stock/utils/stock-past-info.ts:1108 | a score never exceeds the number of items |
| Checklist.ScoreCountsPasses | client/src/features/stock/utils/stock-financial-health.ts:685 | the score is the number of passing items |
| Checklist.ScoreExtremes | client/src/features/stock/utils/stock-future-info.ts:263 | the score is full exactly when every item passes and zero exactly when none does |
| StockInfoDto.FormatPct | client/src/features/stock/utils/stock-past-info.ts:635-638 | 'n/a' exactly for a missing figure, else the percent text |
| StockInfoDto.GrowthDisplayCases | client/src/features/stock/dto/stock-info.ts:46-67 | a rate is shown exactly when there is one; without one a turnaround is shown exactly when some adjacent pair goes from a loss or zero to a profit, with the year of the first such pair; else 'n/a' |
| StockInfoDto.FormatPctOrTurnaround | client/src/features/stock/dto/stock-info.ts:46-67 | the early-returning scan yields the display of the first turnaround |
| StockInfoDto.ToFYSeriesFallbackAnnualLike | client/src/features/stock/dto/stock-info.ts:69-80 | only input facts; the FY facts of 10-K, 10-K/A, 20-F and 40-F filings whenever there is one; otherwise exactly the annual-like facts |
| StockInfoDto.FYSeriesAgreesWithGrowth | client/src/features/stock/dto/stock-info.ts:98-100 | the sorted FY series is ordered by end date and holds the same facts as the growth builder's annual series |
| StockInfoDto.NetIncomeItemsAsWritten | client/src/features/stock/dto/stock-info.ts:88-96 | the written `\|\|` yields no facts whenever the us-gaap income has none |
| StockInfoDto.NetIncomeItems | client/src/features/stock/dto/stock-info.ts:86-96 | the intended income: the us-gaap facts when there are any, else the IFRS profit or loss; empty only when both are |
| StockInfoDto.IncomeFY | client/src/features/stock/dto/stock-info.ts:88-100 | as written, the sorted FY income series is empty whenever the us-gaap income has no facts, and is ordered by end date |
| StockInfoDto.IncomeFYCorrected | client/src/features/stock/dto/stock-info.ts:86-100 | with the intended fallback it is the written series when there is us-gaap income, else the sorted FY series of the IFRS profit or loss; ordered by end date |
| StockInfoDto.IfrsOnlyFilerHasNoUsGaapIncome | client/src/features/stock/dto/stock-info.ts:89-91 | the sample IFRS-only filer has no us-gaap income facts |
| StockInfoDto.IfrsOnlyFilerProfit | client/src/features/stock/dto/stock-info.ts:92-96 | the sample IFRS-only filer's profit-or-loss series is its euro profit fact |
| StockInfoDto.NetIncomeFallbackNeverTaken | client/src/features/stock/dto/stock-info.ts:88-98 | for an IFRS-only filer the written code finds no income facts while the intended fallback finds the profit |
| StockInfoDto.CandidateSeriesAll | client/src/features/stock/dto/stock-info.ts:105-122 | the series of each EPS candidate, in order |
| StockInfoDto.PickEpsItems | client/src/features/stock/dto/stock-info.ts:114-127 | the loop with `break` yields the series of the first EPS candidate that has one |
| StockInfoDto.BuildSummaryDTO | client/src/features/stock/dto/stock-info.ts:82-149 | the method computes the summary as written |
| StockInfoDto.SummaryOf | client/src/features/stock/dto/stock-info.ts:82-149 | `CarriesMetrics`: there is a summary exactly when there are style metrics, and it carries their income date, TTM revenue and income and the revenue rate text |
| StockInfoDto.SummaryOfCorrected | client/src/features/stock/dto/stock-info.ts:82-149 | `DiffersAtMostInIncomeText`: with the intended income fallback the summary exists exactly when the written one does and differs from it at most in the income growth text |
| StockInfoDto.IfrsIncomeGrowthText | client/src/features/stock/dto/stock-info.ts:86-146 | without us-gaap income and without an income rate, the written summary shows 'n/a' as income growth whatever the IFRS profit does, the corrected one the display of the FY IFRS profit series |
| StockInfoDto.TurnaroundSummaryTexts | client/src/features/stock/dto/stock-info.ts:86-146 | for metrics without an income rate, no us-gaap income and an FY IFRS series going from a loss to a profit, the written summary shows 'n/a', the corrected one the turnaround year |
| StockInfoDto.IfrsTurnaroundSummaries | client/src/features/stock/dto/stock-info.ts:82-149 | for the sample IFRS-only filer with a loss and then a profit, the written summary shows 'n/a' as income growth, the corrected one the turnaround label of the profit year |
| StockInfoDto.IfrsTurnaroundSeriesShape | client/src/features/stock/utils/stock-past-info.ts:393-431 | the sample filer's revenue and income series each start with an annual-like fact, and no income fact is on form 10-K or 10-K/A |
| StockInfoDto.IfrsTurnaroundRevenueShape | client/src/features/stock/utils/stock-past-info.ts:393-418 | the sample filer's revenue series is non-empty and starts with an annual-like fact |
| StockInfoDto.IfrsTurnaroundIncomeShape | client/src/features/stock/utils/stock-past-info.ts:420-431 | the sample filer's income series is non-empty, starts with an annual-like fact and has no fact on form 10-K or 10-K/A |
| StockInfoDto.IfrsTurnaroundNoNetIncomeLoss | client/src/features/stock/utils/stock-past-info.ts:422-423 | the first income search (`NetIncomeLoss` in USD, us-gaap then IFRS) finds nothing for the sample filer |
| StockInfoDto.IfrsTurnaroundProfitSeries | client/src/features/stock/utils/stock-past-info.ts:425-430 | the second income search finds the sample filer's IFRS `ProfitLoss`: the loss then the profit |
| StockInfoDto.IfrsTurnaroundMetrics | client/src/features/stock/utils/stock-past-info.ts:392-531 | the sample filer has style metrics but no income rate |
| StockInfoDto.IfrsTurnaroundRevenueSeries | client/src/features/stock/utils/stock-past-info.ts:393-418 | the sample filer's revenue series is its IFRS `Revenue`: no us-gaap candidate and no other IFRS candidate has facts |
| StockInfoDto.IfrsTurnaroundRevenuePick | client/src/features/stock/utils/stock-past-info.ts:56-107 | the sample filer's IFRS `Revenue` in euros, already normalized |
| StockInfoDto.IfrsTurnaroundIncomeSeries | client/src/features/stock/utils/stock-past-info.ts:420-431 | the sample filer's income series is its IFRS `ProfitLoss`: no us-gaap concept and no IFRS `NetIncomeLoss` has facts |
| StockInfoDto.IfrsTurnaroundProfitPick | client/src/features/stock/utils/stock-past-info.ts:91-107 | the sample filer's `ProfitLoss` in the units of the income search is the loss then the profit |
| StockInfoDto.IfrsTurnaroundProfitLoss | client/src/features/stock/dto/stock-info.ts:92-96 | the sample filer's IFRS profit or loss in the summary's units is the loss then the profit |
| StockInfoDto.IfrsTurnaroundNoUsGaap | client/src/features/stock/dto/stock-info.ts:89-91 | the sample filer has no us-gaap income facts |
| StockInfoDto.IfrsTurnaroundSeries | client/src/features/stock/dto/stock-info.ts:86-100 | the intended fallback builds the loss then the profit as the sample filer's sorted FY income series |
| StockInfoDto.NormalizedPair | client/src/features/stock/utils/stock-past-info.ts:38-48 | two facts with increasing end dates are already normalized |
| StockInfoDto.FYSeriesOfPair | client/src/features/stock/dto/stock-info.ts:69-100 | two FY facts of the growth forms (10-K, 10-K/A, 20-F, 40-F) with increasing end dates are their own sorted FY series |
| StockInfoDto.SummarizeMetrics | client/src/features/stock/dto/stock-info.ts:98-148 | the texts and the two growth displays computed from the metrics, the written sorted FY income series and the sorted FY EPS series |
| StockInfoDto.SummaryFields | client/src/features/stock/dto/stock-info.ts:138-143 | a summary's date is the end of an income fact, and its margin is 'n/a' exactly when the revenue is zero |
| StockInfoDto.SummaryFromFields | client/src/features/stock/dto/stock-info.ts:138-143 | the summary carries the metrics' date and revenue, and its margin is 'n/a' exactly without a margin |
| StockInfoDto.GrowthTextCases | client/src/features/stock/dto/stock-info.ts:46-67 | the text of a display: the rate; else the label of the first turnaround; else 'n/a' |
| StockInfoDto.SummaryGrowthTexts | client/src/features/stock/dto/stock-info.ts:135-147 | the income and EPS growth texts are the rate when there is one, else the first turnaround of the FY series given (the written or the corrected one), else 'n/a' |
| HealthSeries.PickBalanceSheetSeries | client/src/features/stock/utils/stock-financial-health.ts:31-39 | the series is sorted by end, holds exactly the facts of its tier, and is empty only for an empty input |
| HealthSeries.BalanceSheetTierChoice | client/src/features/stock/utils/stock-financial-health.ts:31-39 | balance-sheet forms when some fact has one; else the annual-like facts when some fact is annual-like; else every fact; each tier keeps all of its facts |
| HealthSeries.EndingBySorted | client/src/features/stock/utils/stock-financial-health.ts:51 | the end-date filter keeps a sorted series sorted |
| HealthSeries.PickFactAsOf | client/src/features/stock/utils/stock-financial-health.ts:46-54 | a fact is picked exactly for a non-empty series |
| HealthSeries.SortedAsOfPick | client/src/features/stock/utils/stock-financial-health.ts:50-52 | in a sorted series the pick has the latest end among facts ending by the date, or the latest end of all when none does |
| HealthSeries.PickFactAsOfLatest | client/src/features/stock/utils/stock-financial-health.ts:46-54 | the "as of" value is that of a kept fact with the latest end by the date, else with the latest end of all |
| HealthSeries.PickValueAsOf | client/src/features/stock/utils/stock-financial-health.ts:46-54 | no value only for an empty series |
| HealthSeries.PickLatestEnd | client/src/features/stock/utils/stock-financial-health.ts:41-44 | a latest end exactly for a non-empty series |
| HealthSeries.LatestEndIsMax | client/src/features/stock/utils/stock-financial-health.ts:41-44 | the latest end is the largest end among the kept facts and belongs to one of them |
| HealthSeries.SameMembers | client/src/features/stock/utils/stock-financial-health.ts:13 | a reordering keeps the same facts |
| HealthSeries.HealthTtmTierOrder | client/src/features/stock/utils/stock-financial-health.ts:67-106 | the four tiers (10-Q quarters, quarter-like durations, FY with a start, annual-like) are tried in order, the quarter tiers needing four facts, and there is no TTM exactly when all fall short |
| HealthSeries.HealthTtmEndIsLatest | client/src/features/stock/utils/stock-financial-health.ts:67-106 | the TTM end is the latest end among the facts of its tier |
| HealthSeries.FmtMoney | client/src/features/stock/utils/stock-financial-health.ts:108-116 | 'n/a' exactly for a missing or non-finite number; otherwise the scaled figure times its divisor is the number, with magnitude in [1, 1000) for every scale but the largest and smallest |
| HealthSeries.FirstSeriesIn | client/src/features/stock/utils/stock-financial-health.ts:124-127 | the first concept with data in the taxonomy, and empty exactly when there is none |
| HealthSeries.PickSeries | client/src/features/stock/utils/stock-financial-health.ts:119-150 | the us-gaap pick when any concept has us-gaap data, else the ifrs-full pick; empty exactly when no concept has data in either |
| HealthSeries.PickSeriesBS | client/src/features/stock/utils/stock-financial-health.ts:119-134 | the two early-return loops yield the cross-taxonomy pick |
| HealthSeries.CashPlusStiAsOf | client/src/features/stock/utils/stock-financial-health.ts:153-175 | the direct cash-plus-investments value when that series has data, else the cash-only value, else nothing, with the matching source |
| HealthSeries.FirstFixed | client/src/features/stock/utils/stock-financial-health.ts:202-205 | the first fixed candidate with a value, none when no candidate has one |
| HealthSeries.FirstCombo | client/src/features/stock/utils/stock-financial-health.ts:240-246 | the first combination with both values, none when no combination has them |
| HealthSeries.CandidateOf | client/src/features/stock/utils/stock-financial-health.ts:266-280 | a concept is kept exactly when its name looks like debt, it has a value, and the magnitude is positive and within twice the cap |
| HealthSeries.CandidatesInExact | client/src/features/stock/utils/stock-financial-health.ts:266-281 | the scan of one taxonomy keeps exactly the accepted concepts |
| HealthSeries.DebtCandidatesSplit | client/src/features/stock/utils/stock-financial-health.ts:262-282 | the scan is the us-gaap scan followed by the ifrs-full one |
| HealthSeries.DebtCandidatesExact | client/src/features/stock/utils/stock-financial-health.ts:262-282 | the discovered candidates are exactly the accepted concepts of the two taxonomies |
| HealthSeries.CandidatesInPrefix | client/src/features/stock/utils/stock-financial-health.ts:266-281 | one more concept appends its candidate when it is accepted |
| HealthSeries.ScanTaxonomy | client/src/features/stock/utils/stock-financial-health.ts:266-281 | the loop pushes exactly the accepted concepts |
| HealthSeries.CollectDebtCandidates | client/src/features/stock/utils/stock-financial-health.ts:262-282 | the two-level loop yields the discovered candidates |
| HealthSeries.LargestIndex | client/src/features/stock/utils/stock-financial-health.ts:287-288 | the candidate the stable ascending sort leaves last: the last of those with the largest value |
| HealthSeries.DebtStages | client/src/features/stock/utils/stock-financial-health.ts:176-290 | a debt is never negative, and there is none exactly when the source is 'n/a' |
| HealthSeries.DebtStagesMeaning | client/src/features/stock/utils/stock-financial-health.ts:187-289 | the first fixed concept with a value, as a magnitude; else the first combination with both parts, as the sum of magnitudes; else the largest discovered candidate; else nothing |
| HealthSeries.PickTotalDebtAsOf | client/src/features/stock/utils/stock-financial-health.ts:176-290 | the method computes the total-debt function with the `tryPick` closure |
| HealthSeries.PickDebtStages | client/src/features/stock/utils/stock-financial-health.ts:187-289 | the early-return loops and the scan yield the three stages |
| HealthChecklist.YahooEquity | client/src/features/stock/utils/stock-financial-health.ts:472-476 | a Yahoo equity exactly when both Yahoo totals exist, and then assets minus liabilities |
| HealthChecklist.FinancialDataCoverage | client/src/features/stock/utils/stock-financial-health.ts:479-487 | an EBIT-like figure over a non-zero interest expense, and nothing otherwise |
| HealthChecklist.PresentNonEmpty | client/src/features/stock/utils/stock-financial-health.ts:503-518 | some figure is found exactly when some row has one |
| HealthChecklist.PresentStep | client/src/features/stock/utils/stock-financial-health.ts:503-518 | one more row adds its figure to the sum and the found flag |
| HealthChecklist.SumIncomeRows | client/src/features/stock/utils/stock-financial-health.ts:498-518 | the loop computes the sums and flags of the rows |
| HealthChecklist.IncomeCoverage | client/src/features/stock/utils/stock-financial-health.ts:489-524 | a coverage exactly when there are rows, both flags hold over the last four and the interest sum is non-zero, and then the EBIT sum over it |
| HealthChecklist.AsOfOf | client/src/features/stock/utils/stock-financial-health.ts:358-363 | an as-of date exactly when one of the five series is non-empty, the current-assets one first |
| HealthChecklist.ValueAt | client/src/features/stock/utils/stock-financial-health.ts:366-372 | a value exactly with an as-of date and a non-empty series |
| HealthChecklist.SecDebt | client/src/features/stock/utils/stock-financial-health.ts:381-384 | a debt is never negative |
| HealthChecklist.CoverageOf | client/src/features/stock/utils/stock-financial-health.ts:409-431 | a coverage exactly with an EBIT TTM and a non-zero net interest or interest expense, dividing by net interest first, sign kept |
| HealthChecklist.DebtToEquity | client/src/features/stock/utils/stock-financial-health.ts:528-529 | a ratio exactly with a debt and a non-zero equity, and then debt over equity |
| HealthChecklist.NetDebtToEquity | client/src/features/stock/utils/stock-financial-health.ts:532-535 | a ratio exactly with a debt, cash and a non-zero equity, and then debt minus cash over equity |
| HealthChecklist.PickAnnualSeriesForTrend | client/src/features/stock/utils/stock-financial-health.ts:539-548 | sorted by end and holding exactly the facts of the trend tier |
| HealthChecklist.LatestQualifyingOfSorted | client/src/features/stock/utils/stock-financial-health.ts:550-567 | on a sorted reordering the pick is the qualifying fact with the latest end, and none when none qualifies |
| HealthChecklist.PastAnnualIsLatestQualifying | client/src/features/stock/utils/stock-financial-health.ts:550-567 | the past annual fact is the latest annual fact at least the given years before the date, none exactly when no fact qualifies |
| HealthChecklist.DebtDown5yNeedsHistory | client/src/features/stock/utils/stock-financial-health.ts:569-606 | the five-year check never passes without an as-of date and an annual liabilities fact five years older |
| HealthChecklist.ApproxNoncurrent | client/src/features/stock/utils/stock-financial-health.ts:612-617 | the non-current liabilities when reported, else total minus current when both exist |
| HealthChecklist.Difference | client/src/features/stock/utils/stock-financial-health.ts:374-375 | a difference exactly when both figures exist |
| HealthChecklist.ReadHealthSeries | client/src/features/stock/utils/stock-financial-health.ts:343-407 | the nine picks of the named concept lists |
| HealthChecklist.ReadSecFigures | client/src/features/stock/utils/stock-financial-health.ts:357-431 | the SEC figures as of the as-of date, with non-current assets consistent with the totals |
| HealthChecklist.ApplyYahoo | client/src/features/stock/utils/stock-financial-health.ts:448-525 | every present Yahoo figure replaces the SEC one, equity is recomputed from Yahoo totals, and the coverage falls back to Yahoo only when the SEC one is missing |
| HealthChecklist.DebtDown5yCheck | client/src/features/stock/utils/stock-financial-health.ts:569-606 | the flag is set exactly when liabilities fell below the five-year-old figure or the liabilities-to-equity ratio fell below 0.9 times the old one |
| HealthChecklist.HealthChecks | client/src/features/stock/utils/stock-financial-health.ts:527-707 | the key facts, the two ratios and the five checks in key order, each passing exactly under its rule, with the score counting the passes |
| HealthChecklist.ComputeFinancialHealthChecklist | client/src/features/stock/utils/stock-financial-health.ts:331-708 | the result obeys the rules over the SEC figures and their Yahoo overrides, with thresholds 0.4 and 2.0 by default |
| Future.TrendRowFor | client/src/features/stock/utils/stock-future-info.ts:34-38 | the first row of the period, none exactly when no row has it |
| Future.TrendRowByPriorityFirst | client/src/features/stock/utils/stock-future-info.ts:63-70 | the row of the first listed period that has one, none only when no period has one |
| Future.GrowthRowOrder | client/src/features/stock/utils/stock-future-info.ts:89 | the `+5y` row, else the `+1y` row, else the `0y` row |
| Future.ForwardEpsAvg | client/src/features/stock/utils/stock-future-info.ts:40-47 | an estimate exactly when the period's row has an average |
| Future.PresentValues | client/src/features/stock/utils/stock-future-info.ts:55-57 | the defined estimates: each comes from the input and none is dropped |
| Future.AllNonPositive | client/src/features/stock/utils/stock-future-info.ts:50-61 | true exactly when some estimate exists and every one is at most zero |
| Future.HasPositive | client/src/features/stock/utils/stock-future-info.ts:72-84 | true exactly when some defined estimate is positive |
| Future.EpsPredicatesExclusive | client/src/features/stock/utils/stock-future-info.ts:50-84 | with an estimate exactly one of the two holds; with none neither does |
| Future.ForwardEarningsGrowth | client/src/features/stock/utils/stock-future-info.ts:86-96 | the priority row's growth, else its estimate growth, none without a row |
| Future.RelativeChange | client/src/features/stock/utils/stock-future-info.ts:109 | the change over the year-ago magnitude, positive exactly when the EPS rose |
| Future.ForwardEpsGrowth | client/src/features/stock/utils/stock-future-info.ts:98-114 | the relative EPS change when both figures exist and the old one is non-zero, else the estimate growth |
| Future.ForwardRevenueGrowth | client/src/features/stock/utils/stock-future-info.ts:119-125 | the revenue growth of the `+1y` row, else of the `0y` row, else none |
| Future.AsFraction | client/src/features/stock/utils/stock-future-info.ts:134 | a growth above 1 is divided by 100, any other is kept |
| Future.FutureRoeYahooStyle | client/src/features/stock/utils/stock-future-info.ts:127-139 | a forward ROE exactly with both inputs, equal to `roe * (1 + g)` |
| Future.NormGrowth | client/src/features/stock/utils/stock-future-info.ts:183-187 | undefined exactly for a missing or non-finite value, else the value as a fraction |
| Future.GrowthForPass | client/src/features/stock/utils/stock-future-info.ts:193-194 | the larger of the two when both exist, else whichever does, none when neither |
| Future.UsedGrowthOf | client/src/features/stock/utils/stock-future-info.ts:166-171 | the earnings growth when defined, else the EPS growth, with its source |
| Future.UsedValue | client/src/features/stock/utils/stock-future-info.ts:173 | the used growth's value, exactly when there is one |
| Future.FutureAsOf | client/src/features/stock/utils/stock-future-info.ts:150-157 | the first trend row's date when it has one, else the date part of a non-empty most recent quarter, else none |
| Future.ComputeFutureChecklistStyle | client/src/features/stock/utils/stock-future-info.ts:141-274 | four items in key order, the score counting the passes, and the ROE item passing exactly when the forward ROE exceeds the threshold (0.2 by default) |
| Future.GrowthItemsRule | client/src/features/stock/utils/stock-future-info.ts:204-214 | the two earnings items pass exactly when some estimate is positive and the larger normalised growth exceeds their threshold; both fail when every estimate is at most zero |
| Future.RevenueItemRule | client/src/features/stock/utils/stock-future-info.ts:216-217 | the revenue item compares the reported revenue growth, unnormalised, with the threshold |
| Future.RoeItemRule | client/src/features/stock/utils/stock-future-info.ts:181-219 | the ROE item passes exactly when the ROE and a growth exist and `roe * (1 + g)` exceeds the threshold |
| Future.RoePass | client/src/features/stock/utils/stock-future-info.ts:219 | the threshold test on the forward ROE, unfolded |

## Left out

- Network and I/O are not modelled:
  - the `fetch` transport, `handleResponse`, axios and the Yahoo, SEC and Hantu query wrappers;
  - the option-chain fetch of `buildOptionsSnapshot`.

  Fetched payloads, and the outcome of the token endpoint, are parameters.
- Clocks are not modelled. `Date.now()` is a `now` parameter; `HantuToken` reads it once per call where the source reads it twice.
- `Math.pow` is an uninterpreted parameter `pow`. `Number(string)` and the `URLSearchParams` serialisation are parameters of `SearchStock` and `Fetcher`.
- Number-to-text formatting is not modelled where the text is only shown: `toLocaleString`, Python's `round` and f-strings, and `toFixed` in detail strings. Texts built from them are abstract `Text` values, so the detail strings of the checklist items are not modelled. `Math.round` is `Floor(x + 0.5)`.
- `Common.Fixed`: a number written with `toFixed` and read back with `parseFloat` is rounded half away from zero on its exact value. The binary representation that makes `(1.005).toFixed(2)` give `"1.00"` is not modelled.
- `SentimentSummary.FirstMaxCounts`: the dominant label is the one of greatest count only for at most 10000 results. With more, two counts can show the same two-place percentage.
- Floating point is not modelled; the arithmetic is over reals. NaN and Infinity appear only as `JsNumber` where the code tests finiteness.
- `Options.ComputeMaxPain` requires finite strikes; with a non-finite strike the source computes NaN pains.
- `Options.BuildOptionsSnapshot`: requires finite strikes. The source's aggregation already drops non-finite strikes, but its max pain over the unfiltered legs would then compute NaN pains.
- `Options.CountOf`: an infinite open interest counts as 0 here, where the source would carry Infinity into the sums.
- Case mapping is ASCII only; JavaScript and Python case mapping covers all of Unicode.
- Regular expressions are modelled as substring tests or character classes. That is faithful for the literal alternatives the source uses.
- `Object.keys` puts integer-like keys first and sees prototype keys such as `constructor`. Neither is modelled: concept names and labels are plain keys in insertion order.
- `RateLimit`, `HantuToken` and `IdCounter` have no concurrency. Module-level state is one object, and concurrent requests are not modelled.
- React's `cache()` memoisation, `Promise.all`, `console.error` and console output from Python are not modelled; they do not change results.
- `HantuToken`: `expires_in` is an integer, and the response fields the code does not read are dropped.
- `SearchStock`: `getSearchStock` is a fetch wrapper and is not modelled, including its throw on a non-zero `rt_cd`.
- `CompanyFacts`: a CIK given as a number is covered by its decimal text.
- `AnalyzeRoute.AnalyzePostCases`: a body that is not JSON is not modelled; `request.json()` is assumed to yield an object.
- The sentiment scraper and the analysis service are parameters of the route models. The transformer model of the frontend route is a parameter, and its loading is not modelled.
- Facts: the optional `frame` field and any extra fields are dropped, since the core never reads them.
- The market time of the options snapshot is a text, passed through unchanged.
- `StockInfoDto.BuildSummaryDTO`: the optional fields `netIncomeGrowth5y`, `epsGrowth5y`, `futureScore` and `futureItems` are omitted, because the code never sets them.
- Future: the SEC facts argument of `computeFutureChecklistStyle` is not read by the code, so it is not a parameter of `Future.ComputeFutureChecklistStyle`.
- `Future.ComputeFutureChecklistStyle`: the first trend row's end date is taken as its `YYYY-MM-DD` text, because `toISOString` is not modelled.
- `Ownership.FormatPct01` and `Ownership.FormatShares` state the choice of suffix and the scaled value, not the digits of the text.

## Findings

| source | as written | input that shows it | evidently intended | confidence | as-written member | corrected member |
|---|---|---|---|---|---|---|
| client/src/features/stock/dto/stock-info.ts:88-96 | `niItems` is `usGaapPick \|\| ifrsPick`; the us-gaap pick is an array, and an array is truthy even when empty, so the IFRS fallback never fires | an IFRS-only filer with a `ProfitLoss` series in EUR and no us-gaap `NetIncomeLoss` | use the IFRS profit or loss when the us-gaap series is empty | not executed | StockInfoDto.NetIncomeItemsAsWritten, StockInfoDto.NetIncomeFallbackNeverTaken, StockInfoDto.SummaryOf, StockInfoDto.IfrsTurnaroundSummaries | StockInfoDto.NetIncomeItems, StockInfoDto.SummaryOfCorrected, StockInfoDto.TurnaroundSummaryTexts |
| client/src/app/api/analyze/route.ts:182-197 | the reducer that picks the dominant label only ever copies `max.sentiment`, so the dominant label is always the first distribution entry's label (the same reducer is at client/src/app/api/sentiment/route.ts:110-125) | three results labelled `a, b, b` | the label with the largest count, the first such one on a tie | not executed | AnalyzeRoute.AnalyzePost, AnalyzeRoute.OverallAsWritten, AnalyzeRoute.AsWrittenMisreports | AnalyzeRoute.AnalyzePostCorrected, AnalyzeRoute.OverallOf |
| client/src/app/api/sentiment/route.ts:43-59 | no guard for an empty feed: the reduce without a start value throws on the empty result list and the handler answers 500 | a scrape that returns no text | the neutral empty answer of the analysis route | not executed | SentimentRoute.SentimentGetAsWritten, SentimentRoute.EmptyFeedFails | SentimentRoute.SentimentGet, SentimentRoute.SentimentGetGuards |
