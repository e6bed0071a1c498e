# Stock news analyzer: a verified model of its core

`stock_analyzer.py` is a polling tool. Once per turn it does the following:

1. It reads the listing pages of two Chinese finance sites (Sina Finance and Eastmoney) and takes the first five headlines of each.
2. It makes relative links absolute.
3. It fetches each article and extracts its body text, falling back to the headline.
4. It hands the first 512 characters to a sentiment classifier.
5. It tags the text's market impact with a keyword heuristic (neutral, positive, negative, policy-positive).
6. It keeps the analyses that succeeded, saves them when there are any, and sleeps: an hour normally, a minute when nothing was listed, and thirty seconds after an error.

This project models that core in Dafny. Every network and parser result is an input to the model, and the classifier is a function parameter.

Modules, one per file:

- `Wrappers` (`wrappers.dfy`): the `Option` type.
- `Seqs` (`seqs.dfy`): two slicing facts that proofs use.
- `Text` (`text.dfy`): the Python string operations the tool relies on.
  - `p in s` is `Contains`.
  - `s.startswith(p)` is `StartsWith`.
  - `s.strip()` is `Strip`, with Python's whitespace set.
  - `s[:n]` is `Take`.
- `ImpactTagger` (`impact.dfy`): the impact tag. It has a pure function `Tag` built from the three rules in order, and a method `TagLabel` that reassigns the label the way the source does.
- `Listing` (`listing.dfy`): `fetch_finance_news`.
  - The source registry and its site detection.
  - Link normalisation.
  - The items one source contributes (`SourceNews`) and all sources together (`AllNews`).
  - The nested append loops (`AppendCollected`, `AppendSourceNews`, `FetchFinanceNews`), proved to build `AllNews`.
- `Article` (`article.dfy`): `analyze_news`.
  - Body selection by site (`BodyText`).
  - Strip, truncate and fall back to the title (`Content`).
  - The classifier's input (`ClassifierInput`).
  - The analysis record (`AnalyzeNews`).
- `Scheduler` (`scheduler.dfy`): `main`.
  - A turn of the loop is a `Turn`: interrupted, raised before saving, or a full cycle with its listing pages, article fetches and save outcome.
  - `CycleStep` gives what one turn leaves: the results file and the delay.
  - `Replay` gives what a run of turns leaves.
  - `ProcessNews`, `RunTurn` and `Run` are the imperative loops, proved against those functions.

A source that fails part-way keeps the items appended before the failure. The per-source `try` wraps that source's whole block, but `all_news` lives outside it and each item is appended to it in place, so an exception does not undo earlier appends. A listing entry without a link or without an `href` raises, and the entries after it are not read. The model follows the code here, not the simpler rule that a failing source contributes nothing. A source whose page cannot be fetched does contribute nothing (`Listing.UnreachableSourceSkipped`).

## Model

| member | source | states |
|---|---|---|
| Text.ContainsIff | stock_analyzer.py:32 | The substring test holds exactly when the pattern occurs at some index of the text. |
| Text.StripShape | stock_analyzer.py:35 | What `strip()` keeps occurs in the text with only whitespace before and after it. It neither starts nor ends with whitespace. It is empty exactly when the text is all whitespace. |
| Text.StripIdempotent | stock_analyzer.py:35 | Stripping twice is stripping once. |
| Text.Take | stock_analyzer.py:33 | `s[:n]` is the prefix of `s` of length `min(n, len(s))`. |
| ImpactTagger.Label | stock_analyzer.py:80-86 | The tag is spelled as exactly one of 中性, 利好, 利空, 政策利好, and the spelling determines the tag. |
| ImpactTagger.Tag | stock_analyzer.py:80-86 | Decision table of the three rules applied in order. The tag is negative iff a negative keyword occurs. It is policy-positive iff a positive keyword occurs, no negative one does, and a policy keyword does. It is positive iff a positive keyword occurs and neither a negative nor a policy keyword does. It is neutral iff neither a positive nor a negative keyword occurs. |
| ImpactTagger.TagLabel | stock_analyzer.py:80-86 | The step-by-step reassignment of the label, with the policy rule comparing the current label against 利好, ends holding the label of `Tag`. |
| ImpactTagger.PolicyRuleOnlyUpgradesPositive | stock_analyzer.py:85-86 | The policy rule leaves every tag other than positive unchanged. It yields policy-positive only from positive (or policy-positive). |
| ImpactTagger.TagDependsOnlyOnKeywordGroups | stock_analyzer.py:81-86 | Two texts with the same keyword groups present get the same tag. |
| ImpactTagger.NegativePassageDominates | stock_analyzer.py:83-84 | A passage holding a negative keyword makes any text around it negative, whatever else it says. |
| ImpactTagger.ScenarioGoodNews | stock_analyzer.py:81-82 | "公司利好消息，股价上涨" is tagged positive. |
| ImpactTagger.ScenarioPolicySupport | stock_analyzer.py:85-86 | "受政策支持，股价上涨明显" is tagged policy-positive. |
| ImpactTagger.ScenarioBadNews | stock_analyzer.py:83-84 | "市场下跌，利空消息增多" is tagged negative. |
| Listing.RegistrySina | stock_analyzer.py:21-33 | The first registered URL names "sina", so it gets Sina's selectors and prefix. |
| Listing.RegistryEastmoney | stock_analyzer.py:22-42 | The second registered URL names "eastmoney" and not "sina", so it gets Eastmoney's selectors and prefix. |
| Listing.NormalizeLink | stock_analyzer.py:36-47 | An href starting with "http" is kept. Any other href gets the site prefix ("https:" for Sina, "https://finance.eastmoney.com" for Eastmoney). Either way the link starts with "http" and ends with the href. |
| Listing.NormalizeLinkIdempotent | stock_analyzer.py:37-38 | Normalising an already normalised link changes nothing. |
| Listing.CollectInOrder | stock_analyzer.py:34-39 | The k-th item comes from the k-th entry, with its stripped link text and its normalised href. Reading stops early only at a malformed entry. |
| Listing.CollectStops | stock_analyzer.py:34-51 | Nothing after a malformed entry is read, and what was read before it is kept. |
| Listing.SourceNews | stock_analyzer.py:27-51 | A source contributes at most 5 items, no more than its page has entries. An unreachable page or a URL naming no known site contributes nothing. |
| Listing.SourceNewsInOrder | stock_analyzer.py:33-48 | A source's items come from its first five entries in document order. Each carries the source's name and an absolute link. All five are read when none is malformed. |
| Listing.AllNews | stock_analyzer.py:25-53 | All sources together hold at most 5 items per source. |
| Listing.RegistryNews | stock_analyzer.py:20-27 | The listing is Sina's items followed by Eastmoney's. |
| Listing.AllNewsConcat | stock_analyzer.py:27-51 | Sources contribute in registry order: the listing of two runs of sources is theirs end to end. |
| Listing.UnreachableSourceSkipped | stock_analyzer.py:28-51 | A source whose page could not be fetched contributes nothing, and the others' items are unchanged. |
| Listing.AppendCollected | stock_analyzer.py:34-39 | The inner loop appends to the accumulated list exactly what reading the entries yields. |
| Listing.AppendSourceNews | stock_analyzer.py:28-51 | One pass of the per-source `try` appends exactly that source's contribution. |
| Listing.FetchFinanceNews | stock_analyzer.py:17-53 | The nested append loops return the registry's listing, so at most 10 items. |
| Article.BodyText | stock_analyzer.py:63-71 | A link naming "sina" uses the text of `.article` when it matched, and otherwise that of `#artibody` (none when neither matched). Otherwise, a link naming "eastmoney" uses `.newsContent` when it matched, and otherwise `#ContentBody`. A link naming neither yields no body. |
| Article.Content | stock_analyzer.py:63-75 | The content is empty only when the title is empty, and is at most 1000 characters unless it is the title. It is the title when there is no body or the body strips to nothing. Otherwise it is the stripped body's prefix of length `min(1000, len)`. |
| Article.ContentFromBody | stock_analyzer.py:65-71 | Content taken from a body is a run of the body's characters, preceded only by whitespace and starting with a non-whitespace character. |
| Article.ClassifierInput | stock_analyzer.py:77 | The classifier sees the prefix of the content of length `min(512, len(content))`. |
| Article.AnalyzeNews | stock_analyzer.py:55-99 | The result is `None` exactly when the article fetch or the classifier failed. Otherwise the analysis repeats the item's title, source and link, carries the classifier's answer on the classifier input, and has the impact tag of the whole content. |
| Article.UnknownSiteUsesTitle | stock_analyzer.py:63-75 | An item whose link names neither site is analysed on its title alone. |
| Scheduler.SuccessesAreOutcomes | stock_analyzer.py:121-124 | Every kept analysis is one of the outcomes; none is made up. |
| Scheduler.SuccessesEmpty | stock_analyzer.py:121-124 | Nothing is kept exactly when every analysis failed. |
| Scheduler.SuccessesAllKept | stock_analyzer.py:121-124 | When no analysis failed, all are kept in order. |
| Scheduler.SuccessesConcat | stock_analyzer.py:121-124 | Filtering two runs of outcomes is filtering each, end to end, so input order is kept. |
| Scheduler.FailureSkipped | stock_analyzer.py:121-124 | A failed analysis leaves no trace: the others are kept as if it were not there. |
| Scheduler.ProcessNews | stock_analyzer.py:117-124 | The `for` loop builds exactly the successful analyses of the listed items, in order. |
| Scheduler.ResultsComeFromListing | stock_analyzer.py:121-124 | Each kept analysis has the title, source and link of one of the listed items. |
| Scheduler.CycleResults | stock_analyzer.py:117-124 | A cycle keeps at most 10 analyses. |
| Scheduler.CycleStep | stock_analyzer.py:109-144 | A turn ends the loop exactly when it is interrupted. |
| Scheduler.CycleStepShape | stock_analyzer.py:110-144 | Every delay is 60, 3600 or 30. A turn that raised waits 30 and keeps the file. An empty listing waits 60 and keeps the file. A cycle that listed news but kept no analysis keeps the file and waits 3600. A cycle with successes replaces the file with them and waits 3600, or, when the save fails, leaves the file damaged and waits 30. |
| Scheduler.ReplayDelays | stock_analyzer.py:109-144 | Over any run, every delay slept is 60, 3600 or 30. |
| Scheduler.ReplaySleepsEveryTurn | stock_analyzer.py:109-144 | Without an interrupt, the loop sleeps once per turn. |
| Scheduler.ReplayFile | stock_analyzer.py:133-134 | Over any run, the results file ends as it started, damaged, or holding between 1 and 10 analyses: an empty list is never saved. |
| Scheduler.InterruptEndsLoop | stock_analyzer.py:139-141 | Nothing after an interrupted turn runs: the run up to it leaves what the whole run leaves. |
| Scheduler.UnreachableListingEmpty | stock_analyzer.py:27-51 | When no listing page could be fetched, nothing is listed. |
| Scheduler.AllSourcesDownRetriesInAMinute | stock_analyzer.py:111-115 | A turn in which no listing page could be fetched waits 60 seconds and leaves the file alone. |
| Scheduler.RunTurn | stock_analyzer.py:110-137 | The body of the `try`, with its early `continue`, leaves what `CycleStep` says. |
| Scheduler.Run | stock_analyzer.py:107-144 | The `while True` loop, with `break` on an interrupt and the 30-second retry, leaves the file and delays that `Replay` says. |

## Left out

- HTTP requests, their timeouts and HTML parsing are not modelled. A listing page is given as what its list selector matched (`ListingPage`). An article page is given as the text of the first element each body selector matched (`ArticlePage`). A failed request is `Unreachable` or `FetchFailed`.
- The sentiment model and its loading at start-up are not modelled. The classifier is the parameter `classify`, the same function for a whole run; `None` stands for a call that raised.
- The confidence string (`score*100` to one decimal place) and the analysis timestamp are not modelled, because they are floating-point formatting and the clock. `Analysis` keeps the raw score and no time.
- JSON serialisation and the file's exact bytes are not modelled. A successful save is `Written(results)`. A save that raises is `Damaged`, because how much of the file it leaves is not determined by the code.
- Console output is not modelled. A turn that raises before saving (printing, for instance) is the `Crashed` turn.
- A turn that raises after a successful save is not modelled. The print at the end of `save_results` or the summary print can raise there, which would leave the new file written and wait 30 seconds. No `Turn` yields a written file together with the 30-second delay.
- `time.sleep` is recorded as the delay asked for; no time passes in the model.
- Keyboard interrupts are modelled only at turn boundaries. An interrupt that lands before the save ends the loop with nothing of that turn written, which is that turn being `Interrupted`. An interrupt after the save or during the sleep is an `Interrupted` next turn. An interrupt that lands mid-save is not modelled.
- The loop never ends on its own. `Replay` and `Run` follow a finite run of turns, stopping at the first interrupt or when the turns run out.
- Scheduler.Run: requires every turn to be well-formed: one page per registered source and one article fetch per listed item. This is how inputs are laid out in the model, not a demand of the source.
- Strings are sequences of Unicode code points, as Python's `str` is. Text extraction (`get_text`, `.text`) is taken as given.
