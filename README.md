# parser_bot stock checker, modelled in Dafny

parser_bot is a Telegram bot that watches product pages of Zara and Bershka.
A user sends product links or subscribes with `/add URL [sizes]`. The bot
opens each page in a headless browser and writes a short status text with one
line per size. Each line starts with 🟢 (in stock), 🟡 (a few left) or 🔴
(sold out). A monitoring loop re-checks every active subscription. It reads
the set of available sizes back out of the old and new status texts, stores
the new text when that set changed, and messages the user when the new set
has sizes the user wants.

This project models the logic around the browser, one Dafny module per
source file:

- `Text` models the pieces of Python's `str` the bot relies on, stated on
  `seq<char>`. Dafny's `char` is a Unicode scalar value, like a Python code
  point, so `len` and the 3500-character limits agree with Python. It covers
  `isspace`, `strip`, `split`, `splitlines`, `join`, `upper`, `lower`,
  `capitalize`, code-point ordering for `sorted`, `str(int)` and `int(str)`.
- `Urls` models utils/urls.py: URLs in a message, the brand of a URL, and
  the available sizes of a status text.
- `StatusLines`, `ZaraParser` and `BershkaParser` model the status texts
  the two page checkers write. What the browser finds on a page (the product
  heading, the size buttons with their labels and attributes, whether the
  page opened) is an input value.
- `SeleniumParser` models services/selenium_parser.py:
  - the per-brand cap of 50 URLs;
  - the worker count and contiguous chunking;
  - the worker with its failure fallback;
  - the routing of results into per-brand buckets;
  - the URL-to-status maps;
  - the 3500-character message blocks.

  Checking one supported URL is an input `probe` that gives the status text,
  or None when the check raises. Whether a worker's browser starts is an
  input `starts`.
- `Bot` models the monitoring core of bot.py:
  - the notification text;
  - the wanted-size filter;
  - the per-subscription decision;
  - the grouping of subscriptions by chat;
  - one monitoring pass.

  A pass is modelled as the sequence of store write-backs and sent messages
  it produces.
- `Subscriptions` models handlers/subscriptions.py: the arguments of `/add`
  and `/del`, and the `/my_links` listing cut into messages.

Where the source builds a list or a set in a loop, the model has a method
with that loop. The method is proved equal to a specification function, and
the properties the source promises are lemmas about that function. The two
`add_line` closures become classes, `SeleniumParser.BlockWriter` and
`Subscriptions.ListingWriter`. Their fields are the closures' shared
`current` and `blocks`/`chunks` variables.

The model follows the code in several places where the code's own comments
and docstrings suggest otherwise:

- **Store write-back.** The monitor writes the new status back only when
  the set of available sizes changed, not whenever the text changed
  (bot.py:135-139).
- **Bershka title.** The notification title takes the second line of the
  status text as the product name (bot.py:36-39). A Bershka status text has
  its general-status line there. So a Bershka title shows "📦 Статус: …"
  and not the product name (`Bot.BershkaTitleIsStatus`).
- **Zara title.** When a Zara page has no product name, the second line is
  the link line, and its escaped markup ends up in the title
  (`Bot.ZaraTitleWithoutName`).
- **Docstring example.** The example line in the docstring at
  utils/urls.py:46, `• 🟢 В наявності: <b>M</b>`, yields the size `В`, not
  `M`. The first word after the marker is taken.

## Model

| member | source | states |
|---|---|---|
| Text.Upper | utils/urls.py:75 | `str.upper` keeps the length and maps every character to its upper-case form |
| Text.UpperIdempotent | bot.py:148 | upper-casing sizes that `/add` already upper-cased changes nothing |
| Text.Lower | utils/urls.py:29 | `str.lower` keeps the length and maps every character to its lower-case form |
| Text.Capitalize | bot.py:45 | `capitalize` upper-cases the first character and lower-cases the rest |
| Text.Strip | utils/urls.py:53 | a stripped text is no longer than the input and neither starts nor ends with whitespace |
| Text.JoinContains | bot.py:61 | every part occurs in the parts joined by a separator |
| Text.SplitOn | bot.py:149 | `split(",")` gives at least one piece, no piece holds a comma, and the pieces joined with commas are the input |
| Text.SplitOnJoin | handlers/subscriptions.py:123 | splitting a comma join of comma-free pieces gives back exactly those pieces |
| Text.SplitWords | handlers/subscriptions.py:101 | `split()` gives non-empty words without whitespace |
| Text.SplitWordsJoin | handlers/subscriptions.py:101 | `split()` of non-empty space-free words joined with single spaces gives back exactly those words |
| Text.SplitFirstWord | handlers/subscriptions.py:61 | `split(maxsplit=1)` gives at most two parts: a word, then a remainder that starts with a non-space |
| Text.SplitLines | utils/urls.py:52 | no line of `splitlines()` holds a line break |
| Text.SplitLinesJoin | services/zara_parser.py:164 | `"\n".join(lines).splitlines()` gives back the lines when none holds a break and the last is not empty |
| Text.SortedSet | bot.py:56-59 | `sorted(set)` holds exactly the set's members, each once, in strictly increasing code-point order |
| Text.ParseIntToString | handlers/subscriptions.py:70 | `int(str(n)) == n` for every integer |
| Text.ParseIntInnerSpace | handlers/subscriptions.py:70 | `int()` rejects a stripped text with whitespace inside it |
| Urls.UrlMatchLength | utils/urls.py:7 | a match of `https?://[^\s]+` starts with the scheme, holds no whitespace, and ends at whitespace or the end of the text |
| Urls.FindUrls | utils/urls.py:15 | every regex match starts with `http://` or `https://` and holds no whitespace |
| Urls.StripEdgesKeepsScheme | utils/urls.py:18-19 | stripping `()[],.<>"'` from a match keeps its scheme, so the result is never empty and does not end in an edge character |
| Urls.ExtractUrls | utils/urls.py:10-21 | empty text gives no URLs; otherwise there is one URL per match, in order, each the stripped match, starting with the scheme, free of whitespace and not ending in an edge character |
| Urls.SchemeEnd | utils/urls.py:29 | the scheme `urlparse` splits off ends at a colon inside the URL |
| Urls.NetlocLength | utils/urls.py:29 | the netloc runs up to the first `/`, `?` or `#` |
| Urls.NetlocOfWebUrl | utils/urls.py:29 | the netloc of `http(s)://host/path` is `host` |
| Urls.BrandOfNetloc | utils/urls.py:33-37 | Zara iff the lower-cased netloc contains "zara.com"; Bershka iff it contains "bershka.com" and not "zara.com"; no brand iff it contains neither |
| Urls.RemoveTags | utils/urls.py:69 | removing tags never lengthens a line and leaves a line without `<` unchanged |
| Urls.TagsOnlyNoSize | utils/urls.py:69-72 | a tail made only of whitespace and complete tags yields no size |
| Urls.EmptyMarkedLine | utils/urls.py:53-72 | a 🟢 line whose text after the marker is only tags and whitespace contributes nothing |
| Urls.EmptyBoldLine | utils/urls.py:63-72 | the line `🟢 <b></b>` contributes nothing |
| Urls.SizeToken | utils/urls.py:69-76 | a size read from a line is non-empty, whitespace-free and has no lower-case letter |
| Urls.LineSize | utils/urls.py:53-76 | what one status line contributes is a size token or nothing |
| Urls.GatherMembership | utils/urls.py:50-78 | a size is in the gathered set iff some line yields it |
| Urls.SizesOfLinesStep | utils/urls.py:76 | one more line adds exactly its own size, if any, to the set |
| Urls.SizesOfLinesMembership | utils/urls.py:52-76 | a size is in the set of a list of lines iff one of the lines yields it |
| Urls.ExtractAvailableSizes | utils/urls.py:40-78 | the loop over the lines computes the availability set of the text |
| Urls.AvailableSizesAreTokens | utils/urls.py:71-76 | every available size is non-empty, whitespace-free and upper-case |
| Urls.UnmarkedLineIgnored | utils/urls.py:55-57 | a line with neither 🟢 nor 🟡 contributes nothing |
| Urls.UnmarkedTextHasNoSizes | utils/urls.py:55-57 | a text with neither marker has no available sizes |
| Urls.TailAfterMarker | utils/urls.py:60-66 | stripping the bullet does not change what follows the marker |
| Urls.GreenLineSize | utils/urls.py:63-64 | a line holding 🟢 is read from the text after its first 🟢, even when it also holds 🟡 |
| Urls.YellowLineSize | utils/urls.py:65-66 | a line holding 🟡 but not 🟢 is read from the text after its first 🟡 |
| Urls.SizesIgnoreLineOrder | utils/urls.py:50-78 | two texts with the same set of lines have the same availability set, whatever the order or repetition of lines |
| Urls.AvailableSizesMembership | utils/urls.py:50-78 | a size is available iff some line of the text yields it |
| Urls.MarkedLine | services/zara_parser.py:158 | a size line is the mark, a space, then the label |
| Urls.MarkedLineSize | utils/urls.py:40-78 | reading a checker's `"{mark} {label}"` line back gives the label's size for 🟢 and 🟡 and nothing for 🔴 |
| Urls.WrittenTextSizes | utils/urls.py:52 | for lines joined with newlines, a size is available iff one of those lines yields it |
| Urls.UnmarkedHead | utils/urls.py:55-57 | header lines without markers add nothing to the sizes of the lines after them |
| Urls.StatusTextSizes | utils/urls.py:50-78 | the sizes of a status text are the sizes of its size lines alone |
| ZaraParser.Mark | services/zara_parser.py:148-155 | 🟢 exactly for the lower-cased action "size-in-stock", 🟡 exactly for "size-low-on-stock", 🔴 otherwise, including a missing action |
| ZaraParser.CheckZara | services/zara_parser.py:63-164 | the step-by-step assembly with its early returns writes the lines of the status text joined by newlines |
| ZaraParser.AppendSizeLines | services/zara_parser.py:138-158 | the loop appends one line per button whose label was found, in button order, skipping the others |
| ZaraParser.SizeLineReadBack | services/zara_parser.py:158 | a button's line reads back as the size the button offers, nothing when it is sold out |
| ZaraParser.SizeLinesReadBack | services/zara_parser.py:138-158 | the sizes read from the size lines are exactly the sizes the buttons offer |
| ZaraParser.SizeLinesAreLines | services/zara_parser.py:158 | every size line is non-empty and holds no line break |
| ZaraParser.HeadLinesSafe | services/zara_parser.py:110-128 | the header, name, link and heading lines hold no marker and no line break |
| ZaraParser.ZaraRoundTrip | services/zara_parser.py:57-59 | when the sizes were listed, reading the status text back gives exactly the labels marked 🟢 or 🟡, as size tokens |
| ZaraParser.ZaraFailureNoSizes | services/zara_parser.py:63-115 | a page that failed to open, lacks the add button or lacks the size list reads back as no sizes |
| ZaraParser.ZaraTextLines | services/zara_parser.py:110-128 | the text splits back into its lines; the second line is the product name when there is one, otherwise the link line |
| BershkaParser.ParsedSizes | services/bershka_parser.py:44-78 | no size container gives no entries; otherwise one entry per button, in order, with the stripped label or "(без назви)", available iff no sold-out signal is present |
| BershkaParser.ParseSizes | services/bershka_parser.py:13-80 | the loop over the buttons builds those entries |
| BershkaParser.ReadButton | services/bershka_parser.py:56-78 | one button's entry: its label and the negation of the four sold-out signals |
| BershkaParser.AnyAvailable | services/bershka_parser.py:126 | true iff some entry is available |
| BershkaParser.GeneralStatus | services/bershka_parser.py:125-132 | "Є в наявності" iff some size is available; "Немає в наявності" iff there are sizes and none is available; "Не вдалося визначити" iff there are no sizes |
| BershkaParser.StatusOf | services/bershka_parser.py:125-132 | the branching computes the general status |
| BershkaParser.CheckBershkaOne | services/bershka_parser.py:96-157 | the step-by-step assembly writes the lines of the status text joined by newlines, or the open-error text |
| BershkaParser.AppendSizeLines | services/bershka_parser.py:145-150 | the loop appends one size line per entry, in order |
| BershkaParser.SizeLineReadBack | services/bershka_parser.py:148-150 | an entry's line reads back as its size when available, nothing otherwise |
| BershkaParser.SizeLinesReadBack | services/bershka_parser.py:145-150 | the sizes read from the size lines are exactly the available entries' sizes |
| BershkaParser.HeadLinesSafe | services/bershka_parser.py:138-143 | the link, status and blank lines hold no marker and no line break |
| BershkaParser.BershkaRoundTrip | services/bershka_parser.py:88-92 | reading the status text back gives exactly the available labels as size tokens, and nothing when the page failed to open |
| BershkaParser.BershkaTextLines | services/bershka_parser.py:135-153 | the text splits back into its lines; a failed page is the single error line; otherwise the second line is the general status |
| BershkaParser.OfferedOnlyInStock | services/bershka_parser.py:124-150 | a text with available sizes comes from an opened page whose general status is "Є в наявності" |
| SeleniumParser.OfBrand | services/selenium_parser.py:126-135 | the URLs of one brand form a subsequence of the input, each of that brand |
| SeleniumParser.OfBrandKeeps | services/selenium_parser.py:126-135 | every input URL of the brand is among them |
| SeleniumParser.Take | services/selenium_parser.py:129-133 | the kept URLs are the first `min(n, len)` of the list |
| SeleniumParser.CapPerBrand | services/selenium_parser.py:121-138 | the loop builds the capped Zara, capped Bershka and uncapped other lists that `CapSpec` defines |
| SeleniumParser.CapOne | services/selenium_parser.py:126-135 | one URL goes to its brand's list while that list has fewer than 50, and always to the other list when it has no brand |
| SeleniumParser.CapSpecStep | services/selenium_parser.py:126-135 | capping a list with one more URL is capping the list, then that URL |
| SeleniumParser.CapBounds | services/selenium_parser.py:126-138 | at most 50 URLs per brand, the first ones in input order; a brand with at most 50 keeps all its URLs; every other URL is kept |
| SeleniumParser.CeilDiv | services/selenium_parser.py:148 | `ceil(n / d)` is the least `q` with `q * d >= n` |
| SeleniumParser.PlanOk | services/selenium_parser.py:145-148 | with URLs to check, `min(max_workers, n)` workers and chunks of size at least one that together cover every URL |
| SeleniumParser.PlanNothingRaises | services/selenium_parser.py:145-151 | with nothing to check, the chunk size is 0 and the chunking raises |
| SeleniumParser.ChunksConcat | services/selenium_parser.py:149-151 | the chunks, concatenated in order, are the list |
| SeleniumParser.ChunksBounds | services/selenium_parser.py:149-151 | every chunk is non-empty and at most the chunk size, and there are at most as many chunks as workers |
| SeleniumParser.Processed | services/selenium_parser.py:81-90 | the recorded results are the chunk's longest prefix whose checks return, each with its status; the next URL's check raised |
| SeleniumParser.CheckInOrder | services/selenium_parser.py:81-90 | the loop records exactly that prefix and reports failure iff it stopped early |
| SeleniumParser.ProcessedUnique | services/selenium_parser.py:81-90 | any list with those properties is that prefix |
| SeleniumParser.CheckOne | services/selenium_parser.py:82-88 | a supported URL gets its checker's status; any other URL gets the unsupported status |
| SeleniumParser.WorkerChunk | services/selenium_parser.py:69-102 | the worker as written: an empty chunk gives nothing; a fatal error before any result gives the worker error for every URL; after some results, only those |
| SeleniumParser.WorkerCovers | services/selenium_parser.py:92-97 | the corrected worker answers every URL of its chunk in order, with the check's status or the worker error |
| SeleniumParser.WorkerAgrees | services/selenium_parser.py:92-97 | the corrected worker differs from the written one only after partial progress |
| SeleniumParser.WorkerDropsTail | services/selenium_parser.py:95-97 | after partial progress the written worker returns fewer results than URLs, and the first missing URL is the one whose check raised |
| SeleniumParser.RouteKeeps | services/selenium_parser.py:174-183 | routing keeps every result, and a result lands in the Zara or Bershka bucket only when its URL is of that brand |
| SeleniumParser.RouteAppend | services/selenium_parser.py:174-183 | routing two result lists one after the other is routing their concatenation |
| SeleniumParser.RouteResults | services/selenium_parser.py:169-183 | the loop over completed chunks routes all their results in completion order |
| SeleniumParser.RouteChunk | services/selenium_parser.py:176-183 | the loop over one chunk's results routes each by its URL's brand |
| SeleniumParser.AllUnsupportedRaises | services/selenium_parser.py:140-151 | as written, a non-empty list with only unsupported URLs raises instead of returning |
| SeleniumParser.ChunkResultsCover | services/selenium_parser.py:169-175 | with the corrected worker, a URL has a result iff it is in some chunk |
| SeleniumParser.CheckManyCovers | services/selenium_parser.py:105-185 | the corrected check returns, and a URL has a result iff it survived the per-brand cap |
| SeleniumParser.MapOfKeys | services/selenium_parser.py:276-281 | a URL is a key of the flattened map iff some result is for it, and its value is that URL's last result |
| SeleniumParser.SamePairsSameMap | services/selenium_parser.py:276-281 | results with one status per URL give the same map whatever their order |
| SeleniumParser.CompletionOrderIrrelevant | services/selenium_parser.py:174-183 | any completion order of the chunks gives the same flattened map when every URL has one status |
| SeleniumParser.FlattenBuckets | services/selenium_parser.py:247-252 | the loop over the buckets builds the flattened map |
| SeleniumParser.SetStatuses | services/selenium_parser.py:278-281 | the loop sets each result's status in the map, later ones winning |
| SeleniumParser.CheckUrlsForUserParallel | services/selenium_parser.py:262-283 | as written, the parallel variant raises when the parallel check raises, and otherwise returns the flattened map of the buckets, with no fill; its keys are given by `ParallelAsWrittenKeys` and its values by `ParallelValues` |
| SeleniumParser.ParallelAsWrittenKeys | services/selenium_parser.py:262-283 | as written, every key of the parallel map is a URL that survived the per-brand cap |
| SeleniumParser.ParallelKeys | services/selenium_parser.py:262-283 | on the corrected pipeline, the keys of the parallel map are exactly the URLs that survived the per-brand cap |
| SeleniumParser.FillKeys | services/selenium_parser.py:254-257 | filling keeps every status and adds the not-checked status for exactly the listed URLs without one |
| SeleniumParser.CheckUrlsForUser | services/selenium_parser.py:233-259 | as written, the call raises when the parallel check raises; otherwise the fill loop gives the not-checked status to every URL the parallel map lacks; its keys are given by `StatusesAsWrittenKeys` and its values by `StatusesAsWrittenValues` |
| SeleniumParser.StatusesAsWrittenKeys | services/selenium_parser.py:233-259 | as written, when the call returns, its keys are exactly the URLs it was given |
| SeleniumParser.AllUnsupportedStatusesRaise | services/selenium_parser.py:140-151 | as written, both maps raise for a non-empty list with no Zara or Bershka URL |
| SeleniumParser.DroppedTailHasNoStatus | services/selenium_parser.py:95-97 | as written, one worker on the Zara chunk `[a, b]` whose check of `b` raises leaves `b` out of the parallel map; the corrected map gives it the worker error |
| SeleniumParser.DroppedTailNotChecked | services/selenium_parser.py:233-259 | as written, a URL dropped that way is reported as not checked by `check_urls_for_user` |
| SeleniumParser.KeptBrands | services/selenium_parser.py:126-135 | the capped brand lists hold only Zara or Bershka URLs, and the other list only URLs of no brand |
| SeleniumParser.ProcessedReported | services/selenium_parser.py:81-90 | every status the worker's loop records is the check's status for a Zara or Bershka URL and the unsupported text for any other |
| SeleniumParser.FallbackReported | services/selenium_parser.py:95-97 | the worker-error entries carry the worker error for Zara or Bershka URLs only |
| SeleniumParser.WorkerReported | services/selenium_parser.py:69-102 | both workers, given Zara and Bershka URLs, report for each URL what its check returned or the worker error |
| SeleniumParser.ChunkResultsReported | services/selenium_parser.py:169-175 | the same holds for every result of every chunk |
| SeleniumParser.BucketsReported | services/selenium_parser.py:164-183 | in the buckets of either check, a URL of no brand has the unsupported status and a Zara or Bershka URL its check's status or the worker error |
| SeleniumParser.MapOfReported | services/selenium_parser.py:276-281 | flattening keeps that: every map entry is one of the pairs |
| SeleniumParser.ParallelValues | services/selenium_parser.py:262-283 | in the parallel map, as written and corrected, a URL of no brand maps to the unsupported status and a Zara or Bershka URL to what its check returned or to the worker error |
| SeleniumParser.UnsupportedListed | services/selenium_parser.py:164-166 | whenever the check returns, every input URL of no brand has an entry |
| SeleniumParser.StatusesAsWrittenValues | services/selenium_parser.py:233-259 | as written, `check_urls_for_user` maps a URL of no brand to the unsupported status, and a Zara or Bershka URL to its check's status, the worker error or the not-checked status |
| SeleniumParser.StatusesValues | services/selenium_parser.py:233-259 | on the corrected pipeline, a URL of no brand maps to the unsupported status, a kept Zara or Bershka URL to its check's status or the worker error, and one the cap dropped to the not-checked status |
| SeleniumParser.CheckManyOk | services/selenium_parser.py:140-151 | with at least one worker the corrected check never raises |
| SeleniumParser.StatusesCover | services/selenium_parser.py:247-259 | on the corrected pipeline, every input URL, and nothing else, is a key; one dropped by the cap gets the not-checked status |
| SeleniumParser.BlockWriter.constructor | services/selenium_parser.py:197-198 | the formatter starts with no blocks and an empty current block |
| SeleniumParser.BlockWriter.AddLine | services/selenium_parser.py:200-206 | `add_line` updates the blocks and the current block as the splitting rule says |
| SeleniumParser.AddBrand | services/selenium_parser.py:213-225 | a brand's title, statuses and spacer lines are added in order |
| SeleniumParser.FormatResults | services/selenium_parser.py:188-230 | the method returns the blocks the splitting rule gives for the brand lines |
| SeleniumParser.AfterLineWellFormed | services/selenium_parser.py:200-206 | adding a line keeps every closed block non-blank and within 3500 characters, unless the block is one over-long line |
| SeleniumParser.AfterLinesWellFormed | services/selenium_parser.py:200-206 | the same holds after any number of lines |
| SeleniumParser.BlocksWellFormed | services/selenium_parser.py:200-230 | every block returned is non-blank and at most 3500 characters, unless it is one over-long line |
| SeleniumParser.AfterLineVisible | services/selenium_parser.py:200-206 | adding a line loses no visible character: the visible text written so far grows by exactly the line's |
| SeleniumParser.AfterLinesVisible | services/selenium_parser.py:200-206 | the same holds for any number of lines |
| SeleniumParser.FinishVisible | services/selenium_parser.py:227-228 | dropping a blank last block loses no visible character |
| SeleniumParser.BlocksKeepText | services/selenium_parser.py:188-230 | the blocks together show every visible character of every line in order |
| SeleniumParser.ItemLinesList | services/selenium_parser.py:220-223 | every status of a brand is one of its lines |
| SeleniumParser.ResultLinesSplit | services/selenium_parser.py:208-225 | the lines are Zara's, then Bershka's, then the others', and a brand without results adds none |
| SeleniumParser.StatusesListed | services/selenium_parser.py:208-225 | every result's status is among the formatted lines |
| Bot.Escape | bot.py:49 | the escaped product name holds no `<`, `>` or quote |
| Bot.EscapePlain | bot.py:49 | a name without markup characters is left unchanged |
| Bot.WantedSizes | bot.py:146-153 | no filter gives the empty set; every wanted size is non-empty and upper-case |
| Bot.WantedSizesMembership | bot.py:146-151 | a size is wanted iff it is the upper-cased strip of a non-blank comma piece |
| Bot.BrandLabel | bot.py:42-45 | the shop label is never empty |
| Bot.BrandLabelStored | bot.py:42-45 | a stored non-blank brand is shown stripped and capitalised |
| Bot.BrandLabelDetected | bot.py:42-45 | without a stored brand the label is "Zara" or "Bershka" by the URL's brand, else "Товар" |
| Bot.TitleName | bot.py:36-39 | the product name in the title is stripped, holds no line break, and is non-empty only when the status text has a second line that contains it |
| Bot.SizesList | bot.py:61 | no shown size gives the dash; otherwise every shown size occurs in the list |
| Bot.Title | bot.py:36-51 | the title starts with the shop label, and is the label alone iff the status text has no non-blank second line |
| Bot.NotifyText | bot.py:20-69 | the notification opens with the title in bold on its own line and ends with the size list in bold after the sizes label |
| Bot.ShownSizes | bot.py:54-59 | the listed sizes are the available ones, limited to the wanted ones when there is a filter, sorted and each once |
| Bot.ZaraTitleName | bot.py:36-39 | for a Zara text the title's name is the product name |
| Bot.ZaraTitleWithoutName | bot.py:36-39 | for a Zara page without a name the title's name is the link line |
| Bot.BershkaTitleIsStatus | bot.py:36-39 | for an opened Bershka page the title's name is the general-status line |
| Bot.Decide | bot.py:124-174 | a write happens iff there is a non-empty new status whose size set differs from the old one, and writes that status; a message implies a write; a message is sent iff the new set is non-empty and the filter is empty or meets it; the message is the notification text |
| Bot.NotifiedSizesWanted | bot.py:54-61 | a sent notification lists at least one size |
| Bot.GroupRows | bot.py:93-105 | the loop builds the chats in first-appearance order, each chat's items in row order, and each subscription's last status with none read as "" |
| Bot.ChatOrderMembers | bot.py:103-105 | the chats are exactly those of the rows, each once |
| Bot.GroupAbsent | bot.py:103-105 | a chat with no rows has no items |
| Bot.RowInGroup | bot.py:103-105 | every row is an item of its chat's group |
| Bot.GroupsPartition | bot.py:93-105 | the groups together hold exactly as many items as there are rows |
| Bot.HandleItem | bot.py:123-174 | one subscription's step with its early exits emits the decision's write, then its message |
| Bot.Emit | bot.py:139-186 | the write comes first and the send second |
| Bot.NotifyChat | bot.py:123-186 | the loop over a chat's items emits each item's events in order |
| Bot.CheckChat | bot.py:109-186 | a chat's URLs are checked with four workers on the corrected pipeline and its items handled with the resulting map |
| Bot.MissingStatusSkipped | bot.py:124-128 | an item whose URL has no status emits nothing; with the worker error instead, a change away from available sizes is written back without a message |
| Bot.PassEventsStep | bot.py:109-121 | one more chat appends that chat's events |
| Bot.MonitorPass | bot.py:86-186 | one pass groups the rows and handles the chats in first-appearance order, on the corrected pipeline |
| Bot.ChatEventsOrdered | bot.py:139-186 | in a chat's events every message directly follows the write of the same change |
| Bot.PassEventsOrdered | bot.py:109-186 | the same holds for any sequence of chats |
| Bot.MonitorWritesBeforeSending | bot.py:85-189 | in a whole pass every message directly follows its write-back |
| Subscriptions.ParseAdd | handlers/subscriptions.py:101-133 | usage iff fewer than two words; with two words or more, unsupported iff the second word has no brand; a stored subscription's URL is the second word, with that URL's own brand and no status |
| Subscriptions.AddRoundTrip | handlers/subscriptions.py:101-133 | `/add` followed by a supported URL, as space-separated words, stores exactly that URL with its brand |
| Subscriptions.AddedSizes | handlers/subscriptions.py:120-132 | a supported URL is stored, with no sizes when no words follow it and the upper-cased comma join otherwise |
| Subscriptions.AddSizes | handlers/subscriptions.py:120-133 | the stored sizes are absent iff no words follow the URL, and the monitor reads them as the upper-cased words |
| Subscriptions.SizesRoundTrip | handlers/subscriptions.py:122-123 | the monitor's filter parse of the stored string is the set of upper-cased comma-free words |
| Subscriptions.WantedOfWords | bot.py:146-151 | parsing a comma join of upper-case words gives back the set of those words |
| Subscriptions.ParseDel | handlers/subscriptions.py:61-73 | usage iff the stripped text has no argument after the command |
| Subscriptions.SplitCommand | handlers/subscriptions.py:61 | `split(maxsplit=1)` of the command, a space and an argument gives the command and the whole argument |
| Subscriptions.DelArgument | handlers/subscriptions.py:69-73 | the reply for an argument is a delete iff it reads as an integer, otherwise "not a number" |
| Subscriptions.DelRoundTrip | handlers/subscriptions.py:69-70 | `/del` with a number deletes that id |
| Subscriptions.DelTwoNumbers | handlers/subscriptions.py:61-73 | `/del` with two numbers is "not a number" |
| Subscriptions.OrDash | handlers/subscriptions.py:33 | the shown value is never empty, and is "—" exactly for a missing or empty value, or a value that is "—" itself |
| Subscriptions.StateLabel | handlers/subscriptions.py:34 | the state label is "✅ активне" iff the subscription is active |
| Subscriptions.RowBlock | handlers/subscriptions.py:36-44 | a row's block is non-empty and opens with markup |
| Subscriptions.ListingWriter.constructor | handlers/subscriptions.py:21-22 | the listing starts with no messages and the header as the current one |
| Subscriptions.ListingWriter.AddLine | handlers/subscriptions.py:24-30 | `add_line` closes the current message when the block would pass 3500, then appends the block |
| Subscriptions.WriteBlocks | handlers/subscriptions.py:32-45 | the blocks are added one by one in order |
| Subscriptions.MyLinksMessages | handlers/subscriptions.py:16-48 | the method returns the listing's messages, or the no-links reply |
| Subscriptions.StartShaped | handlers/subscriptions.py:22 | the listing starts well-shaped |
| Subscriptions.AfterBlockShaped | handlers/subscriptions.py:24-30 | adding a block keeps the listing well-shaped |
| Subscriptions.AfterBlocksShaped | handlers/subscriptions.py:32-45 | adding any blocks keeps it well-shaped |
| Subscriptions.RowBlocksLeading | handlers/subscriptions.py:36-44 | every row block opens with a visible character |
| Subscriptions.CloseShaped | handlers/subscriptions.py:47-48 | closing a well-shaped listing gives non-empty messages within the limit, the first opening with the header, each closed only because the next block overflowed it |
| Subscriptions.PaginateShape | handlers/subscriptions.py:21-48 | the cut listing starts with the header; every message is non-empty and within 3500 or one over-long block; each is closed only when the next block would not fit |
| Subscriptions.MyLinksShape | handlers/subscriptions.py:16-48 | the same holds for the messages `/my_links` sends for a non-empty list |
| Subscriptions.AfterBlockText | handlers/subscriptions.py:24-30 | adding a block appends exactly the block and a newline to the text written so far |
| Subscriptions.AfterBlocksText | handlers/subscriptions.py:32-45 | the same holds for any number of blocks |
| Subscriptions.PaginateText | handlers/subscriptions.py:21-48 | the messages concatenated are the header followed by every block and its newline |
| Subscriptions.MyLinksText | handlers/subscriptions.py:16-48 | the messages `/my_links` sends are, together, the header and every row's block |

## Left out

- The browser is not modelled: driver creation, `safe_get`, the Selenium waits, clicks and element lookups, and `time.sleep`. What a page shows is an input value. Checking one URL is an input function that may fail. Whether a worker's browser starts is an input.
- The thread pool is not modelled. The order in which chunks complete is an arbitrary permutation (`SeleniumParser.CompletionOrderIrrelevant`). The other lemmas take submission order.
- asyncio is not modelled: the event loop, `run_in_executor`, `MONITOR_INTERVAL` and the endless `while True`, and `bot.send_message`. A monitoring pass is one value, the list of write-backs and messages it causes. A failed send is only logged in the source, so it changes nothing modelled.
- The SQLite store is not modelled: db.py and handlers/subscriptions_repo.py. Rows read are an input. Writes are `Bot.Event` values. `/del_all` and the effect of `/del` on the store are left out for the same reason.
- The reply texts of `/add` and `/del` are not modelled. The model returns which reply is sent (`AddUsage`, `AddUnsupported`, `Added`, `DelUsage`, `NotANumber`, `Delete`), not its wording.
- Logging is not modelled.
- Text.Upper, Text.Lower, Text.Capitalize: the case mapping covers ASCII, Cyrillic U+0400-U+045F and ґ. It does not cover all of Unicode, nor the length-changing mappings such as `ß`.
- Text.ParseInt: covers ASCII signs, digits and single underscores between digits, with surrounding whitespace. Non-ASCII digits are not covered.
- Urls.NetlocLength: `urlparse` is simplified to the scheme split and the `//` authority up to `/`, `?` or `#`. It leaves out C0-control stripping, tab and newline removal, the `[...]` validation that makes `urlparse` raise, and the NFKC check of a non-ASCII netloc that raises when normalisation yields `/`, `?`, `#`, `@` or `:`. So for `https://zara.com／x` (U+FF0F) `detect_brand` returns None, where Urls.DetectBrand gives Zara.
- Urls.RemoveTags: its contract states only that no text is added and that text without `<` is untouched. The round trips use it on text without `<`.
- The round-trip lemmas require that the URL, product name and labels hold no line break and no 🟢 or 🟡. The checkers' docstrings assume this as well. It is stated by `CleanPage`.
- SeleniumParser.CeilDiv: `ceil(len / workers)` is computed exactly on integers, not through a float. The two differ only beyond 2^53 URLs.
- SeleniumParser.ParallelKeys, SeleniumParser.StatusesCover: they state the keys of the corrected maps. As written, the maps raise for a list with only unsupported URLs (SeleniumParser.AllUnsupportedStatusesRaise), and a URL after a partial chunk failure has no entry in the parallel map (SeleniumParser.DroppedTailHasNoStatus) and the not-checked status in the filled map (SeleniumParser.DroppedTailNotChecked). SeleniumParser.CheckUrlsForUserParallel and SeleniumParser.CheckUrlsForUser model the code as written.
- Bot.CheckChat, Bot.MonitorPass: they run on the corrected pipeline. As written, a chat whose URLs are all unsupported makes the check raise, which ends the pass. An item whose URL was dropped after a partial chunk failure has no status and is skipped (Bot.MissingStatusSkipped), where the model writes back the worker-error status.
- The monitor pass aborted by an exception (bot.py:188-189) is not modelled. The model uses the corrected `SeleniumParser.CheckMany`, which does not raise, so no such pass exists in the model. The second finding below is what makes the abort reachable in the source.
- Bot.BrandLabel: its contract states only that the label is never empty. What it equals is stated by `Bot.BrandLabelStored` and `Bot.BrandLabelDetected`.
- Subscriptions.RowBlock: its contract states only the block's first character. The listing lemmas rely on that alone. The rendering of the fields is stated by `Subscriptions.OrDash` and `Subscriptions.StateLabel`.

## Findings

| source | as written | input that shows it | evidently intended | confidence | as-written member | corrected member |
|---|---|---|---|---|---|---|
| services/selenium_parser.py:95-97 | after a fatal error, the worker-error status is written only when no result was recorded yet, so the URLs after a partial result get no entry at all | a chunk `[a, b]` whose check of `a` returns and whose check of `b` raises: the worker returns only `a`'s result | every URL of the chunk gets an entry, with the worker error from the failure on | not executed | SeleniumParser.WorkerDropsTail | SeleniumParser.WorkerCovers |
| services/selenium_parser.py:145-151 | with no Zara or Bershka URL but some other URL, the chunk size is 0 and `range(0, 0, 0)` raises `ValueError` | `["https://example.com/x"]`, which the link handler passes on from a chat message | the unsupported URLs come back with the unsupported status and no worker runs | not executed | SeleniumParser.AllUnsupportedRaises | SeleniumParser.CheckManyCovers |
