# Study Buddy backend: a verified model

Study Buddy is a small FastAPI backend. It takes a syllabus, as text, as a PDF upload or as an image, and asks a language model to turn it into a study outline: a JSON object with a `subject` and a list of `units`. Each unit has a `unit_name` and topic lists `very_important`, `important` and `optional`. The backend can then attach a YouTube playlist to every topic in the first two lists. This project models that logic in Dafny and proves what it promises.

## Modules

- `Wrappers` holds `Option` and `Result`. A `Failure` carries the message of the Python exception raised instead of a value.
- `PyText` models Python's `str.isspace`, `str.strip()`, `str.lstrip()`/`str.rstrip()`, `str.replace(c, "")` and `"\n".join`. `str.strip()` removes exactly the characters `str.isspace()` accepts, and these are listed character by character.
- `Dict` models a Python dict as its insertion-ordered list of entries, with `dict.get` and item assignment. It serves both the decoded JSON objects and the table behind the cache.
- `JsonValue` models a decoded JSON value as Python holds it. It also models truthiness, iteration, `x[0]`, and the `AttributeError`/`TypeError`/`KeyError` messages raised on values of the wrong type.
- `JsonRepair` models `extract_json_safely`. The regular-expression substitution `` ```json|``` `` (case-insensitive) is a left-to-right scan. The greedy search `\{[\s\S]*\}` is "first `{` to last `}`", proved equal to the leftmost-longest match. `json.loads` is an uninterpreted parameter `decode`.
- `Lru` models the bookkeeping of `functools.lru_cache`: a list of entries from least to most recently used, with hits (`Touch`) and misses (`Admit`, which evicts the least recently used entry when full).
- `YouTube` models the guard chain of `search_youtube_playlist`. The HTTP request and `response.json()` are a `fetch` oracle, and the `lru_cache(maxsize=128)` memo is the class `CachedSearch`. `ReplayEntries` and `ReplayRequests` fold the cache's hit and miss steps over a series of queries, so that every caller can state exactly what the cache holds and which requests were sent.
- `Enrichment` models `attach_playlists`. Specification functions fold over the topics, the two levels and the units in loop order, so the first exception raised is the one passed on. The methods run the source's nested loops against a `CachedSearch`. `TopicQueries` through `AttachedQueries` list the searches the loops make, in order, and each method leaves the cache as the replay of those searches.
- `SyllabusAi` models `analyze_syllabus`: the length-3 guard and the checks on the model's reply. Errors are wrapped as the source wraps them, so that the source's own `RuntimeError`s come out behind "Unexpected AI error: ". The completion request is a `chat` oracle.
- `PdfText` models `extract_text_from_pdf`. Pages are a sequence of `Text(s) | NoText | ExtractFails`. The loop has the 20-page cap, NUL removal and stripping, skipped empty chunks, and the early stop once the kept text exceeds 8000 characters. It ends with the join, strip and cut.
- `Pipeline` models `analyze_pipeline` and the PDF route. It covers the length-5 gate, the model call, the repair, the optional enrichment, and the mapping of each failure to a status-500 reply.

## Model

| member | source | states |
|---|---|---|
| PyText.Strip | main.py:90 | The result has no white space at either end, and it is empty exactly when the input is all white space |
| PyText.LeadingSpaces | main.py:90 | Counts the leading `isspace` characters: all of them are white space and the next character is not |
| PyText.TrailingSpaces | main.py:90 | Counts the trailing `isspace` characters: all of them are white space and the character before them is not |
| PyText.StripFramed | main.py:90 | A string with `a` leading and `b` trailing white-space characters around text strips to the part between them |
| PyText.StripChars | pdf_service.py:28 | The stripped string is a contiguous piece of the input, starting after its leading white space |
| PyText.TrimStart | main.py:53 | `lstrip()`: the result is a suffix of the input, every character cut off is white space, and it does not start with white space |
| PyText.TrimEnd | main.py:53 | `rstrip()`: the result is a prefix of the input, every character cut off is white space, and it does not end with white space |
| PyText.StrippedIsFixed | ai_service.py:111 | A string with no white space at either end strips to itself |
| PyText.StripIdempotent | main.py:91 | Stripping twice gives what stripping once gives, so the second `strip()` in the gate changes nothing |
| PyText.StripPadded | youtube_service.py:27 | White space added on either side does not change the stripped result |
| PyText.StripAround | main.py:53 | Prose around a stripped core strips to the prose's `lstrip` + core + `rstrip` |
| PyText.Without | pdf_service.py:28 | `replace(c, "")` leaves no `c`, never lengthens, and is the identity on a string without `c` |
| PyText.WithoutChar | pdf_service.py:28 | A single character is kept exactly when it is not the removed one |
| PyText.WithoutAppend | pdf_service.py:28 | Removing a character from joined text removes it from each part, keeping the order: with `WithoutChar`, every other character is kept, in order |
| PyText.JoinLines | pdf_service.py:40 | `"\n".join`: no chunks give "", the first chunk starts the text, and a newline follows it when a second chunk exists |
| PyText.JoinSnoc | pdf_service.py:40 | Joining one more chunk appends it, after a newline unless it is the only one: the join is the chunks in order with one newline between neighbours |
| Dict.Get | main.py:67 | `dict.get` finds nothing exactly when no entry has the key, and otherwise finds the value stored under it |
| Dict.Put | main.py:81 | `unit[level] = v` makes the key hold `v`, leaves every other key's value, keeps the key order, and adds a key only when it was absent |
| Dict.PutAbsentAppends | main.py:81 | Assigning a key the dict lacks appends it after every existing entry |
| JsonValue.FalsyValues | youtube_service.py:58 | The truth value behind every `if not x` (`Truthy`): exactly `None`, `False`, `0`, `0.0` and the empty string, list and dict are falsy |
| JsonValue.Iterate | main.py:71 | Definition: `for x in v` gives a list's items, a string's characters or a dict's keys, and raises on any other value |
| JsonValue.First | youtube_service.py:54 | `items[0]` succeeds exactly on a non-empty list or string, and on a list gives its first item |
| JsonRepair.RemoveFences | main.py:53 | The substitution never lengthens the text |
| JsonRepair.RemoveFencesLeavesNoFence | main.py:53 | After the substitution no three backticks remain anywhere, so no "```json" fence in any case remains either |
| JsonRepair.NoFenceUnchanged | main.py:53 | Text with no three backticks in a row is left unchanged |
| JsonRepair.RemoveFencesIdempotent | main.py:53 | Applying the substitution twice gives what applying it once gives |
| JsonRepair.RemoveFencesAfterPlain | main.py:53 | A backtick-free prefix passes through the scan unchanged, whatever follows it |
| JsonRepair.FencedRemovesToPadded | main.py:53 | A fenced "```json\n…\n```" reply loses both fences and keeps its body with a newline on each side |
| JsonRepair.SplitAtNewline | main.py:53 | No fence spans a newline, so the substitution treats the text before a newline and the text from it on separately |
| JsonRepair.RemoveFencesKeepsBraces | main.py:53 | The substitution keeps a `{` with a `}` after it exactly when the text has one, and a `}` exactly when the text has one |
| JsonRepair.StripKeepsBraces | main.py:53 | `strip()` keeps a `{` with a `}` after it exactly when the text has one |
| JsonRepair.SliceKeepsBraces | main.py:53 | Cutting only white space off the two ends keeps exactly the `{ … }` pairs |
| JsonRepair.CleanedKeepsBraces | main.py:53-56 | The cleaned reply has a `{` with a `}` after it exactly when the raw reply has one |
| JsonRepair.FirstIndex | main.py:56 | Finds the first occurrence of a character, or nothing exactly when the character is absent |
| JsonRepair.LastIndex | main.py:56 | Finds the last occurrence of a character, or nothing exactly when the character is absent |
| JsonRepair.BraceSpan | main.py:56-58 | The search finds nothing exactly when no `{` has a `}` after it; otherwise the match is the leftmost and longest `{ … }` span |
| JsonRepair.BraceSpanOfEmbedded | main.py:56 | An object with no `{` before it and no `}` after it is exactly the match, whatever braces it holds inside |
| JsonRepair.GreedySpanJoinsObjects | main.py:56 | Two objects with prose between them come out as one span from the first `{` to the last `}` (the greedy match, with no brace balancing) |
| JsonRepair.Cleaned | main.py:53 | The searched text has no fence and no white space at either end |
| JsonRepair.StripKeepsNoFence | main.py:53 | Stripping after the substitution cannot create a fence |
| JsonRepair.ExtractJsonSafely | main.py:44-60 | "Empty AI response" exactly for an empty reply. "No JSON found" exactly when a non-empty reply has no `{` with a `}` after it, which holds of the cleaned reply exactly when it holds of the raw one. A decoded outline is what the decoder made of the greedy span, and an invalid-JSON error means the decoder refused that span |
| JsonRepair.SameCleanedSameRepair | main.py:53-60 | Two non-empty replies that clean to the same text are repaired alike |
| JsonRepair.FencedReplyRepairsLikeBare | main.py:53-60 | Every non-empty reply wrapped in a "```json" fence is repaired exactly like the bare reply, including one that holds backticks of its own |
| JsonRepair.CleanedOfEmbedded | main.py:53 | A backtick-free reply with an object inside cleans to trimmed prose around that object |
| JsonRepair.TrimmedLacks | main.py:53 | Trimming never introduces a character |
| JsonRepair.EmbeddedObjectIsDecoded | main.py:53-60 | An object inside prose with no `{` before it, no `}` after it and no backticks is the exact text given to the decoder |
| Lru.Position | youtube_service.py:13 | Finds where the entry for a key sits, or nothing exactly when no entry holds it |
| Lru.LookupAt | youtube_service.py:13 | With one entry per key, an entry's key looks up that entry's value |
| Lru.SameEntriesSameLookups | youtube_service.py:13 | Two key-distinct entry lists holding the same entries answer every lookup alike |
| Lru.Touch | youtube_service.py:13 | A hit moves its entry to the most recently used end, keeps every other entry in order, and keeps the entries |
| Lru.TouchKeepsMap | youtube_service.py:13 | A hit keeps the keys distinct and changes no cached value |
| Lru.Admit | youtube_service.py:13 | Definition: a miss appends the new entry, dropping the least recently used entry when full, and never exceeds the capacity |
| Lru.LookupAppend | youtube_service.py:13 | Appending an entry changes only the lookup of its own key, and only if that key was absent |
| Lru.AdmitKeepsMap | youtube_service.py:13 | After a miss, the new key holds its value, the keys stay distinct, on overflow exactly the least recently used key is evicted, and every other value is unchanged |
| YouTube.SentQuery | youtube_service.py:24-32 | Definition: no request when the key is missing or empty or the stripped query is shorter than 5 characters; otherwise the stripped query is sent |
| YouTube.RequestsFor | youtube_service.py:24-39 | Definition: a call makes at most one request, and none exactly when a guard returns first |
| YouTube.NestedGet | youtube_service.py:55-56 | Definition: `item.get(outer, {}).get(inner)` raises exactly when the item or its inner value is not a dict |
| YouTube.ReadItems | youtube_service.py:50-64 | A found playlist has a truthy title and a URL starting with the playlist prefix |
| YouTube.ReadResponse | youtube_service.py:38-48 | The `try` block: an exception raised after it needs a 200 reply with a decoded body, and a found playlist needs one too and has a truthy title and a URL with the playlist prefix |
| YouTube.Search | youtube_service.py:14-64 | The uncached `search_youtube_playlist`: a guard that returns first gives `None`, and an exception or a playlist needs a 200 reply with a body to the stripped query |
| YouTube.ReadItemsFindsAnnounced | youtube_service.py:50-64 | The guard chain returns a record exactly when the body's first item has a truthy `id.playlistId` and `snippet.title`. The record is `{title, url: prefix + playlistId}` |
| YouTube.WellShapedNeverRaises | youtube_service.py:50-59 | A body shaped the way the API sends it never raises |
| YouTube.ListBodyRaises | youtube_service.py:50 | A 200 reply whose body is a JSON list raises `AttributeError`, because `data.get` lies outside the `try` |
| YouTube.FailedRequestGivesNone | youtube_service.py:38-48 | A request exception, a non-200 status, or an undecodable body gives `None` |
| YouTube.SearchIgnoresPadding | youtube_service.py:27-32 | White space around the query changes neither the request nor the result |
| YouTube.SearchSuccess | youtube_service.py:30-64 | A found playlist came from a 200 reply to the stripped query, whose body's first item carried it |
| YouTube.TouchMemoizes | youtube_service.py:13 | A hit keeps every cached entry equal to what the uncached call returns |
| YouTube.AdmitMemoizes | youtube_service.py:13 | Caching a returned value keeps every cached entry correct |
| YouTube.CachedSearch.constructor | youtube_service.py:13 | The cache starts empty and valid, with no request sent |
| YouTube.CachedSearch.Call | youtube_service.py:13-64 | The result is always the uncached function's result. A hit sends nothing and moves the entry to the most recently used end. A miss sends the guarded request and caches a returned value, evicting the least recently used entry when 128 are held; a raised exception is not cached. The cache never grows past 128 entries. The new entries and requests are one step of the replay (`CallEntries`, `CallRequests`) |
| YouTube.RepeatQuery | youtube_service.py:13 | The same query twice gives the same result twice; a returned first result costs no second request, and an already cached query costs none |
| YouTube.CallEntries | youtube_service.py:13 | The cache after one call holds at most 128 entries |
| YouTube.CallRequests | youtube_service.py:13-39 | One call sends nothing, or the stripped query on a miss; a cached query sends nothing |
| YouTube.CallHit | youtube_service.py:13 | A hit returns the cached value, moves the entry to the most recently used end, keeps the cache valid and sends nothing |
| YouTube.CallMiss | youtube_service.py:13-64 | A miss sends the guarded request, caches a returned value with LRU eviction, leaves the cache alone on an exception, and keeps it valid |
| YouTube.ReplayEntries | youtube_service.py:13 | The cache after a series of calls holds at most 128 entries |
| YouTube.ReplayRequests | youtube_service.py:13 | A series of calls sends at most one request per call |
| YouTube.ReplaySnoc | youtube_service.py:13 | One more call extends the replay by that call's step |
| YouTube.ReplayAppend | youtube_service.py:13 | Calls made in two batches leave the cache and send the requests that the whole series does |
| YouTube.ReplayRequestsAreQueries | youtube_service.py:27-39 | Every request a series of calls sends is the stripped form of one of its queries |
| YouTube.CallKeepsCached | youtube_service.py:13 | With room left, a call keeps every cached key, keeps the keys distinct, grows the cache by at most one entry, and caches a returned result |
| YouTube.ReplayKeepsCached | youtube_service.py:13 | While nothing is evicted, a series of calls keeps every cached key and the keys distinct |
| YouTube.RepeatSendsNothing | youtube_service.py:13-20 | While nothing is evicted, a query repeating an earlier one that returned is answered from the cache and sends no request |
| Enrichment.TopicQuery | main.py:72-74 | The query ends with " full course playlist" and, for a string topic, is the topic followed by that suffix |
| Enrichment.MapAll | main.py:71-79 | A loop that completes gives one result per element |
| Enrichment.EnrichTopics | main.py:71-79 | A completed topic loop gives one record per topic |
| Enrichment.EnrichLevel | main.py:71-81 | After a level's pass the level holds a list, and no key is lost |
| Enrichment.EnrichUnit | main.py:67-81 | Only a dict unit can be enriched, and it stays a dict |
| Enrichment.Attached | main.py:66-83 | `attach_playlists` succeeds only on a dict, and gives back a dict with as many keys |
| Enrichment.MapAllElements | main.py:71-79 | A completed loop gives one result per element, in order, each what the step gave for it |
| Enrichment.MapAllSucceeds | main.py:71-79 | The loop completes exactly when no step raises |
| Enrichment.MapAllFirstFailure | main.py:71-79 | A loop that raises passes on the exception of the first element whose step raised |
| Enrichment.MapAllFailurePersists | main.py:71-79 | Once a prefix of the loop raises, the whole loop raises the same exception |
| Enrichment.EnrichTopicsElements | main.py:71-79 | The enriched list is built exactly when no search raises. It has the same length and order as the topics, and element i is `{topic: t_i, playlist: lookup(t_i + " full course playlist")}` |
| Enrichment.EnrichTopicsFirstFailure | main.py:71-74 | A failure is the exception of the first topic whose search raised |
| Enrichment.EnrichUnitsElements | main.py:67 | The units come back one for one and in order, each enriched on its own, exactly when every unit can be |
| Enrichment.TopicQueriesInOrder | main.py:71-74 | The topic loop asks the query of topic i as its i-th search: all of them when it completes, and otherwise up to and including the search that raised |
| Enrichment.AttachedSearchesTopics | main.py:66-83 | Every query `attach_playlists` asks is some topic's query, and every request it sends is the stripped form of one of them, at most one per query |
| Enrichment.RepeatedTopicSearchedOnce | main.py:71-74 | While nothing is evicted, a topic whose query repeats an earlier one that returned costs no second request |
| Enrichment.MissingLevelBecomesEmpty | main.py:71-81 | A missing level is added at the end as `[]` |
| Enrichment.LevelListIsReplaced | main.py:71-81 | A level holding a list is replaced, in its key's place, by the records for its topics |
| Enrichment.EnrichLevelKeepsOthers | main.py:81 | Assigning one level leaves every other key's value and the key order |
| Enrichment.EnrichLevelsKeepsOthers | main.py:68-81 | The levels loop leaves every key outside the levels and the key order |
| Enrichment.EnrichUnitKeepsOthers | main.py:67-81 | An enriched unit keeps `unit_name`, `optional` and every other key besides the two levels, in order |
| Enrichment.EnrichLevelsUnrolled | main.py:68 | The levels loop enriches `very_important`, then `important` |
| Enrichment.LastLevel | main.py:68 | The levels loop is the loop over all levels but the last, followed by the last level |
| Enrichment.EnrichUnitLevelsAreLists | main.py:68-81 | Both levels of an enriched unit hold lists |
| Enrichment.AttachedKeepsOutline | main.py:66-83 | The outline keeps `subject` and every key other than `units`, in order. Its units list comes back one for one and in order, each unit enriched |
| Enrichment.NoUnitsUnchanged | main.py:67 | An outline without `units` comes back unchanged |
| Enrichment.ShapedLevelSucceeds | main.py:71-81 | A level that is absent, or a list of topics whose searches return, is enriched without raising |
| Enrichment.ShapedUnitSucceeds | main.py:68-81 | A dict unit whose levels are shaped that way is enriched without raising |
| Enrichment.ShapedOutlineSucceeds | main.py:66-83 | An outline of the shape the prompt asks for, whose searches return, is enriched without raising |
| Enrichment.EnrichTopicsFailurePersists | main.py:71-79 | A search that raises ends the topic loop with its exception |
| Enrichment.EnrichUnitsFailurePersists | main.py:67 | A unit that raises ends the units loop with its exception |
| Enrichment.EnrichUnitsExtend | main.py:67 | One more pass of the units loop appends that unit's enrichment, or raises its exception |
| Enrichment.EnrichLevelsFailurePersists | main.py:68 | A level that raises ends the levels loop with its exception |
| Enrichment.EnrichTopicList | main.py:69-79 | The topic loop, with one cached search per topic, computes the enriched list or the first exception, and the cache's entries and requests afterwards are those of replaying the loop's topic queries, in loop order, through the cache |
| Enrichment.EnrichLevelInPlace | main.py:69-81 | One pass of the levels loop computes the unit with that level replaced, and the cache's entries and requests afterwards are those of replaying the loop's topic queries, in loop order, through the cache |
| Enrichment.EnrichUnitInPlace | main.py:68-81 | The levels loop on one unit computes the enriched unit, or fails on a unit that is not a dict, and the cache's entries and requests afterwards are those of replaying the loop's topic queries, in loop order, through the cache |
| Enrichment.EnrichUnitList | main.py:67-81 | The units loop rewrites each unit in its place and computes the enriched units, and the cache's entries and requests afterwards are those of replaying the loop's topic queries, in loop order, through the cache |
| Enrichment.AttachPlaylists | main.py:66-83 | `attach_playlists(data)` computes the enriched outline and keeps the cache valid, and the cache's entries and requests afterwards are those of replaying the loop's topic queries, in loop order, through the cache |
| SyllabusAi.AnalyzeSyllabus | ai_service.py:37-117 | The too-short error comes exactly when the stripped text is shorter than 3 characters. A returned answer is non-empty and stripped |
| SyllabusAi.Unexpected | ai_service.py:116-117 | An error caught by `except Exception` is raised again behind "Unexpected AI error: " |
| SyllabusAi.GateDominatesGuard | ai_service.py:43-47 | Text that passes a gate of at least 3 stripped characters passes this guard, and stripping it first changes nothing |
| SyllabusAi.AnalysisIgnoresPadding | ai_service.py:43 | White space around the text changes nothing |
| SyllabusAi.FailuresAreClassified | ai_service.py:92-117 | Past the guard, an `OpenAIError` gives "AI request failed: " + its message, and every other failure carries the "Unexpected AI error: " prefix |
| SyllabusAi.ChatClient.Analyze | ai_service.py:37-117 | The result is the function's. The model is asked about the stripped text exactly when the guard passes, and never otherwise |
| SyllabusAi.ChatClient.constructor | ai_service.py:25-31 | The client is built on the given completion function and has sent no prompt |
| PdfText.Cleaned | pdf_service.py:28 | A kept page text has no NUL and no white space at either end |
| PdfText.Keep | pdf_service.py:26-30 | A page adds at most one chunk, and every chunk it adds is non-empty, stripped and NUL-free |
| PdfText.ShareOf | pdf_service.py:26-30 | Definition: a page raises exactly when its text extraction fails; otherwise it adds its kept chunks |
| PdfText.Shares | pdf_service.py:22 | Definition: one share per page, in page order |
| PdfText.PagesRead | pdf_service.py:22-34 | The loop reads at most 20 pages and at least one page when there is one. Stopping before the 20-page limit means the kept text exceeded 8000 characters |
| PdfText.PagesReadStopsAtFirstOverflow | pdf_service.py:33-34 | Before the last page read, the kept text never exceeded 8000 characters, so the stop is right after the first overflowing page |
| PdfText.ReadChunks | pdf_service.py:18-38 | The collected chunks are exactly those kept from the pages read |
| PdfText.Finish | pdf_service.py:40-46 | The joined, stripped and cut text has at most 8000 characters |
| PdfText.JoinShaped | pdf_service.py:40 | Joined non-empty stripped chunks start with the first chunk's first character and end with the last chunk's last |
| PdfText.FinishIsPrefix | pdf_service.py:40-46 | For kept chunks the final strip removes nothing, so the text is the newline-joined chunks in order, cut to its first 8000 characters |
| PdfText.PdfTextOf | pdf_service.py:8-46 | The extracted text has at most 8000 characters and no NUL |
| PdfText.StripLacks | pdf_service.py:40 | Stripping keeps a missing character missing |
| PdfText.JoinLacks | pdf_service.py:40 | Joining with newlines adds no character other than the newline |
| PdfText.FinishLacks | pdf_service.py:40-46 | NUL-free chunks give a NUL-free text |
| PdfText.KeptChunksShaped | pdf_service.py:29-30 | Every kept chunk is non-empty, stripped and NUL-free |
| PdfText.TotalAppend | pdf_service.py:33 | The running total of two chunk lists is the sum of their totals |
| PdfText.SizeIsTotal | pdf_service.py:33 | The running size is `sum(len(chunk))` of the chunks kept so far |
| PdfText.SizeGrows | pdf_service.py:33 | The kept text only grows as pages are read |
| PdfText.KeepPage | pdf_service.py:26-30 | Definition: one page's contribution is its kept chunk, if any |
| PdfText.ReadStep | pdf_service.py:26-34 | Reading a page that does not raise appends its chunks, adds their length to the total and decides whether the loop stops |
| PdfText.ReadChunksRaises | pdf_service.py:36-38 | A reached page that raises makes the whole read fail |
| PdfText.ReadChunksDone | pdf_service.py:22-34 | When no reached page raises, the loop returns what it kept |
| PdfText.ReadPages | pdf_service.py:18-38 | The page loop computes the collected chunks, or fails when a reached page raises |
| PdfText.ExtractTextFromPdf | pdf_service.py:8-46 | `extract_text_from_pdf` returns the document's text, of at most 8000 characters and with no NUL; it never raises |
| PdfText.SamePrefixSameKept | pdf_service.py:22-34 | Documents that agree on their first pages keep the same chunks and sizes from them |
| PdfText.SamePagesRead | pdf_service.py:22-24 | Documents that agree on their first 20 sizes read the same number of pages |
| PdfText.ReadChunksOfPrefix | pdf_service.py:22-24 | Only the first 20 pages matter to the loop |
| PdfText.PagesBeyondLimitIgnored | pdf_service.py:22-24 | Pages after the twentieth never affect the text |
| PdfText.NothingKept | pdf_service.py:27-30 | Pages that contribute nothing keep nothing |
| PdfText.TextlessDocumentGivesEmpty | pdf_service.py:42-43 | A document with no text once cleaned, such as a scan, gives "" |
| PdfText.RaisingShareDiscardsAll | pdf_service.py:36-38 | A page that raises within the limit before the cap is exceeded discards every earlier page's text |
| PdfText.FailingPageDiscardsAll | pdf_service.py:36-38 | The same, for the document: the result is "" |
| PdfText.ReadInFull | pdf_service.py:22-34 | At most 20 non-raising pages within the cap are read in full |
| PdfText.PdfTextOfChunks | pdf_service.py:40-46 | The document's text is the finished text of the collected chunks: their newline-joined text, in page order, cut to 8000 characters |
| PdfText.ShortDocumentReadInFull | pdf_service.py:22-46 | A short, non-raising document within the cap gives every page's chunk, in page order, joined by newlines and cut to 8000 characters (the newlines can take a join of 8000 kept characters past the cut) |
| PdfText.NoPageRaises | pdf_service.py:26 | Pages whose extraction does not fail add chunks rather than raise |
| Pipeline.ErrorReply | main.py:92-95 | Definition: the reply has the given status and `{"error": message}` as body |
| Pipeline.Analysis | main.py:89-116 | The status is 200, 400 or 500. It is 400, with "Syllabus text is too short or empty", exactly when the stripped text is shorter than 5 characters |
| Pipeline.Respond | main.py:91-116 | The same, for text that has already been stripped |
| Pipeline.AnalysisIgnoresPadding | main.py:90 | White space around the submitted text does not change the reply |
| Pipeline.OutlineReplyWithoutPlaylists | main.py:97-104 | Without playlists, the reply is 200 exactly when the model answered and the answer held a decodable object, and the body is that object unchanged |
| Pipeline.UndecodableAnswerReply | main.py:106-110 | A span the decoder refuses gives 500 "AI returned invalid JSON" |
| Pipeline.NoJsonFoundReply | main.py:97-116 | An answer with no `{` followed by a `}` gives 500 "No JSON found in AI response" |
| Pipeline.ModelFailureReply | main.py:112-116 | A failed model call gives 500 with the exception's message, which is never the model's own too-short error |
| Pipeline.EmptyAnswerCheckUnreachable | main.py:49-50 | Inside the pipeline the "Empty AI response" check never fires, because a successful model call returns non-empty text |
| Pipeline.EnrichmentFailureReply | main.py:101-116 | With playlists, the reply is 200 with the enriched outline, or 500 with the exception the enrichment raised |
| Pipeline.PipelineQueries | main.py:89-104 | No topic is searched when playlists are off or the gate refuses the text |
| Pipeline.PipelineSearchesTopics | main.py:97-104 | Every query the pipeline asks is some topic's query, and every request it sends is the stripped form of one of them, at most one per query |
| Pipeline.AnalyzePipeline | main.py:89-116 | Computes the reply. Text that fails the gate reaches neither the model nor the cache. Otherwise the model is asked once, about the stripped text. The cache is used only when playlists are requested, and its entries and requests afterwards are those of replaying the outline's topic queries, in loop order, through the cache |
| Pipeline.AnalyzePdf | main.py:133-139 | The PDF route replies with the pipeline's answer for the extracted text. The model is asked about that text only when it passes the gate, and the cache afterwards is the replay of the topic queries for that text, so an unreadable upload reaches neither the model nor the cache |
| Pipeline.UnreadablePdfRejected | main.py:138-139 | An upload that cannot be parsed, or holds no text, is refused with 400 |

## Left out

- I/O is not modelled. The language-model completion (`chat`), `json.loads` (`decode`), the YouTube request together with `response.json()` (`fetch`), pdfplumber's pages (`PdfFile`) and Python's `str()` of a non-string value (`render`) are parameters or input data. The prompt text, model name, temperature, timeouts and request parameters other than `q` are not modelled.
- The text route `/analyze-text` (main.py:122-127) is `Pipeline.AnalyzePipeline` itself. The image route (main.py:145-151) passes OCR text to the same pipeline, and image_service.py (PIL and Tesseract) is not part of this model.
- The `RuntimeError` that ai_service.py raises at import time when the API key is unset (ai_service.py:12-16) is not modelled, because it stops the process before any request.
- The YouTube API is modelled as a fixed function of the query sent. So the model cannot show a transient failure, a `None` cached from a timeout, a network error or a non-200 reply, being served from the cache on a later call with the same query.
- RepeatedTopicSearchedOnce and YouTube.RepeatSendsNothing: the saved request is proved only while the cache has room for every query in the series, so that nothing is evicted. With evictions, the replay still gives the exact entries and requests.
- Concurrency is not modelled. Requests and the process-wide cache are treated as single-threaded.
- Python's floating point values are `real`, and only their truthiness is used. `RecursionError` and memory limits are not modelled.
- Enrichment.AttachPlaylists: the source rewrites each unit dict in place. The model returns the rewritten outline as a value, so aliasing between units (one dict appearing twice in `units`) is not captured.
- YouTube.ReadItems: its own contract states only that a found record has a truthy title and a URL with the playlist prefix. The exact conditions and the exact record are stated by YouTube.ReadItemsFindsAnnounced.
- SyllabusAi.FailuresAreClassified: for errors other than `OpenAIError` it states the "Unexpected AI error: " prefix and not the full message. The messages themselves are fixed by SyllabusAi.AnalyzeSyllabus.
- FastAPI routing, form parsing, CORS, static file mounting and the browser client script.js are not part of this model.
