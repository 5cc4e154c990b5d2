# News aggregation pipeline: a Dafny model

This project models the ingestion core of a Laravel news-aggregation backend.

- **Registration.** One adapter is registered per news source that has an API key configured: NewsAPI, The Guardian and The New York Times.
- **Fetching.** Each adapter merges its default query parameters with the caller's and requests one endpoint. It then pulls the item list out of the decoded JSON and maps each item to a normalised article record (the DTO).
- **Categories.** Section names are mapped onto seven standard categories.
- **Aggregation.** The aggregation run polls the adapters in order. It drops invalid records and skips urls the store already holds. It saves the rest and counts what happened: fetched, saved, duplicates and errors.
- **Cleanup.** Records published before a cutoff are deleted.

Modules, one per source file:

| module | file |
|---|---|
| `Php` | the PHP semantics the code relies on: arrays, `??`, `empty()`, coercion of scalars to `string`, `str_replace`, `strtolower`, `substr` |
| `CategoryMapping` | `CategoryMappingService` |
| `Articles` | `ArticleDto` |
| `NewsApiArticle` | `NewsApiArticleDto` |
| `GuardianArticle` | `GuardianArticleDto` |
| `NYTimesArticle` | `NYTimesArticleDto` |
| `Adapters` | `BaseNewsService` and the three adapters |
| `ArticleStore` | the `articles` table: a class with a `seq` of records and a unique url index |
| `NewsAggregator` | `NewsAggregatorService` |

The DTO classes, the PHP-array layer and the adapters are pure code, so they are modelled as functions. `NewsAggregatorService` and the store change state, so they are classes with methods.

- **The run and its specification.** `AggregateArticles` is written as the source's two nested loops. It is proved to compute `Run`, a fold over the adapters' outcomes that serves as its specification. The properties of a run are lemmas about `Run`: the accounting, unique urls, idempotence, and when a run aborts.
- **Errors.** Both kinds of PHP error are tracked in a `Fault` value.
  - `Exception` is what `catch (\Exception $e)` catches. Examples are an unparseable date, or an array used in a string concatenation.
  - `TypeError` is an `\Error`, which that catch lets through, so it ends the whole run. Examples are an array where a `string` parameter is declared, or `array_map` over a non-array.

## Model

| member | source | states |
|---|---|---|
| Php.Strip | app/Services/NewsAggregator/CategoryMappingService.php:105 | `str_replace` with an empty replacement leaves none of the removed characters and never lengthens the string; a single character is dropped exactly when it is one of the removed ones and kept otherwise, which with `StripAppend` fixes every result in order |
| Php.StripMembers | app/Services/NewsAggregator/CategoryMappingService.php:105 | exactly the characters of the input that are not removed survive |
| Php.Lower | app/Services/NewsAggregator/CategoryMappingService.php:105 | `strtolower` keeps the length and lower-cases each character in place |
| Php.TextOr | app/DTOs/NewsApiArticleDto.php:12 | `$x ?? 'default'` passed to a `string` parameter: absent gives the default, a string is kept, and only an array fails |
| Php.OptText | app/DTOs/NewsApiArticleDto.php:13 | `$x ?? null` passed to a `?string` parameter: absent gives null, a string is kept, and only an array fails |
| Php.Interpolate | app/DTOs/NYTimesArticleDto.php:21 | concatenation fails, with an Exception, exactly on an array; a string is kept |
| Php.Elements | app/Services/NewsAggregator/Adapters/GuardianAdapter.php:26-29 | the values `array_map` visits: a list's items unchanged, and an object's values in insertion order |
| Php.Prefix | app/DTOs/ArticleDto.php:73 | `substr($s, 0, $n)`: the first n characters, the whole string past the end, and for a negative n the string without its last -n characters |
| CategoryMapping.GetStandardCategories | app/Services/NewsAggregator/CategoryMappingService.php:125-128 | the seven categories business, entertainment, general, health, science, sports and technology, each once; a category is in the list exactly when `isValidCategory` accepts it |
| CategoryMapping.ValidCategoriesExactly | app/Services/NewsAggregator/CategoryMappingService.php:133-136 | a category is valid exactly when it is one of business, entertainment, general, health, science, sports, technology |
| CategoryMapping.TablesClosed | app/Services/NewsAggregator/CategoryMappingService.php:26-94 | every value of both section tables is a valid category |
| CategoryMapping.MapGuardianSection | app/Services/NewsAggregator/CategoryMappingService.php:99-107 | null exactly for an absent or falsy section; otherwise always a valid category: the table's category for a key the table holds, and `general` for a key it lacks |
| CategoryMapping.GuardianEntry | app/Services/NewsAggregator/CategoryMappingService.php:99-107 | a truthy section whose normalised key is in the Guardian table maps to that table entry |
| CategoryMapping.MapNytSection | app/Services/NewsAggregator/CategoryMappingService.php:112-120 | the same for NYT sections: null for an absent or falsy section, the table's category on a hit, `general` on a miss |
| CategoryMapping.NytEntry | app/Services/NewsAggregator/CategoryMappingService.php:112-120 | a truthy section whose normalised key is in the NYT table maps to that table entry |
| CategoryMapping.SameCaseSameFalsiness | app/Services/NewsAggregator/CategoryMappingService.php:101-103 | two strings that differ only in letter case are both falsy or both not |
| CategoryMapping.StripKeepsSameCase | app/Services/NewsAggregator/CategoryMappingService.php:118 | removing separators from two case-equal strings leaves case-equal strings |
| CategoryMapping.GuardianIgnoresCase | app/Services/NewsAggregator/CategoryMappingService.php:105-106 | sections that differ only in letter case get the same Guardian category |
| CategoryMapping.NytIgnoresCaseAndSeparators | app/Services/NewsAggregator/CategoryMappingService.php:118-119 | non-falsy sections that agree up to case once spaces and hyphens are removed get the same NYT category |
| CategoryMapping.NytKeyHasNoSeparators | app/Services/NewsAggregator/CategoryMappingService.php:118 | a computed NYT key never contains a space or a hyphen |
| CategoryMapping.NytDeadEntries | app/Services/NewsAggregator/CategoryMappingService.php:87-89 | no section ever produces the keys `sunday-review`, `t-magazine` or `real estate`, so those three table entries are unreachable |
| CategoryMapping.NytRealEstate | app/Services/NewsAggregator/CategoryMappingService.php:89 | section `Real Estate` maps to `general`, not to the `business` of its entry |
| CategoryMapping.NytSundayReview | app/Services/NewsAggregator/CategoryMappingService.php:87 | section `Sunday-Review` maps to `general` through the default |
| CategoryMapping.NytTMagazine | app/Services/NewsAggregator/CategoryMappingService.php:88 | section `T-Magazine` maps to `general`, not to the `entertainment` of its entry |
| CategoryMapping.GuardianArtAndDesign | app/Services/NewsAggregator/CategoryMappingService.php:36 | Guardian `Art and Design` loses its spaces and maps to `entertainment` |
| CategoryMapping.GuardianTvAndRadio | app/Services/NewsAggregator/CategoryMappingService.php:38 | Guardian keeps hyphens: `TV-and-Radio` maps to `entertainment` |
| CategoryMapping.GuardianUkNews | app/Services/NewsAggregator/CategoryMappingService.php:47 | Guardian `UK-News` maps to `general` |
| CategoryMapping.GuardianFootball | app/Services/NewsAggregator/CategoryMappingService.php:31 | Guardian `football` maps to `sports` |
| CategoryMapping.GuardianSport | app/Services/NewsAggregator/CategoryMappingService.php:30 | Guardian `sport` maps to `sports` |
| CategoryMapping.GuardianTechnology | app/Services/NewsAggregator/CategoryMappingService.php:28 | Guardian `Technology` maps to `technology` |
| CategoryMapping.NytTechnology | app/Services/NewsAggregator/CategoryMappingService.php:66 | NYT `Technology` maps to `technology` |
| Articles.PublishedAt | app/DTOs/NewsApiArticleDto.php:20 | `Carbon::parse($x ?? now())`: an absent date is now; an array date is a TypeError from the typed `$time` parameter; a scalar the parser rejects is an Exception; nothing else fails |
| Articles.ToArray | app/DTOs/ArticleDto.php:42-55 | the row has exactly the nine column keys; `published_at` holds the timestamp and no text column does |
| Articles.FromArray | app/DTOs/ArticleDto.php:24-37 | a record is built exactly when `published_at` does not hold text; column by column, an absent or null `title` gives `No Title`, an absent or null `url` or `source_name` gives the empty string, the five nullable columns give null, and `published_at` gives now; a string is kept as it is, and a date in a text column is coerced to its text, as PHP's coercive mode does for a `string` parameter; a stored date is the record's `published_at` |
| Articles.RoundTrip | app/DTOs/ArticleDto.php:24-55 | `fromArray(toArray(d))` gives back `d` |
| Articles.ToArrayInjective | app/DTOs/ArticleDto.php:42-55 | two records with the same row are the same record |
| Articles.FromArrayDefaults | app/DTOs/ArticleDto.php:24-37 | a row with none of the columns gives title `No Title`, url `''`, source name `''`, nulls elsewhere and the current time |
| Articles.FromArrayKeepsEmptyText | app/DTOs/ArticleDto.php:27-30 | an empty title or url that is present is kept, because `??` only replaces null |
| Articles.IsValid | app/DTOs/ArticleDto.php:60-65 | valid exactly when title and url are non-empty and not `"0"` and the url passes the URL filter; a missing url is never valid |
| Articles.GetSummary | app/DTOs/ArticleDto.php:70-74 | the description, or else the content, or else `''`; text longer than the limit is cut to the limit plus `...` (length + 3), and shorter text is returned whole |
| Articles.DefaultSummary | app/DTOs/ArticleDto.php:70-74 | with the default length 150 the summary has at most 153 characters, is the text itself when it fits and otherwise its first 150 characters plus `...` |
| NewsApiArticle.FromNewsApiResponse | app/DTOs/NewsApiArticleDto.php:10-22 | succeeds exactly for an array item with a parseable date and no array in a string field; an Exception exactly when the date is a scalar the parser rejects, and a TypeError otherwise (an array date included); the record carries source `NewsAPI`, no category and each field from its key or default |
| NewsApiArticle.MissingUrlIsInvalid | app/DTOs/NewsApiArticleDto.php:15 | an item without a url becomes a record with url `''`, which never validates |
| NewsApiArticle.NewsApiCarriesStrings | app/DTOs/NewsApiArticleDto.php:12-15 | string title and url are carried over verbatim |
| GuardianArticle.FromGuardianResponse | app/DTOs/GuardianArticleDto.php:10-25 | the same success and error conditions, with an array section a TypeError first of all and an array date a TypeError; category is the mapped section and always valid; title falls back from headline to webTitle |
| GuardianArticle.TitleFallback | app/DTOs/GuardianArticleDto.php:15 | the title is `fields.headline`, else `webTitle`, else `No Title` |
| GuardianArticle.NoSectionNoCategory | app/DTOs/GuardianArticleDto.php:12 | without a section name the record has no category |
| NYTimesArticle.ImageLink | app/DTOs/NYTimesArticleDto.php:21 | an accepted entry's link is the site root followed by its url, and always lies under the site root; an array url is an Exception |
| NYTimesArticle.FirstImage | app/DTOs/NYTimesArticleDto.php:17-24 | no image exactly when no entry is an accepted image; any link found lies under the site root |
| NYTimesArticle.ImageUrl | app/DTOs/NYTimesArticleDto.php:15-25 | an empty or non-array `multimedia` gives no image; any image lies under the site root; the only failure is an Exception |
| NYTimesArticle.FindImage | app/DTOs/NYTimesArticleDto.php:15-25 | the loop with its `break` computes exactly `ImageUrl` |
| NYTimesArticle.FirstImageIsFirstEntry | app/DTOs/NYTimesArticleDto.php:17-23 | the result is the link of the first accepted entry |
| NYTimesArticle.FirstImageIgnoresRest | app/DTOs/NYTimesArticleDto.php:22 | entries after the first accepted one do not affect the result |
| NYTimesArticle.ImageLinkOfFirstEntry | app/DTOs/NYTimesArticleDto.php:18-22 | a leading image entry with url `u` yields `https://www.nytimes.com/u` |
| NYTimesArticle.FromNYTimesResponse | app/DTOs/NYTimesArticleDto.php:10-38 | succeeds exactly when the section, the image search, the date and the text fields all type-check; an Exception exactly when the image search raises one or the date is a scalar the parser rejects (an array date is a TypeError); the record carries source `New York Times`, the mapped category and the image link |
| NYTimesArticle.SnippetFallback | app/DTOs/NYTimesArticleDto.php:29-30 | without a lead paragraph or an abstract, the snippet becomes both content and description |
| Adapters.SourceName | app/Services/NewsAggregator/Adapters/NewsApiAdapter.php:34-37 | each adapter names its source exactly as its DTO stamps its records |
| Adapters.SourceNamesDistinct | app/Services/NewsAggregator/Adapters/GuardianAdapter.php:38-41 | different sources have different names |
| Adapters.Override | app/Services/NewsAggregator/Adapters/NewsApiAdapter.php:19 | the overridden defaults keep the defaults' keys in their order |
| Adapters.Extra | app/Services/NewsAggregator/Adapters/NewsApiAdapter.php:19 | the appended entries are exactly the caller's entries whose keys the defaults lack |
| Adapters.MergeFind | app/Services/NewsAggregator/Adapters/NewsApiAdapter.php:19 | after `array_merge` a key holds the caller's value if the caller gave one, else the default |
| Adapters.QueryParams | app/Services/NewsAggregator/Adapters/GuardianAdapter.php:14-22 | the query gives the caller's value for every key the caller sets and the default for every other key; the default keys come first, in order, followed by the caller's other entries |
| Adapters.QueryWithoutParams | app/Services/NewsAggregator/Adapters/NYTimesAdapter.php:12-16 | with no caller parameters the query is exactly the defaults |
| Adapters.ItemList | app/Services/NewsAggregator/Adapters/GuardianAdapter.php:26-29 | a missing list is empty; the list fails, with a TypeError, exactly when the path holds a non-array; otherwise it is exactly the array's elements, in order |
| Adapters.FromResponse | app/Services/NewsAggregator/Adapters/NewsApiAdapter.php:22-25 | the normaliser stamps the adapter's source name; a non-array item is a TypeError |
| Adapters.MapAll | app/Services/NewsAggregator/Adapters/NewsApiAdapter.php:22-25 | `array_map` of any normaliser succeeds exactly when every item normalises, giving one record per item in order; otherwise it fails with the first item's fault |
| Adapters.MapRecords | app/Services/NewsAggregator/Adapters/NewsApiAdapter.php:22-25 | `array_map` succeeds exactly when every item normalises, giving one record per item in order; otherwise it fails with the first item's fault |
| Adapters.Fetch | app/Services/NewsAggregator/Adapters/NewsApiAdapter.php:10-26 | every fetched record carries the adapter's source name; a non-array body is a TypeError; otherwise the item list is mapped |
| Adapters.FailedRequestFetchesNothing | app/Services/NewsAggregator/BaseNewsService.php:27-51 | a failed request, whose body is `[]`, yields no records and no fault |
| Adapters.NormalizeArticle | app/Services/NewsAggregator/Adapters/NewsApiAdapter.php:28-32 | succeeds exactly when the normaliser does; reading the row back gives the normalised record |
| ArticleStore.UniqueAppend | database/migrations/2025_09_06_212046_create_articles_table.php:19 | adding a record whose url is new keeps the url index unique |
| ArticleStore.FirstWithUrl | app/Services/NewsAggregator/NewsAggregatorService.php:85 | a record is found exactly when one with that url is stored, and the one found has that url |
| ArticleStore.Retained | app/Services/NewsAggregator/NewsAggregatorService.php:157 | a record survives exactly when it was stored and is not older than the cutoff |
| ArticleStore.RetainedCount | app/Services/NewsAggregator/NewsAggregatorService.php:157 | survivors plus deleted records make up the whole table |
| ArticleStore.RetainedIdempotent | app/Services/NewsAggregator/NewsAggregatorService.php:153-158 | a second cleanup with the same cutoff deletes nothing |
| ArticleStore.RetainedUnique | app/Services/NewsAggregator/NewsAggregatorService.php:157 | deleting keeps the url index unique |
| ArticleStore.RetainedSplit | tests/Unit/NewsAggregatorServiceTest.php:55-73 | with old records followed by recent ones, exactly the old ones are deleted |
| ArticleStore.Store.FindByUrl | app/Services/NewsAggregator/NewsAggregatorService.php:85 | `where('url', …)->first()` finds a record exactly when the table holds that url |
| ArticleStore.Store.Insert | app/Services/NewsAggregator/NewsAggregatorService.php:92 | `create` appends the record and keeps urls unique |
| ArticleStore.MassAssign | app/Models/Article.php:18-31 | `create` keeps exactly the row's fillable keys, with their values |
| ArticleStore.ImageUrlDiscarded | app/Models/Article.php:18-31 | with `$fillable` as written, the stored row has no `image_url` and reads back as the record without its image |
| ArticleStore.CreateKeepsRow | database/migrations/2025_09_06_212046_create_articles_table.php:14-25 | with the table's columns fillable, `create` keeps the whole row, which reads back as the record |
| ArticleStore.Store.DeleteOlderThan | app/Services/NewsAggregator/NewsAggregatorService.php:157 | the table keeps exactly the retained records; the count returned is the number removed |
| NewsAggregator.Registered | app/Services/NewsAggregator/NewsAggregatorService.php:24-49 | at most three services are registered |
| NewsAggregator.Names | app/Services/NewsAggregator/NewsAggregatorService.php:133 | the keys of the service map, one per service, in order |
| NewsAggregator.Lookup | app/Services/NewsAggregator/NewsAggregatorService.php:144 | null exactly for a name not registered; otherwise an adapter registered under that name |
| NewsAggregator.LookupRegister | app/Services/NewsAggregator/NewsAggregatorService.php:27-32 | one source's registration holds its adapter under its name exactly when its key is configured |
| NewsAggregator.RegisteredExactly | app/Services/NewsAggregator/NewsAggregatorService.php:24-49 | each of `newsapi`, `guardian` and `nytimes` holds an adapter with its configured url and key exactly when its key is non-falsy; every other name holds nothing |
| NewsAggregator.RegisteredInOrder | app/Services/NewsAggregator/NewsAggregatorService.php:24-49 | registered names appear in the order newsapi, guardian, nytimes, with no repeats; with all keys set, all three are present |
| NewsAggregator.AdmitAll | app/Services/NewsAggregator/NewsAggregatorService.php:74-104 | processing one adapter's records never aborts the run, never changes the fetched count, and only appends to the store |
| NewsAggregator.PollAll | app/Services/NewsAggregator/NewsAggregatorService.php:67-116 | an aborted run stays as it is; the store is only appended to |
| NewsAggregator.Rows | app/Services/NewsAggregator/NewsAggregatorService.php:95 | the returned articles are the rows of the saved records, in order |
| NewsAggregator.Outcomes | app/Services/NewsAggregator/NewsAggregatorService.php:71 | one fetch outcome per registered service, in order |
| NewsAggregator.AdmitAllAccounting | app/Services/NewsAggregator/NewsAggregatorService.php:74-104 | each record is counted exactly once: invalid, error, duplicate or saved; saved records go to both the store and the returned list |
| NewsAggregator.AdmitAccounting | app/Services/NewsAggregator/NewsAggregatorService.php:74-104 | one record: an invalid one changes nothing; it is saved, to both the store and the list, exactly when it is valid, its store calls succeed and its url is not stored; otherwise exactly one counter goes up |
| NewsAggregator.AdmitAllSavesOnlyValid | app/Services/NewsAggregator/NewsAggregatorService.php:74-82 | every record one adapter's loop saves passes `isValid()` |
| NewsAggregator.PollAllSavesOnlyValid | app/Services/NewsAggregator/NewsAggregatorService.php:67-115 | every record the outer loop saves passes `isValid()` |
| NewsAggregator.RunSavesOnlyValid | app/Services/NewsAggregator/NewsAggregatorService.php:74-82 | in a whole run, every returned record and every record added to the store passes `isValid()` |
| NewsAggregator.AdmitAllUnique | app/Services/NewsAggregator/NewsAggregatorService.php:85-93 | the duplicate check before `create` keeps store urls unique |
| NewsAggregator.PollAccounting | app/Services/NewsAggregator/NewsAggregatorService.php:67-116 | per adapter: a TypeError ends the run; an Exception adds one error and nothing else; a failed request changes nothing; a record list adds its length to fetched and each record to exactly one counter |
| NewsAggregator.AbortedStaysPut | app/Services/NewsAggregator/NewsAggregatorService.php:110 | after an uncaught TypeError, later adapters change nothing |
| NewsAggregator.AbortedIffCrash | app/Services/NewsAggregator/NewsAggregatorService.php:110-115 | a run ends early exactly when some adapter raised a TypeError |
| NewsAggregator.RunAccounting | app/Services/NewsAggregator/NewsAggregatorService.php:57-124 | across all adapters, every fetched record and every adapter exception is counted exactly once, and the store grows by exactly the saved records |
| NewsAggregator.RunTotals | app/Services/NewsAggregator/NewsAggregatorService.php:59-123 | from zero counters: fetched is the number of records fetched; saved + duplicates + errors + invalid equals fetched + adapter exceptions; total_saved is the number of articles returned |
| NewsAggregator.RunUnique | app/Services/NewsAggregator/NewsAggregatorService.php:85-93 | a whole run keeps store urls unique |
| NewsAggregator.AdmitAllAbsorbs | app/Services/NewsAggregator/NewsAggregatorService.php:84-95 | after an adapter's records are processed, the url of every valid record whose store calls succeeded is in the store |
| NewsAggregator.AdmitAllNoop | app/Services/NewsAggregator/NewsAggregatorService.php:84-89 | records whose urls are already stored are all skipped and nothing is saved |
| NewsAggregator.PollAllAbsorbs | app/Services/NewsAggregator/NewsAggregatorService.php:67-104 | after a completed run, the url of every storable record is in the store |
| NewsAggregator.PollAllNoop | app/Services/NewsAggregator/NewsAggregatorService.php:67-104 | polling outcomes already absorbed saves nothing |
| NewsAggregator.RunIdempotent | app/Services/NewsAggregator/NewsAggregatorService.php:85-93 | running again on the same fetch results, with the store failing at least where it failed before, leaves the store unchanged and returns no articles |
| NewsAggregator.DuplicateOfStored | tests/Unit/NewsAggregatorServiceTest.php:165-195 | a valid record whose url is already stored is fetched, not saved, and counted as a duplicate |
| NewsAggregator.DuplicateWithinRun | app/Services/NewsAggregator/NewsAggregatorService.php:85-95 | of two valid records with the same new url, the first is saved and the second counted as a duplicate |
| NewsAggregator.InvalidSkipped | tests/Unit/NewsAggregatorServiceTest.php:213-235 | a record without a url is fetched but neither saved nor counted as a duplicate or an error |
| NewsAggregator.AllRequestsFail | tests/Unit/NewsAggregatorServiceTest.php:197-211 | when all three requests fail, nothing is fetched, saved or counted |
| NewsAggregator.NewsAggregatorService.constructor | app/Services/NewsAggregator/NewsAggregatorService.php:16-49 | the service map is exactly the registration of the configured sources |
| NewsAggregator.NewsAggregatorService.GetAvailableServices | app/Services/NewsAggregator/NewsAggregatorService.php:131-134 | one name per service; a name is listed exactly when `getService` finds it |
| NewsAggregator.NewsAggregatorService.GetService | app/Services/NewsAggregator/NewsAggregatorService.php:142-145 | null exactly for an unregistered name |
| NewsAggregator.NewsAggregatorService.AggregateArticles | app/Services/NewsAggregator/NewsAggregatorService.php:57-124 | the nested loops return exactly the report of `Run` over the services' fetch outcomes and leave the store as `Run` does, with urls still unique |
| NewsAggregator.NewsAggregatorService.PollServices | app/Services/NewsAggregator/NewsAggregatorService.php:67-115 | the outer loop, for any per-adapter fetch, returns exactly the report of `Run` over those outcomes and leaves the store as `Run` does, with urls still unique |
| NewsAggregator.NewsAggregatorService.PollService | app/Services/NewsAggregator/NewsAggregatorService.php:68-115 | one adapter that did not raise a TypeError: its outcome is applied exactly as `Poll` says, an `\Exception` adding one error and a record list being counted and admitted |
| NewsAggregator.NewsAggregatorService.SaveRecords | app/Services/NewsAggregator/NewsAggregatorService.php:74-104 | the inner loop computes exactly `AdmitAll` on the counters, the returned list and the store |
| NewsAggregator.NewsAggregatorService.CleanupOldArticles | app/Services/NewsAggregator/NewsAggregatorService.php:153-158 | the table keeps exactly the records not older than `daysToKeep` days; the number returned is the number deleted |
| NewsAggregator.CleanupExactly | app/Services/NewsAggregator/NewsAggregatorService.php:153-158 | a record survives exactly when it was published at or after now minus `daysToKeep` × 86400 s; survivors and deletions make up the table; nothing left is older |
| NewsAggregator.CleanupFortyAndTenDays | tests/Unit/NewsAggregatorServiceTest.php:55-73 | with a 30-day window, records 40 days old are deleted and records 10 days old are kept |

## Left out

- **HTTP transport.** `makeRequest` is the parameter `http`, which maps a request to its decoded JSON body. A non-2xx status or a transport exception is the body `[]`, as the source returns. The 30-second timeout is not modelled.
- **Logging.** Every `Log::` call is not modelled; none of them affects a result.
- **`Carbon::parse`.** On a scalar it is the parameter `parse`, which maps the value to a timestamp or rejects it. Dates are integer seconds. An array, empty or not, is a TypeError, as Carbon 3's typed `parse` gives. Carbon 2 would read an empty array as the current time.
- **`now()`.** It is the parameter `now`.
- **`subDays`.** It subtracts 86400 s per day. Calendar days that are not 86400 s long (daylight-saving changes) are not modelled.
- **URL filter.** `filter_var(…, FILTER_VALIDATE_URL)` is the parameter `acceptsUrl`. Its own grammar is not modelled.
- **Database failures.** The store's failures are the parameter `faults`, one flag per record. A flag covers the `first()` lookup and the `create` alike, as one `catch` does. A write that fails halfway is not modelled.
- **Concurrency.** Concurrent runs are not modelled, nor the race between the url lookup and `create`.
- **Unused `BaseNewsService` helpers.** `cleanContent` and `parseDate` are not modelled, because no adapter calls them.
- **The Eloquent model.** The `Article` model's casts, scopes and timestamps are not modelled. Its `$fillable` list is modelled only by `ArticleStore.MassAssign`. The store keeps whole records, image url included. That is what `create` persists once `image_url` is fillable (`ArticleStore.CreateKeepsRow`). As written, `create` drops the image url (see Findings).
- **Non-string keys in `array_merge`.** Caller parameters are string-keyed. PHP's renumbering of integer keys is not modelled.
- **JSON values.** JSON floats are not modelled. Numbers are integers, and their string form is their decimal text.
- **Multi-byte text.** Strings are one character per byte. `strtolower` lower-cases ASCII letters only, as PHP 8.2 does.
- **Adapter configuration.** A configured key with a null url is not modelled. It makes the adapter constructor throw a TypeError. The config url is a string here.
- **`fromArray` cells.** A cell is null, text or a date. Text under `published_at` is a TypeError, as PHP gives for a string passed to a `Carbon` parameter. A date's text is the parameter `dateText`. Integer and boolean cells are not modelled.
- **`NewsServiceInterface`.** The interface is the `Source` datatype with one case per adapter.
- **What an abort propagates.** The report of an aborted run is `Aborted`. What the TypeError does after it leaves `aggregateArticles` is not modelled.
- NewsAggregator.Registered: its own contract only bounds the count. Which services are registered, and with which url and key, is stated by `RegisteredExactly` and `RegisteredInOrder`.

## Findings

| source | as written | input that shows it | evidently intended | confidence | as-written member | corrected member |
|---|---|---|---|---|---|---|
| app/Models/Article.php:18-31 | `$fillable` lists `url_to_image`, so `Article::create($articleDto->toArray())` silently drops the `image_url` key | any record with an image, such as an NYT item whose first image url is `images/nyt-image.jpg` | `image_url` is fillable, like the table column of that name (migration line 20), as tests/Unit/ArticleModelTest.php:23-38 and tests/Unit/NewsAggregatorServiceTest.php:160-162 expect | not executed; holds unless strict mode makes Eloquent throw on discarded attributes | ArticleStore.ImageUrlDiscarded | ArticleStore.CreateKeepsRow |
