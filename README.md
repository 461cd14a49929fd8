# C19Lite backend, modelled in Dafny

C19Lite's backend serves municipal COVID-19 case counts for Finland. For
each municipality it joins the count published by the health institute's
open data cube with the population scraped from a wiki list of
municipalities. Both downloads are cached as JSON files next to the
program. Each file is refreshed when it is older than a threshold.

The repository holds two revisions of this pipeline, `main.py` and
`libs/c19lite_backend.py`. `text_strip`, `wikipedia`, `cache_get`,
`cache_load`, `municipality_amount` and `district_strip` are the same in
both. The differences are local variable names, and the `libs` revision's
`district_strip` has no default for `lang` (`main.py` defaults it to
`'sv'`). No caller relies on that default, so these functions are
modelled once. The members cited at `main.py` lines 19-116 below also
model `libs/c19lite_backend.py` lines 10-107. The two revisions differ in
cache expiry:

- `main.py` has a boolean `cache_expired` built on `cache_age`, and a
  population threshold of one day.
- The `libs` revision has a `cache_expired` that returns a number of
  seconds which the downloads test for truth, and a population threshold
  of one week.

Each revision has its own module for this part.

| file | module | models |
|---|---|---|
| `py_strings.dfy` | `PyStrings` | `str.strip`, `str.replace(p, '')`, `str.isdigit`, `int(str)`, `str(int)`, `str.title` |
| `json.dfy` | `Json` | decoded JSON values (null, bool, int, float by its `repr`, string, list, dict), the exceptions raised, `d[k]`, `d.get(k, default)`, `str(x)` |
| `text.dfy` | `Text` | `text_strip` |
| `table.dfy` | `Table` | `wikipedia`: the walk over table rows, the `sv`/`fi` tables, the `en` overlay |
| `district.dfy` | `District` | `municipality_amount`, the comprehension of `district_strip`, the filter of `find_municipality` |
| `store.dfy` | `Store` | the cache store (`FileSystem` class), `cache_path`, `cache_load`, `cache_get` |
| `main_pipeline.dfy` | `MainPipeline` | `cache_age`, `cache_expired`, `download_districts`, `download_district_population`, `district_strip`, `find_municipality` of `main.py` |
| `libs_pipeline.dfy` | `LibsPipeline` | the int-valued `cache_expired` and the downloads of `libs/c19lite_backend.py` |

Code that changes state step by step is modelled as imperative Dafny:

- the marker loop of `text_strip`;
- the nested table, row and cell loops of `wikipedia`;
- the file writes and removals.

Each such method is proved equal to a reference function. The properties
are lemmas about that function. The cache files are a map from path to
`File(mtime, content)`, held by a `FileSystem` object whose methods update
it. The network is an `Upstream` value, which may raise RequestError for a
failed request. The clock is an integer `now`, in
whole seconds.

The model follows the code as written:

- A wiki response whose status is not 200 yields three empty tables.
- A row with at least one but fewer than four cells raises IndexError.
  A fourth cell that `int()` rejects raises ValueError.
- A record's count is stored under `amount`.
- `municipality_amount` looks up `str(index.get(key))` in `value`. The
  usual index entry is an int `i`, and the count is then read from
  `value[str(i)]`. When the entry found in `value` is missing, null or
  not a string, `.isdigit()` raises AttributeError. The count does not
  default to 0.
- Expiry uses a strict `>`.
- The age is the `seconds` field of a `timedelta`. It drops whole days, so
  it is always below 86400.
- In `main.py` the population threshold is 86400 seconds. Since every age
  is below a day, an existing population file is never refreshed.
- In the `libs` revision the population threshold is 604800 seconds. The
  cache there is read only when the age is exactly 0.
- No HTTP status is checked for the JSON download.

## Model

| member | source | states |
|---|---|---|
| PyStrings.Strip | main.py:27 | the result is the slice of the input between its leading and trailing whitespace, and it starts and ends with a non-space |
| PyStrings.StripDropsSpaces | main.py:27 | every character `strip` drops, at either end, is whitespace |
| PyStrings.RemoveAll | main.py:22-23 | `replace(p, '')` never lengthens a string, keeps only characters of its input, and leaves no trace of a one-character pattern |
| PyStrings.ParseDigits | main.py:91-92 | `int()` of a string of ASCII digits is its base-10 value |
| PyStrings.ParseNegative | main.py:51-52 | `int()` of `-` followed by digits is the negated value, so negative populations are accepted |
| PyStrings.ParseNatString | main.py:89 | `int(str(n)) == n` for every non-negative `n` |
| PyStrings.TitleIdempotent | main.py:186 | `title()` of a title-cased string changes nothing |
| Json.Subscript | main.py:104-110 | `d[key]` finds the value exactly when `d` is a dict holding the key; a dict without it raises KeyError for that key, anything else TypeError |
| Json.Get | main.py:89 | `d.get(key, default)` raises AttributeError on anything but a dict and TypeError for a list or dict key; otherwise it gives the stored value for a present string key and the default for any other key |
| Json.ToStr | main.py:89 | `str(x)` fails only for a list or dict; a string is itself, `True`/`False` are spelled out, and the text of a non-negative int reads back as that int |
| Text.RemoveMarkersDrops | main.py:22-23 | once a one-character marker has been removed, its character is absent from the result |
| Text.MarkersDropBreaks | main.py:22-23 | after the marker loop no newline and no non-breaking space is left |
| Text.RemoveGroups | main.py:25 | the substitution never lengthens the text and keeps only characters of its input |
| Text.RemoveGroupsLeavesNoGroup | main.py:25 | after `re.sub(r'\([^)]*\)', '', s)` no `(` has a `)` anywhere after it |
| Text.RemoveGroupsKeepsClean | main.py:25 | on text where the regex finds no match, the substitution changes nothing |
| Text.Normalize | main.py:19-27 | the reference definition of `text_strip`: markers, then groups, then surrounding whitespace removed; it adds no character |
| Text.NormalizeClean | main.py:19-27 | the output of `text_strip` has no newline, no non-breaking space, no surrounding whitespace and no `(` before a `)`, and holds only characters of its input |
| Text.NormalizeNotIdempotent | main.py:19-27 | `text_strip` is not idempotent: `"a (b)*c"` becomes `"a *c"`, which a second pass turns into `"ac"` |
| Text.TextStrip | main.py:19-27 | the marker loop followed by the regex and `strip` computes `text_strip` |
| Table.Classify | main.py:50-52 | a row with no cells is skipped; one with one to three cells raises IndexError; one whose fourth cell `int()` rejects raises ValueError; any other row stores `int(rows[3])` under `rows[0]` and `rows[1]` |
| Table.RowRaises | main.py:50-52 | a row raises exactly when it is non-empty and either shorter than four cells or has a fourth cell that is not an integer |
| Table.Fill | main.py:41-52 | the walk over the rows raises only IndexError or ValueError |
| Table.ClassifyWrites | main.py:51-52 | a row writes a name to the `sv` or `fi` table exactly when it has four or more cells with that name in column 0 or 1, and it writes the value `int()` reads from its fourth cell |
| Table.FillOkIff | main.py:41-52 | the walk over all rows succeeds exactly when no row raises |
| Table.FillErrorSticks | main.py:41-52 | after the first exception the remaining rows are never looked at |
| Table.FillFirstError | main.py:41-52 | the exception raised is the one of the first raising row |
| Table.FillLastWriteWins | main.py:51-52 | a name is in a table exactly when some row writes it, and its value is the one from the last such row |
| Table.RowsLastWriteWins | main.py:41-52 | last write wins, stated on cleaned rows: a name is present exactly when some row of four or more cells carries it, with the population of the last such row |
| Table.PageNames | main.py:38-52 | on a whole page with status 200, `sv` and `fi` hold exactly the names carried by the cleaned rows of all tables, in page order, each with its last population |
| Table.Overlay | main.py:53 | `{**fi, **sv}` has the keys of both tables, and its value comes from `sv` where `sv` has the key and from `fi` otherwise |
| Table.ParsePage | main.py:30-55 | the reference result of `wikipedia`: a status other than 200 gives three empty tables, `en` is always the overlay of `sv` on `fi`, and the only exceptions are IndexError and ValueError |
| Table.ParsePageOutcome | main.py:33-55 | a status other than 200 gives three empty tables; with status 200 the result is a value exactly when no row raises, and `en` is `fi` overlaid by `sv` |
| Table.CleanRow | main.py:44-48 | the cell loop applies `text_strip` to every cell, in order |
| Table.WalkRow | main.py:41-52 | one pass of the row loop is one step of the reference walk |
| Table.Wikipedia | main.py:30-55 | the nested loops over tables, rows and cells compute the reference result, exception included |
| Table.LanguageTable | main.py:207 | `container[lang]` is the `sv`, `fi` or `en` table, and any other language raises KeyError |
| District.Amount | main.py:85-96 | the count is defined exactly when the looked-up entry is a string; it is never negative; a digit string reads as its `int()` value and any other string as 0; the only failures are AttributeError and an index entry whose `str()` is not modelled |
| District.Entry | main.py:89 | `value.get(str(index.get(key)))` succeeds exactly when `index` and `value` are dicts and the index entry is not a list or dict; it raises AttributeError or, for `str()` of a list or dict, the unmodelled case |
| District.IndexedAmount | main.py:85-96 | in the usual shape, where the index maps the label to an int `i` and `value[str(i)]` is a string, the count is that string's digit value, or 0 when it is not all digits |
| District.MissingIndexKey | main.py:89-91 | a label missing from `index` looks up `str(None)`; where that is not in `value`, `.isdigit()` raises AttributeError |
| District.MissingValueEntry | main.py:89-91 | an index entry that `value` lacks makes `.isdigit()` raise AttributeError |
| District.NavigateErrors | main.py:104-110 | navigation fails only with TypeError or with a KeyError naming a key of the path; the first missing key, in subscript order, raises KeyError for that key, and a step that meets something other than a dict raises TypeError |
| District.Navigate | main.py:104-110 | the seven subscripts succeed exactly when every key of the path is present in a dict |
| District.NavigateFinds | main.py:104-110 | on a document with every key, navigation yields the value table, the labels and the index |
| District.Item | main.py:112-113 | a record built for a label has that label as its name and a non-negative amount |
| District.JoinNavigation | main.py:104-114 | a failed navigation propagates its exception, and a `label` that is not a dict raises AttributeError at `.items()` |
| District.JoinOkIff | main.py:111-114 | the join succeeds exactly when navigation succeeds, `label` is a dict and every label builds its record |
| District.JoinRecords | main.py:111-114 | the result has exactly the keys of `label`; each record's name is the label, its amount is `municipality_amount`'s value, and its population is `population.get(name, 0)` |
| District.JoinItemError | main.py:111-114 | when the join fails after navigation, the exception is one that some label raises |
| District.Join | main.py:103-116 | a successful join has exactly the keys of `label`; a failed one raises TypeError, AttributeError, the unmodelled case or a KeyError for a key of the path |
| District.Find | main.py:185-186 | `find_municipality` keeps exactly the records whose name equals `municipality.title()`, unchanged |
| District.FindTitleInvariant | main.py:186 | title-casing the query beforehand never changes the result |
| District.FoundNamesAreTitled | main.py:186 | only records whose name `title()` leaves unchanged can ever be found |
| Store.ContentPathInjective | main.py:153-158 | different file names give different cache paths |
| Store.CacheFilesDistinct | main.py:164 | each language has its own case-count file, and none of them is the population file |
| Store.Load | main.py:78-82 | `cache_load` returns the stored document; it raises FileNotFound for a missing file and DecodeError for an empty or non-JSON one |
| Store.FileSystem.CachePath | main.py:153-158 | `cache_path` creates the content directory, returns `{root}/content/{name}` and touches no file |
| Store.FileSystem.Remove | main.py:147-148 | `os.remove` drops exactly that path |
| Store.FileSystem.Write | main.py:72-73 | writing stores the document at the path, stamped with the current time |
| Store.CacheGet | main.py:58-75 | `cache_get` returns the fetched document or the exception; it writes the file only on success, and reading the file back then gives the result |
| Store.Fetched | main.py:58-75 | the document `cache_get` obtains: the JSON body for a JSON fetch; for a page fetch, a dict of exactly the `sv`, `fi` and `en` tables, or the request error, or the exception of the walk |
| MainPipeline.Age | main.py:119-136 | `cache_age` is always in `[0, 86400)` |
| MainPipeline.AgeIsSeconds | main.py:126-130 | for a non-empty file the age is the time since its modification with whole days taken off, also for a time in the future |
| MainPipeline.KeptIff | main.py:139-150 | after `cache_expired` the file is gone exactly when it was reported expired, and no other file changes |
| MainPipeline.CacheExpired | main.py:139-150 | a missing file is expired and nothing is removed; an existing one is expired, and removed, when its age is strictly above the threshold |
| MainPipeline.RefreshOutcome | main.py:166-176 | an expired cache is fetched, and on success the new file reads back as the result; on failure the file stays removed; a cache that is not expired is read and nothing changes |
| MainPipeline.Refresh | main.py:166-176 | the reference refresh: only the one cache file may change, and a successful result reads back from it |
| MainPipeline.RefreshFile | main.py:166-176 | the expiry check followed by `cache_get` or `cache_load` computes the reference refresh |
| MainPipeline.DownloadDistrictPopulation | main.py:191-207 | refreshes the population file with threshold 86400 and returns `data[lang]` |
| MainPipeline.Population | main.py:191-207 | the reference `download_district_population`: only the population file may change |
| MainPipeline.DistrictStrip | main.py:99-116 | refreshes the population first, then performs the join |
| MainPipeline.DownloadDistricts | main.py:161-178 | refreshes the case counts with threshold 3600, then `district_strip` |
| MainPipeline.Districts | main.py:161-178 | the reference `download_districts`: only the language's case-count file and the population file may change |
| MainPipeline.FindMunicipality | main.py:181-188 | the Swedish records, filtered by the title-cased name |
| MainPipeline.FindIn | main.py:181-188 | the reference `find_municipality`: only the `sv` case-count file and the population file may change |
| MainPipeline.FoundByTitle | main.py:184-186 | every record `find_municipality` returns is named after the title-cased query |
| MainPipeline.PopulationNeverExpires | main.py:196 | with threshold 86400 an existing file is never expired and never removed |
| MainPipeline.PopulationCachedForever | main.py:191-207 | once the population file exists, every request reads it, whatever the time, and nothing changes |
| MainPipeline.PopulationStuck | main.py:191-207 | an empty or non-JSON population file is never replaced, so every request that reaches `district_strip` fails |
| MainPipeline.DistrictsReusedAfterWholeDays | main.py:139-145 | a non-empty case-count file modified a whole number of days plus at most an hour ago is read, not fetched, however many days old it is |
| MainPipeline.EmptyDistrictsRefetched | main.py:123-124 | an empty case-count file counts as 3800 seconds old, so it is removed and fetched again |
| MainPipeline.PopulationLanguage | main.py:207 | a freshly fetched population table answers only `sv`, `fi` and `en`; any other language raises KeyError |
| LibsPipeline.Check | libs/c19lite_backend.py:110-126 | the returned number is below a day for an existing file and above the threshold for a missing one |
| LibsPipeline.Kept | libs/c19lite_backend.py:119-120 | the check removes at most that one file and changes no other |
| LibsPipeline.CacheExpired | libs/c19lite_backend.py:110-126 | returns the seconds field of the file's age, or `ttl + 1` when it is missing, and removes the file when the number is above `ttl` |
| LibsPipeline.MissingFile | libs/c19lite_backend.py:122-124 | for a missing file the number exceeds the threshold, is true, and nothing is removed |
| LibsPipeline.PopulationNeverRemoved | libs/c19lite_backend.py:162 | with the one-week threshold the population file is never removed |
| LibsPipeline.ReadOnlyAtWholeDays | libs/c19lite_backend.py:142-152 | the cache is read only when the file exists and was written a whole number of days ago to the second; otherwise it is fetched again even when young, and a failed fetch leaves a young file in place |
| LibsPipeline.PopulationRefetched | libs/c19lite_backend.py:162-167 | the population is fetched again on every request except those a whole number of days after its last write |
| LibsPipeline.EmptyReadAtWholeDays | libs/c19lite_backend.py:142-152 | an empty file read at age 0 raises the decode error |
| LibsPipeline.PopulationLanguage | libs/c19lite_backend.py:157-173 | whenever the population table is fetched (every request except those a whole number of days after the last write), a language other than `sv`, `fi` and `en` raises KeyError |
| LibsPipeline.RefreshFile | libs/c19lite_backend.py:142-152 | the truth test on the returned number followed by `cache_get` or `cache_load` computes the reference refresh |
| LibsPipeline.Refresh | libs/c19lite_backend.py:142-152 | the reference refresh: only the one cache file may change, and a successful result reads back from it |
| LibsPipeline.DownloadDistrictPopulation | libs/c19lite_backend.py:157-173 | refreshes the population file with threshold 604800 and returns `data[lang]` |
| LibsPipeline.Population | libs/c19lite_backend.py:157-173 | the reference `download_district_population`: only the population file may change |
| LibsPipeline.DistrictStrip | libs/c19lite_backend.py:90-107 | refreshes the population first, then performs the join |
| LibsPipeline.DownloadDistricts | libs/c19lite_backend.py:137-154 | refreshes the case counts with threshold 3600, then `district_strip` |
| LibsPipeline.Districts | libs/c19lite_backend.py:137-154 | the reference `download_districts`: only the language's case-count file and the population file may change |

## Left out

- The network: `requests.get`, its headers and the response body are an `Upstream` value. Per URL it gives either the decoded JSON or an error, and either the page's table rows with their status or RequestError. The kind of request failure is not distinguished.
- HTML parsing: BeautifulSoup's `find_all`, `span.decompose()` and `get_text()` are not modelled. A page arrives as its sortable wikitables, each a list of rows of raw cell texts with the spans already removed.
- `json.dumps` and `json.load` are an exact round trip on the `Json` datatype. A file's bytes are `Empty`, `Garbage` (not JSON) or a document.
- The clock: `datetime.now()` is the integer `now` in whole seconds, read once per request. Sub-second times, local-time conversion and daylight-saving shifts are not modelled.
- Filesystem details: failures of `open`, `os.stat` or `os.makedirs` other than a missing file are not modelled, and neither are permissions.
- The web server: the FastAPI endpoint `read_item`, `uvicorn.run`, the `__main__` print of the `libs` revision and the log line in `cache_age` are not modelled.
- Concurrent requests sharing the cache are not modelled.
- PyStrings.ParseInt: `int()` accepts only ASCII digits with an optional sign and surrounding whitespace. Underscore separators (`1_000`) and non-ASCII decimal digits are not accepted as Python would accept them.
- PyStrings.IsDigit: ASCII digits only. Python's `isdigit` also accepts other Unicode digits, some of which `int()` then rejects.
- PyStrings.Title: letter case is modelled inside Latin-1 only, and each letter maps to one letter. Three Latin-1 letters are left unchanged where Python changes them. `'ß'` titles as `"Ss"`, which lengthens the string. `'ÿ'` and `'µ'` map to letters outside Latin-1. Letters of other scripts are also left as they are, and they count as uncased. So a cased letter outside Latin-1 makes the following letter title-cased where Python lower-cases it: `"ωa".title()` is `"Ωa"` in Python but `"ωA"` in the model.
- PyStrings.IntToString: its inverse is proved for non-negative numbers only.
- Json.ToStr: `str()` of a list or dict index entry yields `Unmodelled` instead of Python's `repr` text.
- Json: a JSON float is carried only by its Python `repr`. Float parsing, rounding and arithmetic are not modelled. Nothing in the modelled code computes with floats.
- District.Join: when several labels raise different exceptions, Python raises the one of the first label in dict order. The model has no dict order and picks by a fixed precedence (AttributeError, then TypeError, then the unmodelled case). It only proves that the exception is one some label raises.
- District.Join and District.Find: the key order of the dicts they return is not modelled.
