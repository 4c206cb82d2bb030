# iex_client in Dafny

A model of the pure and nearly pure core of `iex_client`, a thin Python
client for the IEX stock-data API:

- **Symbol directory** (`client.dfy`, module `Client`). The client fetches
  the exchange's symbol list once and keeps it as a map from ticker symbol
  to company name. The model is a class `Client` with that map as a `const`
  field, because only the constructor assigns it. `get_name` and the filter
  in front of `get_price` are pure functions over the map. Each upper-cases
  its inputs and silently drops the symbols the directory does not know.
  A single symbol is a `SymbolArg.Single`, a list is `SymbolArg.Many`.
- **News parsing** (`news.dfy`, module `News`). `from_dict` copies the text
  fields of a decoded article and keeps, from the comma-separated `related`
  tags, those shorter than six characters that equal their upper-case
  form. `headline_link` wraps the url and the headline in an HTML anchor.
- **In-memory cache** (`memory_cache.dfy`, module `MemoryCache`). A class
  over a `map` field. `Set` overwrites and ignores its time argument.
  `Get` returns `Some(value)`, or `None` for a missing key.

Two supporting modules model the Python built-ins the core uses:
`text.dfy` has ASCII `str.upper`, `str.split` on one character with its
inverse `join`, and substring containment. `collections.dfy` has
`list(filter(...))` and a dict comprehension over a list of pairs, in
which a repeated key takes the value of its last occurrence.
A third file, `wrappers.dfy`, holds `Option` and `Result`.

Three behaviours of the code worth noting:

- the cache stores no expiry and never forgets an entry;
- `get_name` returns a dict, not a set;
- the directory keys are stored exactly as the server sends them, not
  upper-cased.

## Model

| member | source | states |
|---|---|---|
| `Client.AsList` | iex/Client.py:20-21 | a single symbol becomes the one-element list holding it; a list is taken as it is |
| `Client.UpperAll` | iex/Client.py:23 | `[str(s).upper() for s in symbols]` has one entry per input, the upper-cased input at the same position |
| `Client.Directory` | iex/Client.py:17 | the directory's keys are exactly the symbols of the fetched records |
| `Client.DirectoryLaterWins` | iex/Client.py:17 | a symbol listed more than once maps to the name in its last record |
| `Client.DirectoryEntryFromRecord` | iex/Client.py:17 | every (symbol, name) entry of the directory is one of the fetched records |
| `Client.Client.constructor` | iex/Client.py:9-17 | the new client's `symbols` is the directory built from the decoded records |
| `Client.Connect` | iex/Client.py:9-17 | a status other than 200 raises `RequestException` and builds nothing; status 200 gives a client holding the directory of the records |
| `Client.Client.KnownSymbols` | iex/Client.py:35 | the filtered list holds exactly the upper-cased inputs that are directory keys |
| `Client.KnownSymbolsAppend` | iex/Client.py:35 | the filter keeps input order: filtering `xs + ys` is filtering `xs`, then `ys` |
| `Client.KnownSymbolsMultiplicity` | iex/Client.py:35 | a known symbol appears as often as among the upper-cased inputs, an unknown one never, so duplicates are kept |
| `Client.Client.GetName` | iex/Client.py:19-23 | the result's key set is {upper(s) : s in input} ∩ directory keys; each value is the directory's name for its key; unknown symbols are dropped without error |
| `Client.GetNameSingleIsList` | iex/Client.py:20-21 | a single symbol gives the same result as the one-element list holding it |
| `Client.GetNameCaseInsensitive` | iex/Client.py:23 | upper-casing the inputs first changes nothing, and every key of the result is upper-case |
| `Client.GetNameKeyIsUpperKnown` | iex/Client.py:23 | each returned key is its own upper-case form and is in the directory |
| `Client.GetNameIdempotent` | iex/Client.py:23 | looking up any list whose elements are exactly the returned keys gives the same result again |
| `Client.GetNameListExample` | test/ClientTest.py:9-14 | with AAPL and FB known and ZZAA unknown, `['aapl', 'fb', 'zzaa']` yields AAPL and FB and not ZZAA |
| `Client.Client.PriceRequest` | iex/Client.py:31-41 | no request is made exactly when no upper-cased input is known; otherwise the request names the known symbols in input order, each passed through `quote_plus` |
| `Client.PriceRequestListExample` | test/ClientTest.py:34-39 | for two known inputs and one unknown, the request names the two known symbols, upper-cased, in input order |
| `Client.Client.GetPrice` | iex/Client.py:25-43 | `{}` when no request is made; otherwise a dict keyed by exactly the symbols of the server's records, and equal to `PriceTable` of those records |
| `Client.PriceTable` | iex/Client.py:43 | the price dict's keys are exactly the symbols of the server's records |
| `Client.PriceTableLaterWins` | iex/Client.py:43 | a symbol the server lists more than once takes the price of its last record |
| `Client.PriceTableEntryFromRecord` | iex/Client.py:43 | every (symbol, price) entry of the dict is one of the server's records |
| `News.IsTicker` | iex/News.py:14 | the filter's lambda: a tag passes exactly when it has at most 5 characters and no lower-case letter |
| `News.RelatedSymbols` | iex/News.py:14 | there are never more symbols than comma-separated tags; the lemmas below give membership, order and multiplicity |
| `News.RelatedSymbolsMembers` | iex/News.py:14 | a tag is a related symbol exactly when it is a comma-separated token of `related` that is shorter than 6 and equals its upper-case form |
| `News.RelatedSymbolsOfJoin` | iex/News.py:14 | for comma-free tags joined by commas, the related symbols are exactly the ticker-like tags, in order |
| `News.RelatedSymbolsAppend` | iex/News.py:14 | symbols keep the order of the tags: the symbols of `a + "," + b` are those of `a` followed by those of `b` |
| `News.RelatedSymbolsMultiplicity` | iex/News.py:14 | a ticker-like tag appears among the symbols exactly as often as among the tags, so duplicates are kept |
| `News.RelatedSymbolsShape` | iex/News.py:14 | every symbol has at most 5 characters, no comma and no lower-case letter |
| `News.EmptyTagsKept` | iex/News.py:14 | empty tags pass the filter: `"A,,B"` yields `["A", "", "B"]` |
| `News.SampleTickers` | test/NewsTest.py:5-21 | of the sample tags only AAPL, BAC, ED and F are shorter than 6 and upper-case |
| `News.SampleRelatedSymbols` | test/NewsTest.py:5-21 | the sample article's `related` string yields exactly AAPL, BAC, ED and F, dropping `Computer Hardware`, `CON31167138`, `NASDAQ01` and `Computing and Information Technology` |
| `News.HasFieldsIff` | iex/News.py:9-14 | the six lookups of `from_dict` are all safe exactly when every key of `FieldKeys` is present |
| `News.FromDict` | iex/News.py:6-16 | succeeds exactly when all six keys are present and the date parses; otherwise it reports the first missing key in lookup order, or the unparsable date text, which is checked before any later key; a `BadDate` error occurs only when the date does not parse; on success the four text fields are copied unchanged and the symbols are `RelatedSymbols(related)` |
| `News.HeadlineLink` | iex/News.py:18-19 | the link is `<a href="`, the url, `">`, the headline and `</a>`, at fixed positions, so url and headline can be read back |
| `News.HeadlineLinkContains` | test/NewsTest.py:23-28 | the link contains `href`, the url and the headline |
| `Text.UpperChar` | iex/News.py:14 | an upper-cased character is never a lower-case letter, and only a lower-case letter is changed, to the letter 32 code points below |
| `Text.Upper` | iex/Client.py:23 | `s.upper()` upper-cases each character of `s` in place, keeping its length, and leaves no lower-case letter |
| `Text.Split` | iex/News.py:14 | `split(sep)` gives at least one piece, and no piece holds `sep` |
| `Text.UpperFixedIff` | iex/News.py:14 | `s.upper() == s` holds exactly when `s` has no lower-case letter |
| `Text.UpperIdempotent` | iex/Client.py:23 | upper-casing twice is upper-casing once |
| `Text.JoinSplit` | iex/News.py:14 | joining the pieces of `split(sep)` with `sep` gives back the original string |
| `Text.SplitJoin` | iex/News.py:14 | splitting a join of separator-free pieces gives the pieces back |
| `Text.SplitAppend` | iex/News.py:14 | splitting `a + sep + b` is splitting `a`, then `b` |
| `Collections.Filter` | iex/News.py:14 | the filtered list is no longer than the input |
| `Collections.FilterMembers` | iex/News.py:14 | the filtered list holds exactly the input elements that satisfy the predicate |
| `Collections.FilterAppend` | iex/Client.py:35 | filtering distributes over concatenation, so the input order is kept |
| `Collections.FilterMultiplicity` | iex/News.py:14 | a kept element occurs as often as in the input, a rejected one never |
| `Collections.ToMap` | iex/Client.py:17 | the dict's keys are exactly the keys of the pairs |
| `Collections.ToMapLastWins` | iex/Client.py:17 | a repeated key takes the value of its last pair |
| `Collections.ToMapEntryFromPair` | iex/Client.py:23 | every entry of the dict is one of the pairs it was built from |
| `MemoryCache.MemoryCache.constructor` | iex/memory_cache.py:4-5 | a new cache holds no entry |
| `MemoryCache.MemoryCache.Set` | iex/memory_cache.py:7-8 | the new contents are the old ones with `key` mapped to `value`; every other key is unchanged, and `time` plays no part |
| `MemoryCache.MemoryCache.Get` | iex/memory_cache.py:10-11 | returns the stored value when the key is present and `None` otherwise; it never fails and, having no `modifies` clause, changes nothing |
| `MemoryCache.FreshCacheMisses` | iex/memory_cache.py:4-11 | `get` on a new cache returns `None` for any key |
| `MemoryCache.GetAfterSet` | iex/memory_cache.py:7-11 | `get(k)` right after `set(k, v, t)` returns `v` |
| `MemoryCache.SetLeavesOtherKeys` | iex/memory_cache.py:7-11 | `set` on one key leaves `get` of every other key as it was |
| `MemoryCache.LastWriteWins` | iex/memory_cache.py:7-11 | after two `set`s on the same key, `get` returns the second value |
| `MemoryCache.TimeIgnored` | iex/memory_cache.py:7-8 | the same `set` with two different times leaves identical caches, so entries never expire |

## Left out

- `Client.Connect`: the source passes the failed response to `RequestException` under a keyword named `kwargs`, which the exception does not read. So the raised exception carries neither the response nor its status, and the model's `RequestException` carries nothing. Whether that stray keyword makes the raise itself fail with a different exception depends on library code that is not part of this model.
- HTTP: the `requests.Session`, both GET calls and `res.json()` are I/O. The constructor takes the decoded symbol records; `Connect` takes the status code and the records. The price response is the parameter `respond`, which stands for the server.
- The status of the price request is never checked by `get_price`, so the model does not check it either. A failed decode of that response is I/O and is not modelled.
- `quote_plus` is a library function whose source is not part of this model; it is the parameter `quote`. The URL built from the quoted symbols is not modelled.
- `dateutil.parser.parse` is a foreign parser. It is the parameter `parse`, and `None` stands for the parser raising.
- `str.upper` is modelled for ASCII letters only. `str(s)` coercion of non-string inputs is not modelled: inputs are strings.
- Python's `isinstance(symbols, list)` test becomes the `SymbolArg` datatype.
- The decoded article is a `map<string, string>`. Non-string JSON values are not modelled.
- In Python, `set(k, None)` followed by `get(k)` also returns `None`. The model's `Option` tells this case apart from a missing key.
- `find_symbol`, `get_quote`, `get_news` and `get_chart_data` are exercised by `test/ClientTest.py` but are not implemented in `iex/Client.py`. Search, chart ranges, financials, number formatting and the networked cache backend are not part of this model either.
- `News.SampleRelatedSymbols` writes the sample article's `related` string as `Join(SampleTags, ',')`, its eight tags joined by commas. That is the same string as the literal in the test.
