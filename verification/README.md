# Dubai listing scraper: pagination, projection and export

A model of `scrape_dubai.py`, a script with three steps:

1. It calls a listing-search client up to `max_pages` = 3 times and collects the `results` of each reply.
2. It projects every raw hit onto a flat record with 17 fixed columns.
3. It writes those records to a CSV file. The header comes from the first record's keys.

Modules:

- `Wrappers` (`wrappers.dfy`): the `Option` type. `None` stands for Python's `None`, an absent key, or a falsy reply.
- `Hits` (`hits.dfy`): raw hits. These are the `listing` block with its optional `primary_host`, and the `pricing_quote` block with its optional `rate`. Leaf values have the opaque type `Value`. Each block's leaf keys are a `map<string, Value>`, and `Get` is `dict.get`.
- `Search` (`search.dfy`): the `while` loop of `search_dubai_listings`, in two forms. `RunFrom`/`SearchRun` is a recursive function. `SearchDubaiListings` is a method with the loop written out, including its `break`s. The external client is a parameter `client: nat -> Option<Response>`, where `client(k)` is the reply to the k-th call. A call happens exactly when `current_page == k`. `ValidRun` gives a declarative description of a finished loop, and `ValidRunUnique` shows that this description determines the run.
- `Extract` (`extract.dfy`): `extract_listing_info`. `ExtractOne` follows the source step by step: it replaces absent blocks with `{}`, then reads 17 keys. `Columns` and `Sources` form an independent column table. `Resolve` reads a column from that table and gives None as soon as a block is absent. `ExtractOne`'s contract ties the two readings together.
- `CsvExport` (`csv_export.dfy`): what `save_to_csv` leaves in the file, following `csv.DictWriter`'s rules. A record is a sequence of fields, and the export requires its keys to be distinct (`DistinctKeys`), as they are in every Python dictionary. Extra keys raise `ValueError`. A missing key, or a None value, becomes an empty cell.

## Model

| member | source | states |
|---|---|---|
| Search.RunFrom | scrape_dubai.py:13-36 | From any iteration reached with every earlier reply accepted and reporting a next page, and with `all_results` holding their results, the loop ends in a state satisfying `ValidRun`. It makes at least as many calls as the pages already done. |
| Search.SearchRun | scrape_dubai.py:9-39 | The loop makes between 1 and `max_pages` = 3 calls. Every call except the last returned `results` and a true `has_next_page`. The last reply explains the exit: rejected, no next page, or page limit. The results are the in-order concatenation of the accepted replies' lists. The loop exits at the page limit exactly when all three replies continue. |
| Search.SearchListings | scrape_dubai.py:7-39 | The returned list is exactly what the calls contributed, in call order. Rejected replies add nothing. |
| Search.SearchDubaiListings | scrape_dubai.py:7-39 | The imperative loop, with its breaks, makes between 1 and 3 calls. All but the last call continued. It stops before the limit only on a reply that does not continue. It returns the concatenated results, and its `current_page` and call count equal the functional model's. |
| Search.ValidRunUnique | scrape_dubai.py:13-36 | The replies determine the final `all_results`, `current_page`, call count and exit completely. |
| Search.RepliesAfterStopIgnored | scrape_dubai.py:13-36 | Replies to calls the loop never makes cannot affect its outcome. |
| Search.RejectedFirstReply | scrape_dubai.py:26-28 | If the first reply is falsy or has no `results`, the search makes one call and returns an empty list. |
| Search.StopsAt | scrape_dubai.py:13-36 | If the replies to calls 0..k-1 (k < 3) all continued and reply k does not, the loop makes exactly k+1 calls. |
| Search.RejectedReplyEndsSearch | scrape_dubai.py:26-28 | If every earlier reply continued, a falsy reply, or one without `results`, is the last call and adds nothing. The results are those of the earlier calls. |
| Search.LastPageTaken | scrape_dubai.py:30-34 | If every earlier reply continued, a reply with `results` but with `has_next_page` false or absent is the last call, and its results are still appended. |
| Search.CurrentPageCountsPages | scrape_dubai.py:33-36 | `current_page` at exit equals the number of replies that were accepted and reported a next page (`CountContinues`). On a `has_next_page` exit it is the number of accepted replies (`CountAccepted`) minus one; on the other exits it equals that number. It never exceeds 3. |
| Search.SamePageRepeated | scrape_dubai.py:14-36 | No page cursor is sent. A client that always answers with the same page claiming a next page gives that page three times over, duplicates included. |
| Extract.ExtractOne | scrape_dubai.py:45-67 | Every record has exactly the 17 columns, in the source's order. Each column's value is the table reading: the source key inside the nested block, or None when the block or the key is absent. |
| Extract.ExtractListingInfo | scrape_dubai.py:41-69 | Exactly one record per hit, in the same order. Every record has the same 17 columns. |
| Extract.ColumnsDistinct | scrape_dubai.py:49-67 | The 17 column names are pairwise different, so each record is a well-formed dictionary. |
| Extract.ColumnKeysDistinct | scrape_dubai.py:49-67 | A record with the 17 output columns has no repeated key, so it is a well-formed dictionary as the CSV export requires. |
| Extract.ExtractOneByName | scrape_dubai.py:49-67 | Looking a column up by name in a record gives the table's reading of that column for the hit. |
| Extract.MissingListing | scrape_dubai.py:45-66 | Without a `listing` block, every listing-derived column is None, including `is_superhost`. |
| Extract.MissingHost | scrape_dubai.py:46-59 | Without a `listing` or `primary_host` block, `is_superhost` is None. |
| Extract.MissingRate | scrape_dubai.py:47-58 | Without `pricing_quote` or its `rate`, `price_per_night` is None. Without `pricing_quote`, both price factors are None as well. |
| Extract.PricingIgnoresListing | scrape_dubai.py:47-58 | The three pricing columns depend only on `pricing_quote`, never on the `listing` block. |
| Extract.PresentListingCopied | scrape_dubai.py:50-66 | When the `listing` block is present, each listing column holds that block's value under the column's source key (`room_type_category`, `license`, `lat`, ...), or None if the key is absent. |
| Extract.ExtractAppend | scrape_dubai.py:42-69 | The projection works hit by hit: projecting a concatenation gives the concatenation of the projections. |
| CsvExport.WriteRows | scrape_dubai.py:77-79 | Rows are written in record order, each cell being `get(column, "")` in header order. Writing stops at the first record with a key outside the header, and only then, and reports that record's extra keys. |
| CsvExport.SaveToCsv | scrape_dubai.py:71-79 | For records that are dictionaries (no repeated key), nothing is written exactly when the list is empty. Otherwise the header is the first record's keys and rows are written in order. Every written row comes from a record with no extra key. All rows are written exactly when no record has an extra key (both directions). When writing stops, the reported keys are the extra keys of the first record not written. |
| CsvExport.ExportOfExtracted | scrape_dubai.py:71-79 | For projected hits, the file is empty exactly when there are no hits. Otherwise the header is the 17 columns, no record is refused, and row i, column j holds hit i's reading of column j. This is why a header taken from `data[0]` fits every row. |

## Left out

- The `PyAirbnb` client and its `search_all` arguments (location, price and room filters, page sizes): the client is an external library and becomes the `client` parameter. Its replies are arbitrary, so nothing is assumed about them.
- `time.sleep(2)` between pages, every `print` message, and the `main` sequencing: these are timing, logging and orchestration.
- Opening, encoding and closing the CSV file, the default file name, and the text form of each cell: file I/O. The model keeps only the header and the rows, as sequences of values.
- Python truthiness beyond the cases modelled. A reply is falsy (None) or a dictionary, and `has_next_page` is a boolean or absent. Other truthy or falsy objects are not modelled.
- Exceptions raised by the client: constructing `PyAirbnb()` (scrape_dubai.py:8) or calling `search_all` (scrape_dubai.py:14-24) can raise, and `search_dubai_listings` has no handler. The exception propagates out of the function and the results already collected are lost. The model's client always returns a reply (possibly a falsy one), so this path is not modelled.
- Hits that are not dictionaries: `listing.get` (scrape_dubai.py:45) raises `AttributeError` on such an element of `results`, and the whole projection fails. The model's `RawHit` is always a dictionary.
- Replies whose `results` value is not a list: `all_results.extend` (scrape_dubai.py:30) accepts any iterable. A tuple of hits behaves like a list. An empty string or dictionary adds nothing and the loop goes on. A non-empty string or dictionary adds its characters or keys, and the projection then fails with `AttributeError` at scrape_dubai.py:45. Only a value that is not iterable (`null`, a number, a boolean) raises `TypeError` at line 30. The model's `results` is always a list of hits.
- Blocks that are present but `null` (`"listing": null`, `"primary_host": null`, `"pricing_quote": null`, `"rate": null`): the `.get` on them raises `AttributeError` (scrape_dubai.py:45-47, 50-66). The model lets each block be only a dictionary or absent.
- A JSON `null` leaf is one of the opaque `Value`s. The source cannot tell it apart from an absent key once it is in a record, and the CSV writes both as an empty cell.
- The numeric meaning of prices, ratings and coordinates: the script never computes with them, so `Value` is opaque.
