# Item details and price fetchers: a Dafny model

This project models the data-collection core of an Old School RuneScape economy tracker:

- The incremental **item-details fetcher** of `src/details.py` (module `Details`). It works
  out which items to look up: those missing from the stored document, then a random sample
  of outdated ones. It requests them one at a time and records each record or failure in
  the document `{items, invalid, updated_at}`. It saves the document, sorted, every
  `chunk_size` processed identifiers and once more at the end of a run that was neither
  stopped nor ended by an exception.
- The **older details fetcher** of `details.py` (module `LegacyDetails`). It differs in its
  cleaning step, which deletes a fixed list of fields in place. It stores records under
  integer keys. A request interrupted by the user sets the wait to zero instead of raising
  a flag.
- The **batched price fetcher** of `src/prices.py` and `prices.py` (module `Prices`; both
  files have the same loop, at `src/prices.py:68-77` and `prices.py:66-75`). It cuts the
  identifiers into chunks and joins each chunk with `|` into one query. It merges the
  replies, a later reply overriding an earlier one, and saves after every chunk.
- The shared helpers of `src/utilities.py` (module `Utilities`): `as_chunks`, `to_path` and
  `wait_for_okay`.

Supporting modules:

- `ItemStore`: the document's ordered `items` dict as a sequence of entries, the `members`
  flag coercion, and the sort done before every save.
- `Sorting`: Python's `sorted` with a key, as insertion sort.
- `Reconcile`: the set difference that yields the missing identifiers, and `random.sample`.
- `IntText`: `str` and `int` on identifiers.
- `Json`, `Wrappers`: values and `Option`/`Result`.

The outside world enters as parameters:

- `fetch`: the endpoint's reply to the request of a given step, for an identifier or a
  query. A repeated identifier or query may get a different reply.
- `sleep`: whether the i-th wait was interrupted by the user.
- `clock`: the time read during step i.
- A random sample is a nondeterministic draw.

Each fetch loop is modelled twice:

- As a function of its inputs, in three phases per identifier: request, checkpoint test,
  wait. The whole-run properties are proved about this function.
- As a class, `ItemDocument` or `LegacyDocument`, whose `items`, `invalid` and `updated_at`
  fields the methods update in place, as the Python code mutates `data`. Each method is
  proved to produce exactly the state the function describes.

Two behaviours of the code are worth knowing, and the model follows them:

- One might expect record keys and the `invalid` list to be disjoint. In the code, an
  outdated item whose re-fetch fails is appended to `invalid` and also stays in `items`.
  `LoopBookkeeping` states exactly what each list gains, with no disjointness.
- The final save of a run happens only in the `for`-`else` branch. A run stopped by the
  user, or ended by an exception, writes nothing beyond its periodic checkpoints
  (`FinalSaveOnlyWhenCompleted`).

## Model

| member | source | states |
|---|---|---|
| Details.CleanedFields | src/details.py:175-205 | The cleaned record exists unless `members` is absent or unhashable. It then has exactly the desired fields that were present, plus `updated_at`. `id`, `name` and `description` are kept unchanged, `members` becomes true, false or null, and `updated_at` is the current time with a UTC offset. |
| Details.ExistingIds | src/details.py:109 | Converting the keys succeeds exactly when every key parses as an integer. The result then has one identifier per key, in dict order. |
| Details.OutdatedExactly | src/details.py:76-80 | The selection loop raises exactly when some entry's `updated_at` is missing, is not a time stamp, or is a naive time, or when the entry is outdated and its key is not an integer. Otherwise its list holds exactly the identifiers of the records updated before the cutoff. |
| Details.OutdatedCount | src/details.py:76-80 | The outdated list has one entry per record updated before the cutoff, so its length is the number of such records. |
| Details.OutdatedDistinct | src/details.py:76-80 | When the stored keys that are integers in text name distinct identifiers, the outdated list has no duplicates. |
| Details.OutdatedPrefixRaises | src/details.py:76-80 | An entry that makes the loop raise makes the whole selection raise, whatever follows it. |
| Details.RandomlySelectIds | src/details.py:71-83 | The selection raises exactly when the loop raises or the sample size is negative. Otherwise it returns min(update_chunk_size, population) identifiers drawn without replacement from the outdated list. |
| Details.SampleIsOutdated | src/details.py:79-83 | Every sampled identifier belongs to a record updated before the cutoff. A sample has no duplicates when the population has none, and so whenever the stored keys name distinct identifiers. |
| Details.NothingToFetchWhenUpToDate | src/details.py:111-117 | When every known identifier is stored or invalid and no stored record's time stamp is before the cutoff, the work list is empty, so the early return is taken. |
| Details.RequestEffect | src/details.py:135-152 | One request's effect. An interruption only sets the flag. A request error appends the identifier to `invalid`. A cleanable reply is stored under `str(id)`, with the cleaned record. A stored record without `name`, or any other exception, ends the run. Exactly a failed request or a stored record with a `name` adds one to both `unsaved_count` and the progress count, and keeps the run going. |
| Details.CheckpointEffect | src/details.py:208-218 | A save stamps the time and sorts `invalid`. It keeps every invalid identifier and every record key. It appends a snapshot of the sorted document, or raises with no snapshot; it raises exactly when some record has no integer `id` (or the loop had already raised). |
| Details.UnsavedStaysBelowChunkSize | src/details.py:157-161 | With a positive chunk size, the unsaved count at the end of every iteration is below the chunk size. |
| Details.SavesFollowCadence | src/details.py:145-161 | Over any stretch of the loop that does not raise, the progress count equals the number of saves times the chunk size, plus the unsaved count. (`LoopBookkeeping` ties the progress count to the counted replies.) |
| Details.StopsOnlyOnInterruptedWait | src/details.py:139-167 | A run stops early only right after an interrupted wait with no request interrupted before it. A run that neither stops nor raises has sent a request for every identifier. |
| Details.LoopBookkeeping | src/details.py:134-152 | Over the loop, `invalid` gains exactly the identifiers whose request failed, with multiplicity. The record keys gain exactly the keys of the replies that were stored. The progress count grows by exactly the number of failed requests and stored records with a `name`. |
| Details.FinalSaveOnlyWhenCompleted | src/details.py:163-170 | A loop left by `break` or by an exception ends in its last state. A loop that ran to the end saves once more, with a snapshot of the final document. |
| Details.CompletedRunSaves | src/details.py:134-170 | A run's progress count is the number of counted replies (failed requests and stored records with a `name`) among the identifiers it requested. A completed run has requested every identifier, saved once per full `chunk_size` of counted replies plus the final save, and ends sorted. A stopped run has saved once per full chunk. |
| Details.ItemDocument.SaveItemDetails | src/details.py:208-223 | The document is stamped and `invalid` is sorted in place. `items` is replaced by its sorted form, or left alone when sorting raises. The written snapshot is the sorted document. |
| Details.ItemDocument.RecordReply | src/details.py:135-152 | Updating the document's fields in place for one reply gives exactly the state `Request` describes. |
| Details.ItemDocument.CheckpointIfDue | src/details.py:157-161 | Resetting the count and saving when it reaches the chunk size gives exactly the state `Checkpointed` describes. |
| Details.ItemDocument.Iteration | src/details.py:134-167 | One pass of the loop body leaves the rest of the run equal to the run from the original state. |
| Details.ItemDocument.FetchItemDetails | src/details.py:86-172 | Absent `items` or `invalid` default to empty. Non-integer keys or a failing selection raise with the document unchanged. The missing identifiers are distinct and exactly the known ones neither stored nor invalid. An empty work list returns at once. Otherwise the document, outcome and saves are those of the loop over missing then outdated identifiers. |
| LegacyDetails.KeyIds | details.py:89 | Converting the keys succeeds exactly when every key is an integer or a string that parses as one. The result then has one identifier per key, in order. |
| LegacyDetails.LegacyCleanedFields | details.py:158-194 | Cleaning raises exactly when `members` is absent or unhashable. Otherwise it removes exactly the ten listed fields, keeps every other field's value, and coerces `members` as the newer cleaner does. It then stamps `updated_at` with the naive local time. |
| LegacyDetails.CleanersAgree | details.py:164-191 | On replies whose fields are all desired, listed as undesired, or `updated_at`, the deleting cleaner and the keeping cleaner of src/details.py fail together. Their records agree on every field but `updated_at`: the older stamp is a naive local time, the newer one carries a UTC offset, so the two always differ. |
| LegacyDetails.LegacyRecordBreaksSelection | src/details.py:76-80 | A record stamped by the cleaner of details.py, anywhere in the document, makes the newer selection loop raise, since its naive time cannot be compared with the aware cutoff. |
| LegacyDetails.RawItem.Clean | details.py:178-191 | Deleting the listed keys one by one, ignoring absent ones, in place and then coercing and stamping gives the cleaned record. When `members` cannot be looked up, the fields are left with the deletions done. |
| LegacyDetails.LegacyRequestEffect | details.py:111-127 | An interruption sets the wait to zero. A request error appends to `invalid`. A cleanable reply is stored under the integer key. A stored record without `name`, or any other exception, ends the run. Exactly a failed request or a stored record with a `name` adds one to both counters. |
| LegacyDetails.LegacyCheckpointEffect | details.py:204-209 | A save stamps, sorts and snapshots the document, or raises keeping every key and invalid identifier; it raises exactly when some record lacks an integer `id` (or the loop had already raised). |
| LegacyDetails.LegacySavesFollowCadence | details.py:120-132 | Over a stretch that does not raise, the progress count equals the number of saves times the chunk size, plus the unsaved count. |
| LegacyDetails.LegacyLoopBookkeeping | details.py:110-127 | `invalid` gains exactly the failed identifiers and the keys gain exactly the stored ones. The progress count grows by exactly the number of counted replies. The wait is zero from the first interrupted request on, and unchanged before it. |
| LegacyDetails.LegacyStopsOnlyOnInterruptedWait | details.py:113-139 | A run stops early only right after a wait that was interrupted, with the wait it was given. Otherwise it visits every identifier. |
| LegacyDetails.LegacyCompletedRunSaves | details.py:110-142 | A run's progress count is the number of counted replies among the identifiers it requested. A completed run has requested every identifier, saved once per full `chunk_size` of them plus the final save, and ends sorted. A stopped run has saved once per full chunk. |
| LegacyDetails.LegacyFinalSaveOnlyWhenCompleted | details.py:133-142 | Only a loop that ran to the end saves once more, with a snapshot of the final document. |
| LegacyDetails.LegacyDocument.SaveItemDetailsToJson | details.py:197-214 | Stamps the document, sorts `invalid` in place and replaces `items` by its sorted form; the written snapshot is the sorted document. |
| LegacyDetails.LegacyDocument.RecordReply | details.py:111-127 | Updating the fields in place for one reply gives exactly the state `LegacyRequest` describes. |
| LegacyDetails.LegacyDocument.CheckpointIfDue | details.py:128-132 | Resetting the count and saving when it reaches the chunk size gives exactly the state `LegacyCheckpointed` describes. |
| LegacyDetails.LegacyDocument.Iteration | details.py:110-139 | One pass of the loop body leaves the rest of the run equal to the run from the original state. |
| LegacyDetails.LegacyDocument.FetchItemDetails | details.py:73-143 | A document without `items` or `invalid`, or with a non-integer key, raises unchanged. The missing identifiers are distinct and exactly the known ones neither stored nor invalid. None missing returns at once. Otherwise the document, outcome and saves are those of the loop. |
| Prices.SplitJoin | src/prices.py:35 | Joining texts that contain no `\|` with `\|` can be split back into exactly those texts. |
| Prices.QueryNamesChunk | src/prices.py:35 | The query of a non-empty chunk splits back into the chunk's identifiers, and each integer identifier parses back to itself. |
| Prices.MergedKeys | src/prices.py:68-71 | A key is in the merged prices exactly when some processed reply contains it. |
| Prices.LaterChunkWins | src/prices.py:68-71 | A key's merged price is the one from the last processed reply that contains it. |
| Prices.MergeChunks | src/prices.py:68-77 | The loop sends one query per chunk, in order. It stops after the first reply that raises. It merges, counts and saves after every chunk processed before that. |
| Prices.FetchItemPrices | src/prices.py:45-77 | A zero chunk size raises before any request, and a negative one or an empty list gives an empty result. Otherwise the run is the chunk loop over the `as_chunks` chunks. |
| Prices.OneSavePerChunk | src/prices.py:69-74 | Without a raising reply there are ceil(n / chunk_size) chunks, the run's save log has exactly that many entries, and the progress count reaches n. |
| Utilities.AsChunks | src/utilities.py:48-52 | Chunking fails exactly for a zero size and gives no chunk for a negative one. |
| Utilities.ChunksRoundTrip | src/utilities.py:48-52 | Concatenating the chunks gives back the sequence. |
| Utilities.ChunksShape | src/utilities.py:48-52 | There are ceil(n / size) chunks. Each is non-empty and at most `size` long, and all but the last are exactly `size` long. |
| Utilities.ChunkAt | src/utilities.py:48-52 | Chunk k is the slice starting at k * size. |
| Utilities.ToPath | src/utilities.py:19-28 | No path gives the default, a string becomes a path, and a path is returned unchanged. |
| Utilities.WaitForOkay | src/utilities.py:55-64 | The wait reports okay exactly when the sleep was not interrupted. |
| ItemStore.UpsertKeys | src/details.py:148 | Assigning a record to a key adds that key to the dict's keys and no other. |
| ItemStore.UpsertPlace | src/details.py:148 | A new key goes at the end of the dict order, and an existing key keeps its place. |
| ItemStore.UpsertLookup | src/details.py:148 | After assignment the key holds the new record, and every other key's record is unchanged. |
| ItemStore.UpsertKeepsKeysDistinct | src/details.py:148 | Assignment never duplicates a key. |
| ItemStore.MembersFlag | src/details.py:196-199 | "true" gives true, "false" gives false, an unhashable value raises, and any other value gives null. |
| ItemStore.SaveFailsIffIdMissing | src/details.py:216-218 | Sorting the records raises exactly when some record lacks an integer `id`. |
| ItemStore.SaveKeepsContents | src/details.py:214-218 | A save keeps the same keys and records and the same invalid identifiers with their multiplicities. Both come out sorted, the records by `id`. |
| ItemStore.SaveIsIdempotent | src/details.py:212-218 | Saving a saved document again writes the same document, up to its time stamp. |
| Sorting.SortByCorrect | src/details.py:216-218 | Sorting by a key gives a sorted permutation of its input. |
| Sorting.SortIntsCorrect | src/details.py:215 | Sorting the invalid list gives a sorted permutation of the same length. |
| Sorting.SortSortedIsIdentity | src/details.py:215-218 | Sorting an already sorted sequence changes nothing. |
| Reconcile.MissingSet | src/details.py:111 | An identifier is missing exactly when it is known and neither stored nor invalid. |
| Reconcile.FirstListed | src/details.py:111 | A duplicate-free list whose elements are exactly the missing identifiers. |
| Reconcile.MissingIds | src/details.py:111 | The list built from the set difference has no duplicates and holds exactly the missing identifiers. |
| Reconcile.NothingMissingIffCovered | src/details.py:111-117 | Nothing is missing exactly when every known identifier is stored or invalid. |
| Reconcile.Draw | src/details.py:83 | A sample raises exactly for a negative size or one larger than the population. Otherwise it has that many elements, drawn without replacement. |
| Reconcile.SubMultisetOfDistinct | src/details.py:83 | A draw without replacement from a duplicate-free population has no duplicates. |
| IntText.Show | src/details.py:148 | `str` of an identifier is non-empty and starts with a digit exactly for a non-negative one, and with `-` exactly for a negative one. |
| IntText.Parse | src/details.py:109 | `int` of a key succeeds exactly on an optionally signed, non-empty run of digits. |
| IntText.ParseShow | src/details.py:109 | A key written as `str(id)` reads back with `int` as `id`. |
| IntText.ShowInjective | src/details.py:148 | Distinct identifiers get distinct keys. |

## Left out

- Icon upload (`upload_item_icon` with `save_icons`) is not modelled; the model behaves as with `save_icons` false.
- HTTP requests, JSON decoding, the progress bar and its messages, the configuration file and file or cloud storage writes are not modelled. Replies, interrupts and times are parameters, and a save is a snapshot appended to a list. A failing storage write is not modelled.
- Time stamps are whole seconds, not ISO strings. A record's `updated_at` written by `isoformat()` is a `Stamp`, aware when it carries a UTC offset (src/details.py:202 via src/utilities.py:45) and naive when it does not (details.py:191). The selection loop raises on a naive stamp, since it cannot be compared with the aware cutoff, and on any other value, as if `fromisoformat` always rejected it; a string holding an ISO time that no cleaner wrote is not modelled.
- The document's top-level `updated_at` is kept as a whole-second time, without the naive or aware distinction between details.py:205 and src/details.py:212; nothing in the model reads it back.
- Details.RandomlySelectIds: the cutoff is computed from a single clock reading, whereas the source reads the clock once per entry.
- Details.ItemDocument.FetchItemDetails: the clean and the checkpoint of one iteration share one clock reading, whereas the source reads the clock in each.
- ItemStore.SaveFailsIffIdMissing: the `id` sort key must be an integer; the source would also sort records whose ids are all strings, sorts `bool` ids as integers, and does not raise for a single record whatever its `id` (with one element `sorted` compares nothing, though it still evaluates the key, so a missing `id` raises). Sort stability is not stated, though insertion sort is stable.
- IntText.Parse: `int()`'s tolerance of surrounding whitespace, of underscores between digits and of non-ASCII decimal digits (such as "３" or "٣") is not modelled.
- `wait` is a real number passed to the sleep input. A negative wait, which makes `time.sleep` raise, is not modelled.
- JSON reloading, which turns the older fetcher's integer keys into strings between runs, is not modelled; `LegacyDetails.Key` keeps both forms.
- Prices: the order of keys in the merged price dict is not modelled; it is a map.
- Prices.FetchItemPrices: `time.sleep(wait)` after each chunk is not modelled. An interrupt there would raise.
- `generate_*` helpers, `main.py`, the Airflow pipelines and the cloud and BigQuery handlers are not part of this model.
