# DPMB tram tracker — a Dafny model of its logging and query core

The bot polls the public vehicle feed of Brno's transit operator every 30 seconds. For every
tram with a position it records the sighting on disk:

- a per-day file per trip, written once;
- a per-vehicle history, which gains a line whenever the vehicle's trip changes.

Chat commands read this log back. The `*today` commands list every vehicle of one tram class
seen on a day, with its first and last time. The live commands list the vehicles of a class
that the feed currently shows, with a subtype for some classes. All of this lives in
`main.py`, and this project models its core:

| file | what it models |
|---|---|
| `wrappers.dfy` | `Option`, the model's stand-in for Python's `None`-or-value |
| `pystr.dfy` | the Python `str` operations the bot uses: `in`, `find`, `split`, `join`, `replace`, `startswith`, `endswith`, clamped slicing, and `<` on strings (proved a strict total order) |
| `classifier.dfy` | `int()` on labels, the six class predicates `is_t6` … `is_kt8`, and the subtype chains of the live T3, K2 and KT8D listings |
| `logstore.dfy` | `save_trip`: the trip file, the per-vehicle history with its "same trip as the last line" rule, the history line format and how it is read back. `FileStore` is the log directory as a class whose `files` map (path to lines) `SaveTrip` updates in place |
| `poller.dfy` | one round of `logger_loop` after the fetch: feed records, their defaults, the position filter, and the `save_trip` calls |
| `paging.dfy` | the 1900-character message slicing and the 20-fields-per-embed pagination loop |
| `windowquery.dfy` | the six `*today` commands: the directory scan that builds the per-vehicle dictionary, `min`/`max` by timestamp, `sorted` labels, the rows, the reply |
| `livelisting.dfy` | the six live commands: the `active` dictionary, the stable sort by `int(label)`, the fields, and the reply |

The model follows the code as written, including two behaviours the authors evidently did not
intend:

- `is_k2` returns `1080 or 1123 or 1018`. Python evaluates that to 1080, which is truthy, so
  every label that `int()` accepts counts as K2 (`Classifier.IsK2IgnoresNumber`,
  `Classifier.EveryClassIsAlsoK2`).
- The fourth test of the T3 subtype chain is `num == 1661 <= num <= 1666`. That chained
  comparison holds only for 1661 (`Classifier.T3ROnly1661`).

Python's `max` with a key returns the *first* of several greatest elements, not the latest
one. `WindowQuery.MaxFrom` models that. Only the timestamp of that element is shown, so the
choice does not change the reply.

The clock readings, the feed response and the directory listing are parameters:

- `Stamp(today, ts)` holds the two `datetime.now()` readings of one `save_trip` call.
- `Fetch` and `Response` are the outcome of the HTTP request.
- `listing` is the result of `os.listdir`.

## Model

| member | source | states |
|---|---|---|
| PyStr.Find | main.py:106 | the index found is where the separator first occurs, and `None` means it occurs nowhere |
| PyStr.Split | main.py:106 | `split` always yields at least one part, and yields two or more exactly when the separator occurs |
| PyStr.JoinSplit | main.py:292 | joining the parts of a split with the separator gives back the string (so `replace(p, "")` deletes every occurrence of `p`) |
| PyStr.ReplaceDoubledSuffix | main.py:292 | `replace` removes every occurrence: a suffix written twice after a word free of its first character leaves the word |
| PyStr.Slice | main.py:312 | `s[i:j]` is clamped to the string: it has `min(j, len(s)) - i` characters (none when that is not positive), character k being `s[i + k]` |
| PyStr.StrLtStrictTotalOrder | main.py:309 | Python's `<` on strings is irreflexive, transitive and total, so `sorted`, `min` and `max` on strings are well defined |
| Classifier.ParseInt | main.py:33 | `int()` rejects the empty string, turns a run of digits into a non-negative number, and gives a negative number only after a leading `-` |
| Classifier.ParseDecimal | main.py:30-36 | `int(str(n)) == n` for every integer `n` |
| Classifier.IsT6 | main.py:30-36 | `is_t6` holds exactly when `int()` accepts the label and its value lies in 1200–1299 |
| Classifier.IsT2 | main.py:38-44 | `is_t2` holds exactly when `int()` accepts the label and its value lies in 1425–1426 |
| Classifier.IsK2 | main.py:46-52 | `is_k2` is truthy exactly when `int()` accepts the label, and then its value is 1080 |
| Classifier.IsK3 | main.py:54-60 | `is_k3` holds exactly when `int()` accepts the label and its value lies in 1750–1753 |
| Classifier.IsT3 | main.py:62-68 | `is_t3` holds exactly when `int()` accepts the label and its value lies in 1500–1699 |
| Classifier.IsKT8 | main.py:70-76 | `is_kt8` holds exactly when `int()` accepts the label and its value lies in 1700–1749 |
| Classifier.RangePredicates | main.py:30-76 | the label `str(n)` passes `is_t6`, `is_t2`, `is_k3`, `is_t3`, `is_kt8` exactly when `n` lies in 1200–1299, 1425–1426, 1750–1753, 1500–1699, 1700–1749, and `is_k2` returns 1080 for it whatever `n` is |
| Classifier.UnparsableMatchesNothing | main.py:30-76 | a label `int()` rejects belongs to no class, K2 included |
| Classifier.IsK2IgnoresNumber | main.py:46-52 | `is_k2` gives the same truthy value for any two parsable labels, whatever their numbers |
| Classifier.EveryClassIsAlsoK2 | main.py:46-52 | every vehicle of any class also passes `is_k2` |
| Classifier.MatchesParses | main.py:382 | a label that passes any class test parses, so sorting by `int(label)` cannot raise |
| Classifier.FirstMatch | main.py:346-362 | a table lookup returns the name of the first row covering the number, or the fallback when no row does |
| Classifier.T3SubtypeIsFirstMatch | main.py:346-362 | the T3 `if/elif` chain is the first-match lookup in the table of its seven rows, with fallback "T3 (ismeretlen)" |
| Classifier.T3SubtypeOf | main.py:346-362 | the T3 chain gives one of its eight names, "Tatra T3R" exactly for 1661, and never the fallback for 1661 or a number of the 1653–1658 range |
| Classifier.T3ROnly1661 | main.py:353-354 | among 1661–1666 only 1661 is "Tatra T3R"; the others fall through to later rows |
| Classifier.SignedT3LabelIsUnknown | main.py:346-362 | a signed label such as "+1604" passes `is_t3` but is not `isdigit()`, so it gets number 0 and "T3 (ismeretlen)" |
| Classifier.KT8D5NExactly | main.py:860-864 | a KT8 label gets "Tatra KT8D5N" exactly for 1729–1735 |
| Classifier.KT8Subtype | main.py:859-864 | the KT8D subtype is one of its two names, and "Tatra KT8D5N" exactly when the label's number lies in 1729–1735 |
| Classifier.K2SubtypeOfNumber | main.py:655-661 | the K2 subtype is "Tatra K2R-RT" for 1018, "Tatra K2P" for 1080, and "Tatra K2YU *nosztalgia*" for every other number |
| Classifier.K2Subtype | main.py:655-661 | the K2 subtype is one of its three names, "Tatra K2R-RT" exactly for number 1018 and "Tatra K2P" exactly for 1080 |
| LogStore.WordAfter | main.py:106 | `s.split(key)[1].split(" ")[0]` succeeds exactly when the key occurs, and yields a word with no space |
| LogStore.FileStore.SaveTrip | main.py:78-110 | the directory after the call is `Saved(old files, e)`, and every existing file keeps its old lines as a prefix |
| LogStore.WithTripFile | main.py:87-97 | after the first half of `save_trip` the trip file exists, every file that existed is unchanged, and the only file it can create is the trip file, holding the six-line record |
| LogStore.WithVehicleLine | main.py:100-110 | after the second half the history exists and extends its old lines by at most one line, and no other file is created or changed |
| LogStore.Saved | main.py:78-110 | the paths present after one `save_trip` call are the old paths plus the event's trip file and history, and no other (the prefix and unchanged-elsewhere halves are `SavedOnlyGrows` and `SavedElsewhereUnchanged`) |
| LogStore.LogLineTs | main.py:300 | `split(" - ")[0]` of a history line is the timestamp it was written with |
| LogStore.IdKeyAt | main.py:110 | "ID " first occurs in a history line right after the timestamp and its separator |
| LogStore.VonalKeyAt | main.py:110 | "Vonal " first occurs right after the trip field, for any spaceless trip not ending in "Vonal" |
| LogStore.LogLineTripId | main.py:106 | the trip read back from a history line is the trip it was written for |
| LogStore.LogLineLine | main.py:302 | the line number read back from a history line is the line it was written for, whenever trip and line are spaceless and do not end in "Vonal" |
| LogStore.EventLineFields | main.py:300-302 | timestamp, trip and line round-trip through a written line, whatever follows it (such as its line break) |
| LogStore.LastTripIdAfterAppend | main.py:102-107 | after a line is appended, the history names that line's trip last |
| LogStore.PathsDistinct | main.py:83-100 | a trip file and a vehicle history never share a path |
| LogStore.VehiclePathInjective | main.py:100 | distinct vehicles have distinct history files |
| LogStore.TripFileWriteOnce | main.py:87-97 | the trip file is created with the six-line first-sighting record when missing, and left unchanged when present |
| LogStore.VehicleAppendRule | main.py:100-110 | the history gains exactly the event's line when the last line names another trip or none; otherwise it is unchanged |
| LogStore.SavedElsewhereUnchanged | main.py:78-110 | no file other than the event's trip file and history is created or changed |
| LogStore.SavedOnlyGrows | main.py:78-110 | no file disappears, and every file keeps its old content as a prefix |
| LogStore.SavedLastTripId | main.py:100-110 | after the call, the vehicle's history names the event's trip last |
| LogStore.SavedIdempotent | main.py:78-110 | saving the same observation again on the same day, at any later time, changes nothing |
| LogStore.OtherVehicleUntouched | main.py:100-110 | another vehicle's event leaves a history unchanged |
| LogStore.HistoryStep | main.py:100-110 | one call adds to a history exactly what the reference `Appended` says, and updates the trip it names last |
| LogStore.HistoryAfterSaveAll | main.py:100-110 | after any run of calls a history is its old lines plus one line per change of trip among that vehicle's events; dedup looks only at the previous line |
| LogStore.SameTripLoggedOnce | main.py:100-110 | trips A, A, A for one vehicle give one history line |
| LogStore.ReturningTripLoggedAgain | main.py:100-110 | trips A, B, A give three history lines |
| Poller.Events | main.py:136-149 | a round makes at most one `save_trip` call per record |
| Poller.ObservationOf | main.py:138-141 | a missing `Course`, `LineName`, `ID` or `FinalStopName` gives "Unknown", "Ismeretlen", "Unknown", "Ismeretlen"; a `null` `ID` becomes "None", a text `ID` is used as it is |
| Poller.HasPosition | main.py:142-146 | a record has a position exactly when both `Lat` and `Lng` hold a value, neither missing nor `null` |
| Poller.PollOnce | main.py:136-149 | the loop leaves the directory as the reference fold `Polled` says; a failed fetch changes nothing |
| Poller.EventsAppend | main.py:136-149 | the calls for consecutive parts of the feed are consecutive |
| Poller.EventsFromPositioned | main.py:143-149 | every call comes from a record with a position, with that record's fields and defaults |
| Poller.PositionedRecordSaved | main.py:143-149 | every record with a position is saved, with its own observation and clock readings |
| Poller.NoPositionNoEvents | main.py:145-146 | a feed none of whose records has both `Lat` and `Lng` (present and not `null`) saves nothing; with `EventsAppend` this skips each such record wherever it stands |
| Poller.NumericIdClassified | main.py:138 | a numeric `ID` reaches the class tests unchanged |
| Poller.MissingIdMatchesNoClass | main.py:138 | a record without an `ID`, or with a `null` one, is saved under a label of no class |
| Poller.PolledHistory | main.py:136-149 | after a successful round each history is its old lines plus one line per trip change among the round's records for that vehicle |
| Paging.Chunk | main.py:314-316 | the slices put back together are the message, each holds 1–1900 characters, all but the last exactly 1900, and there are ⌈len/1900⌉ of them |
| Paging.Paginate | main.py:377-395 | the embeds hold the fields in order, the first has the main title and the others the continuation title, each holds at most 20 and all but the last exactly 20, and with any field none is empty |
| WindowQuery.Collect | main.py:290-303 | the outer directory loop builds the dictionary the reference scan `Collected` describes, or stops where a line fails to parse |
| WindowQuery.ReadHistory | main.py:297-303 | the inner loop over one file adds what the reference `AddLines` describes |
| WindowQuery.ListedVehicle | main.py:290-295 | a directory entry is read only when its name ends in ".txt" and the name with every ".txt" removed passes the class test, and then that stripped name is the label |
| WindowQuery.ParseEntry | main.py:300-302 | a day line parses exactly when it contains both "ID " and "Vonal "; the entry holds its `" - "` timestamp field and space-free trip and line words |
| WindowQuery.AddedCons | main.py:303 | two `setdefault(reg, []).append` steps add the same entries as one step that adds both |
| WindowQuery.AddLinesIsDayEntries | main.py:297-303 | reading a file adds exactly its lines of the day, parsed, under its label, and creates the key only if there is one |
| WindowQuery.DayEntriesOfDay | main.py:299-300 | for a day written without spaces, every stored timestamp starts with the day |
| WindowQuery.DayEntriesNonEmpty | main.py:298-303 | a file with a line of the day contributes an entry |
| WindowQuery.AddFilesWellFormed | main.py:290-303 | the scan keeps its invariant (labels pass the class test, non-empty entry lists, entries of the day) and never drops a label |
| WindowQuery.CollectedSound | main.py:290-303 | every reported vehicle passes the class test, has an entry, and has only entries of the day |
| WindowQuery.CollectedComplete | main.py:290-303 | every listed vehicle of the class with a line of the day is reported |
| WindowQuery.FileOfDayReported | main.py:293-303 | reading a listed file that has a line of the day puts its label in the dictionary, whatever the dictionary held before |
| WindowQuery.AddFilesSplit | main.py:290-303 | scanning a listing is scanning a prefix of it and then the rest from the dictionary the prefix built; a raise in the prefix ends the scan |
| WindowQuery.AddFilesKeysGrow | main.py:290-303 | the scan never removes a label |
| WindowQuery.HistoryFileListed | main.py:290-293 | a vehicle's history file is listed under that vehicle's own label |
| WindowQuery.DoubledSuffixFolds | main.py:291-293 | a file named with ".txt" twice is read under the same label as the one named with it once |
| WindowQuery.WrittenLineParses | main.py:299-302 | a line `save_trip` wrote is read back as the entry it was written from, and is of a day exactly when its timestamp is |
| WindowQuery.MinFrom | main.py:310 | `min(..., key=ts)` returns an entry whose timestamp is least, and no earlier entry ties with it |
| WindowQuery.MaxFrom | main.py:311 | `max(..., key=ts)` returns an entry whose timestamp is greatest, and no earlier entry ties with it |
| WindowQuery.FirstAndLast | main.py:310-312 | first ≤ every timestamp ≤ last; on ties the line number comes from the earliest-stored minimal entry |
| WindowQuery.SortedLabels | main.py:309 | `sorted(t3s)` is strictly increasing and holds exactly the dictionary's labels |
| WindowQuery.SortedUnique | main.py:309 | two strictly sorted orders of the same labels are equal, so the order of the rows does not depend on the listing order |
| WindowQuery.TimeOfDay | main.py:312 | `[11:16]` of a timestamp is its `HH:MM` |
| WindowQuery.RowText | main.py:312 | a row starts with the label and its separator and ends with the line number of the first entry |
| WindowQuery.SummaryMessages | main.py:308-316 | the messages are slices of exactly 1900 characters except a shorter, non-empty last one, and concatenate to the header plus one row per label in sorted order |
| WindowQuery.DailyReply | main.py:285-316 | a whole `*today` command: it raises exactly when a day line fails to parse, says "no service" exactly on an empty result, and otherwise sends the sorted summary in 1900-character slices |
| LiveListing.ActiveOf | main.py:331-371 | the `active` dictionary holds each key once in its key order, and its order and its keys are the same set; `ActiveInsertionOrder` shows the order is insertion order |
| LiveListing.Put | main.py:364-371 | `active[label] = info` maps the label to the new data, keeps every other key's data, keeps the existing keys in place and appends a new key at the end, so keys stay distinct |
| LiveListing.ActiveInsertionOrder | main.py:364-371 | of two labels, the one whose first admitted record comes earlier in the feed comes earlier in the dictionary's key order |
| LiveListing.UnlistedLabelAbsent | main.py:331-371 | a label that no admitted record carries is not a key |
| LiveListing.CollectActive | main.py:331-371 | the loop over the feed builds the dictionary `ActiveOf` describes |
| LiveListing.ListedRecordActive | main.py:331-371 | every record that passes the class test and has a position is listed under its label |
| LiveListing.ActiveLabelListed | main.py:331-371 | every listed label comes from a record of the feed that passes the class test and has a position |
| LiveListing.ActiveLastWins | main.py:364-371 | a label's data comes from the last record with that label |
| LiveListing.ActiveLabelsMatch | main.py:340-341 | every listed label passes the class test and parses as an integer |
| LiveListing.OrderEmptyIff | main.py:373-374 | `if not active` holds exactly when no label was listed |
| LiveListing.InsertSorted | main.py:382 | inserting after every element with a key not greater keeps the order sorted by key |
| LiveListing.InsertLastOfKey | main.py:382 | the same insertion puts the element last among those with its key |
| LiveListing.InsertByKey | main.py:382 | one sorting step keeps the order sorted, adds exactly the new element, and puts it last among those with its key |
| LiveListing.StableSort | main.py:382 | `sorted(..., key=int(label))` is ordered by key, a permutation of its input, and stable |
| LiveListing.SortByNumber | main.py:382 | the labels come out in the order of a stable sort by their number |
| LiveListing.StableSortUnique | main.py:382 | a stable sort by key has exactly one result |
| LiveListing.SortedLabelsDetermined | main.py:382 | any two stable sorts of the labels give the same label order |
| LiveListing.SortedTagsListed | main.py:382-392 | every sorted label has data in the dictionary |
| LiveListing.FieldValue | main.py:388-391 | a field's value starts with the subtype line when the listing has one, else with the line; it ends with the destination |
| LiveListing.LiveReply | main.py:319-397 | a whole live command: the error text for a bad status or an exception; "Nincs aktív" exactly when nothing is listed; otherwise embeds with one field per listed vehicle, in stable order by number, at most 20 per embed, with the right titles |

## Left out

- The chat service is not modelled: the client setup, command dispatch, `ctx.send` and `discord.Embed`. Replies are modelled as the strings or field lists that would be sent, and embed colours are dropped.
- The HTTP request, its timeout, the BOM-stripping decode and `json.loads` are I/O. Their outcome is a parameter: `Fetch` for the logger and `Response` for the live commands.
- A decoded body that is not a JSON object, or a `Vehicles` element that is not one, is not modelled. It would raise outside the `try`.
- `tasks.loop` scheduling, `on_ready` and the lock-file check at the top of `main.py` are process plumbing, and are not modelled.
- The clock is a parameter. The two `datetime.now()` calls of `save_trip` are passed as separate values that need not agree, so a call that straddles midnight is allowed.
- `os.makedirs` and the real filesystem are replaced by a map from path to lines.
- `os.listdir` order is a parameter. The order of the rows does not depend on it (`WindowQuery.SortedUnique`), but a row's contents can. `replace(".txt", "")` removes every occurrence, so "1604.txt" and "1604.txt.txt" are both read under "1604" (`WindowQuery.DoubledSuffixFolds`). Their lines go into one entry list in listing order, and when first timestamps tie, `min` keeps the earlier-listed entry, whose line number the row shows. The model keeps this dependence and promises nothing about the reply being independent of the listing.
- `int()` is modelled as an optional sign followed by ASCII digits. Surrounding whitespace, underscores and non-ASCII digits are not accepted, although Python accepts them.
- `isdigit()` is likewise ASCII-only.
- `Lat`/`Lng` and the other feed values are modelled as absent, `null`, an integer or a string. Floats are not modelled; only whether a position is present matters to the logic.
- `str()` of a feed value covers those kinds only.
- History files are lists of lines, each read back with its line break, as `save_trip` writes them. A hand-edited file whose last line lacks a break, or a field value containing a line break, is not modelled.
- Paths are plain strings here, and every write succeeds. In the code, a vehicle label or a trip id containing `/` names a subdirectory that does not exist, so `open` raises. That aborts the rest of the logger round; the model writes the file and goes on. A label containing `..` would write outside the history directory.
- A feed whose `Vehicles` value is `null` is read as an empty list (`Payload(None)` gives no records). In the code, `data.get("Vehicles", [])` returns `None`, iterating it raises `TypeError` and the round ends without saving anything. The files end the same either way.
- The deduplication lemmas (`LogStore.LastTripIdAfterAppend` through `LogStore.ReturningTripLoggedAgain`, and `Poller.PolledHistory`) assume a trip id without spaces that does not end in "ID", and nothing about the line. For other trip ids, `save_trip` reads a different id back from the last line, so it appends a new history line on every poll, even while the vehicle stays on the same trip. The model computes this, but no lemma states it.
- The commented-out `dpmbtatra` command is dead code and is not modelled.
- LogStore.EventLineFields: the read-back is proved only over well-formed timestamps, for a trip with no space that ends in neither "ID" nor "Vonal" and a line with no space that does not end in "Vonal". For any other trip or line the code itself reads back a different word: a space cuts the word short, and a trailing "ID" or "Vonal" makes the key "ID " or "Vonal " occur inside the field.
- WindowQuery.DayEntriesOfDay: "every entry is of the day" is proved only for a day string without spaces. A `date` argument containing " - " cuts the timestamp field short.
- WindowQuery.DailyReply: it states that a summary *exists* with the sorted labels, not which sort produced it. `WindowQuery.SortedUnique` shows there is only one.
- LiveListing.LiveReply: the embed fields are stated through `StablySorted`, whose uniqueness is proved separately in `LiveListing.StableSortUnique`.
