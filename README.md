# compute-xstrk, modelled in Dafny

compute-xstrk keeps two tables about holders of the xSTRK token on Starknet.

- **The Transfer-event indexer** (`indexers/receiver.starknet.indexer.ts`) reads blocks from an Apibara stream. For every Transfer event of a block it writes one row to the `users` table. The row carries the recipient address, normalised by `standardise`, plus the block number, the event's position and the block time. A block whose number is missing or zero is skipped. A block without events writes nothing.
- **The holdings backfill** (`src/index.ts`) runs over every known user. For each user it lists the days from 2024-12-26 up to now and drops the days whose `YYYY-MM-DD` date is already stored for that user. It works through the remaining days seven at a time. Each day costs one request to a holdings API. The records that come back are written with one bulk insert per week that produced any. Users are handled five at a time, and their insert counts are summed.
- **Address normalisation and `tryCatch`** (`src/utils.ts`). `standardise` maps any spelling of an address to `0x` followed by lower-case hex. `tryCatch` turns a promise into a `Success`/`Failure` value.

The model consists of these files:

- `wrappers.dfy`: `Option`.
- `numerals.dfy` (module `Numerals`): the two starknet `num` conversions that `standardise` is built from.
- `utils.dfy` (module `Utils`): `standardise`, `tryCatch` and the `Result` type.
- `calendar.dfy` (module `Calendar`): day numbers, and the `toISOString().split("T")[0]` text of a day.
- `backfill.dfy` and `backfill_properties.dfy` (modules `Backfill` and `BackfillProperties`): the backfill, and what it guarantees.
- `receiver.dfy` (module `Receiver`): the indexer's `transform`.

How the model stands in for the outside world:

- **Days** are whole numbers of days since 1970-01-01 (UTC). "Now" is a parameter, `nowMs`.
- **The holdings API** is a function parameter `api` from (user, timestamp) to a reply, keyed the same way as the request URL.
- **Stored rows** are an input: a set of dates per user.
- **Inserts and requests** are returned as logs. Each method's contract ties its logs and its count to specification functions. The lemmas about those functions state what the code promises.

The backfill in `src/index.ts` makes a single request per day with no retry, works in batches of `BATCH_SIZE = 7` days, and creates a `pLimit(3)` for each user. Each call of `processUserHoldings` reads the clock (`new Date()`) for itself, so the model gives every user its own "now", `nowOf(user)`.

## Model

| member | source | states |
|---|---|---|
| Numerals.Render | src/utils.ts:34 | a number's digits in any base are non-empty, lower-case, and have no leading zero unless the number is 0 |
| Numerals.IsHexNumeral | src/utils.ts:34 | `num.isHex`, the pattern `/^0x[0-9a-f]*$/i`, bare `0x` included; Numerals.GetHexString returns text it accepts unchanged, and Numerals.ParseHexRendering shows that `HexOf(n)` is accepted |
| Numerals.IsWholeNumeral | src/utils.ts:34 | `num.isStringWholeNumber`, the pattern `/^\d+$/`; Numerals.WholeIsNotHex shows it never overlaps `num.isHex`, and Numerals.GetDecimalString returns only text it accepts |
| Numerals.ValueOfRender | src/utils.ts:34 | reading back the digits of `n` gives `n` |
| Numerals.RenderInjective | src/utils.ts:34 | different numbers get different digits |
| Numerals.GetDecimalString | src/utils.ts:34 | `num.getDecimalString` succeeds exactly on `0x`-hex with at least one digit or on decimal text, giving decimal digits of the same number; it throws on anything else, a bare `0x` included |
| Numerals.GetHexString | src/utils.ts:34 | `num.getHexString` returns hex text unchanged; decimal text becomes canonical hex text (`0x`, lower-case digits, no leading zero) that parses to the same number; anything else throws |
| Numerals.ParseDecimalRendering | src/utils.ts:34 | the decimal text of `n` parses to `n` |
| Numerals.ParseHexRendering | src/utils.ts:34 | `0x` plus the hex digits of `n` is hex text with at least one digit and parses to `n` |
| Numerals.WholeIsNotHex | src/utils.ts:34 | decimal text is never taken for hex, so the decimal result goes down the conversion path of `getHexString` |
| Utils.Standardise | src/utils.ts:29-36 | `standardise` succeeds exactly when the input denotes a natural number, a falsy input counting as `"0"`; the result is `0x` plus that number's lower-case hex with no leading zero |
| Utils.StandardiseFalsy | src/utils.ts:31-33 | `""`, `0n` and `undefined` all standardise as `"0"` does, to `"0x0"` |
| Utils.IsFalsy | src/utils.ts:31 | the `!address` guard: `""`, `0n` and `undefined` are falsy; Utils.StandardiseFalsy shows that each of them standardises as `"0"` does |
| Utils.JsString | src/utils.ts:34 | `_a.toString()`: a string is itself and a bigint is its signed decimal; Utils.StandardiseBigInt shows a non-negative bigint reads back as its value, and Utils.StandardiseNegativeThrows that the `-` of a negative one makes `standardise` throw |
| Utils.StandardiseIsJoinKey | src/utils.ts:29-36 | two addresses that standardise get the same result exactly when they denote the same number |
| Utils.StandardiseDecimalText | src/utils.ts:29-36 | the decimal text of `n` standardises to the hex of `n` |
| Utils.StandardiseHexText | src/utils.ts:29-36 | a canonical `0x` address standardises to itself |
| Utils.StandardiseBigInt | src/utils.ts:29-36 | a non-negative bigint `n` standardises to the hex of `n` |
| Utils.StandardiseIdempotent | src/utils.ts:29-36 | standardising a standardised address changes nothing |
| Utils.StandardiseNegativeThrows | src/utils.ts:34 | a negative bigint makes `standardise` throw |
| Utils.Result.Data | src/utils.ts:38-49 | `data` is set exactly on a `Success`, and is its value |
| Utils.Result.Error | src/utils.ts:38-49 | `error` is set exactly on a `Failure`, and is its reason |
| Utils.ExactlyOneField | src/utils.ts:38-49 | every `Result` has exactly one of `data` and `error` set |
| Utils.TryCatch | src/utils.ts:51-60 | a resolved promise gives a `Success` carrying the value with a null error; a rejected one gives a `Failure` carrying the reason with null data |
| Utils.TryCatchInjective | src/utils.ts:51-60 | different settlements give different results: `tryCatch` loses nothing |
| Calendar.DateInYear | src/index.ts:67 | the month and day for a day of a year form a valid date that falls on that day of the year |
| Calendar.DateOfDay | src/index.ts:67 | every day number has a valid Gregorian date |
| Calendar.DaysBeforeYearFormula | src/index.ts:81 | the days before 1 January of year `y` number 365 per year plus a leap day per leap year, by the Gregorian rule |
| Calendar.DayOfDateOfDay | src/index.ts:67 | the date of a day gives back that day |
| Calendar.DateOfDayOfDate | src/index.ts:81 | a valid date from 1970 on gives a day whose date is that date |
| Calendar.YearTextInjective | src/index.ts:67 | different years get different year texts, including the `+YYYYYY` form past 9999 |
| Calendar.DateTextInjective | src/index.ts:67 | different dates get different `YYYY-MM-DD` texts |
| Calendar.DateKey | src/index.ts:67 | the `YYYY-MM-DD` date of a day; BackfillProperties.FirstDates gives the first three keys and Calendar.DateKeyInjective shows that different days get different keys |
| Calendar.DateKeyInjective | src/index.ts:99-102 | different days get different date keys, so matching stored dates by text is exact |
| Backfill.Timestamp | src/index.ts:17 | a day's request timestamp is its midnight in whole seconds, `86400` per day |
| Backfill.FetchHoldings | src/index.ts:13-76 | the fetch yields a record exactly when the request succeeded, `blocks` has a first element and the amounts could be read; that record has the user, the day's date key and timestamp, the first block's number, and each of the five venue amounts and the total in its own field |
| Backfill.HasBlock | src/index.ts:24 | the guard `!data.blocks \|\| !data.blocks[0]` fails: the request was answered and `blocks` has a first element; Backfill.FetchHoldings gives a record only when it holds |
| Backfill.DaysUntil | src/index.ts:85-91 | the listed days are consecutive and start at 2024-12-26 |
| Backfill.DaysUntilExactly | src/index.ts:81-91 | a day is listed exactly when it is not before 2024-12-26 and its midnight is not after now; the list is ascending, and empty when now is before the start |
| Backfill.EnumerateDays | src/index.ts:85-91 | the `while (currentDate <= endDate)` loop produces exactly that list |
| Backfill.Unstored | src/index.ts:100-102 | filtering never adds days |
| Backfill.UnstoredMembers | src/index.ts:99-102 | a day is kept exactly when it was listed and its date key is not stored |
| Backfill.UnstoredAscending | src/index.ts:100-102 | the filter keeps the order |
| Backfill.StoredDates | src/index.ts:94-99 | `existingDates` for one user, empty when the user has no rows; Backfill.ProcessUserBatch and Backfill.FetchAndStoreHoldingsForAllUsers hand it to Backfill.ProcessUserHoldings, and BackfillProperties.InsertedRowsAreNew shows no inserted row repeats one of its dates |
| Backfill.PendingDays | src/index.ts:99-102 | `datesToProcess`: BackfillProperties.PendingExactly shows a day is in it exactly when it lies from the start day up to now and its key is not stored, in ascending order; Backfill.ProcessUserHoldings requests exactly these days |
| Backfill.FlattenChunks | src/index.ts:115-116 | the slices `slice(i, i + k)` for `i = 0, k, 2k, ...` laid end to end are the whole list |
| Backfill.Slice | src/index.ts:116 | `slice(i, i + k)` with the end clipped to the length; Backfill.ChunksStep shows the chunking takes it as the next batch and that the prefix before `i` plus it is the prefix before `i + k`; the same slice takes `userBatch` at src/index.ts:158 |
| Backfill.Chunks | src/index.ts:115-116 | the batches `slice(i, i + k)` for `i = 0, k, 2k, ...`; Backfill.FlattenChunks proves that laid end to end they are the list, and Backfill.ChunkSizes gives their sizes and number |
| Backfill.ChunkSizes | src/index.ts:115-116 | every slice is non-empty and at most `k` long; all slices but the last are exactly `k` long; there are `ceil(n / k)` of them |
| Backfill.FetchBatch | src/index.ts:119-123 | `Promise.all` gives one result per day of the batch, in the batch's order |
| Backfill.Present | src/index.ts:126 | `filter(Boolean)` keeps exactly the records, and no more of them than there were results; when every result is a record it keeps them all, in order |
| Backfill.Fetch | src/index.ts:121 | the fetch of one day for one user, its request answered by `api` at that day's timestamp; what it yields is stated by Backfill.FetchHoldings |
| Backfill.BatchInsert | src/index.ts:126-130 | one insert of the batch's records when there is at least one, none otherwise; BackfillProperties.BatchInsertsSizes states that it is at most one insert, non-empty and no larger than the batch |
| Backfill.Pauses | src/index.ts:138-140 | one pause between consecutive batches, none after the last; Backfill.ProcessUserHoldings and Backfill.FetchAndStoreHoldingsForAllUsers count their pauses with it |
| Backfill.ProcessUserHoldings | src/index.ts:78-144 | `processUserHoldings` requests exactly the pending days in order and issues exactly the planned inserts; it returns the number of rows inserted and pauses once between consecutive batches |
| Backfill.InsertedCount | src/index.ts:143 | what `processUserHoldings` returns; BackfillProperties.InsertsAreTheRecordsFound shows it is the number of days whose fetch found a record and at most the number of pending days, and Backfill.ProcessUserHoldings returns it |
| Backfill.ProcessUserBatch | src/index.ts:163-167 | the counts of one batch of users summed by `reduce` |
| Backfill.SumInserted | src/index.ts:154-168 | `totalRecordsInserted` over a list of users, each at its own clock; Backfill.SumInsertedAppend splits it over concatenation, Backfill.ProcessUserBatch and Backfill.FetchAndStoreHoldingsForAllUsers return it, and BackfillProperties.TotalZeroWhenAllStored shows it is 0 when every range is stored |
| Backfill.FetchAndStoreHoldingsForAllUsers | src/index.ts:146-183 | the total is the sum of every user's count, each user counted at the "now" it reads itself, and the run pauses once between consecutive batches of five users |
| Backfill.SumInsertedAppend | src/index.ts:154-168 | adding the counts batch by batch gives the sum over all users |
| BackfillProperties.FirstDates | src/index.ts:81 | the first three days of the backfill have the keys `2024-12-26`, `2024-12-27` and `2024-12-28` |
| BackfillProperties.PendingExactly | src/index.ts:81-102 | a day is requested exactly when it is between the start and now and its date is not stored; the requests are in ascending order |
| BackfillProperties.ThreeDayRun | src/index.ts:81-116 | on 2024-12-28 with nothing stored the three days from 2024-12-26 are requested in one batch; with 2024-12-26 stored only the two after it are |
| BackfillProperties.NothingPendingWhenAllStored | src/index.ts:99-110 | once every date of the range is stored a run requests nothing, inserts nothing, pauses never and returns 0 |
| BackfillProperties.BatchInsertsFlatten | src/index.ts:115-135 | laid end to end, the inserts of a sequence of batches are the records found for all of their days, in order |
| BackfillProperties.BatchInsertsSizes | src/index.ts:126-130 | a batch issues at most one insert, which is non-empty and no larger than the batch |
| BackfillProperties.InsertsAreTheRecordsFound | src/index.ts:115-143 | the rows inserted are exactly the records found for the pending days, in order; there is at most one insert per week, each of one to seven rows; the returned count is their number, at most the number of pending days |
| BackfillProperties.RowsOfOwner | src/index.ts:58-69 | every record found belongs to the user and is dated by one of the requested days |
| BackfillProperties.RowsOfDates | src/index.ts:58-69 | a day's date is among the records exactly when that day was requested and its fetch succeeded |
| BackfillProperties.RowsOfDistinct | src/index.ts:119-126 | requests for distinct days give records with distinct dates |
| BackfillProperties.InsertedRowsAreNew | src/index.ts:99-130 | every inserted row belongs to the user and has a date that was not stored, and no two inserted rows share a date |
| BackfillProperties.RerunRetriesOnlyFailures | src/index.ts:94-130 | a second run at the same or a later "now", with the first run's rows stored, requests exactly the days whose fetch failed the first time and the unstored days begun since the first run's "now" |
| BackfillProperties.RerunAfterSuccessIsEmpty | src/index.ts:94-110 | when every fetch of a run succeeds, a second run later on the same UTC day requests nothing |
| BackfillProperties.TotalZeroWhenAllStored | src/index.ts:146-168 | when every user has every date of its own range stored, up to the "now" that user reads, the whole run reports 0 |
| Receiver.RoundSeconds | indexers/receiver.starknet.indexer.ts:84 | `Math.round(ms / 1000)` is the nearest whole second, halves rounded up |
| Receiver.BlockIndexed | indexers/receiver.starknet.indexer.ts:64 | `header.blockNumber` is truthy: present and not zero; Receiver.Transform skips a block exactly when it is not |
| Receiver.RecipientKey | indexers/receiver.starknet.indexer.ts:79 | `event.keys[2]`, `undefined` when there are fewer than three keys; Receiver.FeltKeysBuild shows both cases standardise when the key is `0x` hex with a digit, and Receiver.SameRecipientSameRow that two events get the same `userAddress` exactly when their keys denote the same number |
| Receiver.RowFor | indexers/receiver.starknet.indexer.ts:78-86 | the row of one event, or nothing when `standardise` throws on its recipient; its fields are stated by Receiver.RowsShape |
| Receiver.Rows | indexers/receiver.starknet.indexer.ts:77-92 | `records`: one row per event in event order, stated by Receiver.RowsShape |
| Receiver.Transform | indexers/receiver.starknet.indexer.ts:57-105 | `transform` skips a block whose number is missing or zero and then writes nothing; if any recipient fails to standardise it throws and writes nothing; otherwise it writes one insert of one row per event in event order when there are events, and none when there are none |
| Receiver.RowsShape | indexers/receiver.starknet.indexer.ts:75-92 | one row per event, in order: the address is the standardised `keys[2]`; the transaction index, event index and hash come from the event; all rows share the block number as both `blockNumber` and `cursor`, and the rounded block time |
| Receiver.FeltKeysBuild | indexers/receiver.starknet.indexer.ts:79 | recipients written as `0x` hex with at least one digit, or missing, always standardise, so such a block never throws |
| Receiver.SameRecipientSameRow | indexers/receiver.starknet.indexer.ts:79 | two events get the same `userAddress` exactly when their recipients denote the same number |

## Left out

- HTTP and `axios`: the holdings API is the parameter `api`. The reply records only what the fetcher branches on: a thrown request, whether `blocks` has a first element, and whether the five venue amounts could be read.
- The venue amounts and their total: these are floating-point arithmetic and `Number.toString`. The model carries them as the reply's strings and does not compute the sum.
- `Number(...)` precision above 2^53, for block numbers and amounts: integers are unbounded in the model.
- Drizzle, `getDB`, the connection pool and the `drizzleStorage` plugin: stored rows are an input and inserts are returned as logs. A failing insert or select, which in the source aborts the run, is not modelled.
- Concurrency: `Promise.all` and `pLimit(3)` run in input order here. Only the order of results matters to the source, and `Promise.all` keeps it. The cap of three requests in flight is not modelled.
- The `setTimeout` delays of 1000 ms and 2000 ms are counted as pauses, not timed.
- Time zones: `currentDate.setDate(getDate() + 1)` steps in local time. The model steps whole UTC days, which is what the code does when run in UTC.
- Logging (`console`, `useLogger`) and the indexer's stream configuration (`defineIndexer`, filter, starting block).
- The code of the starknet `num` library is not in the repository. `Numerals` restates the behaviour of `getDecimalString` and `getHexString` for the inputs `standardise` passes to them.
- Stored dates: the model reads every user's stored dates from one map fixed before the run, while the source queries them per user inside `processUserHoldings` (src/index.ts:94-97), after earlier batches may have inserted rows. The two agree because the users are distinct and only a user's own call inserts that user's rows; so the contract of `fetchAndStoreHoldingsForAllUsers` requires the addresses to be distinct, as they are when they come from a query grouped by address.
- Backfill.FetchAndStoreHoldingsForAllUsers: the total is stated as the sum over users; which API requests and inserts each user makes is stated per user, by Backfill.ProcessUserHoldings.
- Utils.ExactlyOneField / Utils.TryCatchInjective: payloads are taken to be non-null. In the source a promise that resolves to `null` and one rejected with `null` both give `{ data: null, error: null }`, so neither field is set and the two cannot be told apart.
- Receiver.Transform: the error case says only that the transform throws before any insert, not which event threw first.
