/**
 * src/index.ts: the per-user, per-day holdings backfill. For one user it
 * lists every day from the fixed start date to "now", drops the days whose
 * date is already stored, and works through the rest a week at a time:
 * one API request per day, one bulk insert per week that produced at least
 * one record. Users are handled five at a time and their counts summed.
 *
 * The HTTP API is an oracle (`api`, keyed like the request URL by user and
 * timestamp), the stored rows are an input, and the database inserts and
 * API requests are returned as logs.
 */
module Backfill {
  import opened Wrappers
  import opened Calendar

  /** `new Date("2024-12-26")`: the first day of the backfill. */
  const StartDay: Day := 20083
  const MsPerDay: nat := 86_400_000
  /** `BATCH_SIZE`: days per batch ("a week at a time"). */
  const BatchSize: nat := 7
  /** `USER_BATCH_SIZE`: users per batch. */
  const UserBatchSize: nat := 5

  /** The five venue amounts and their total as the fetcher writes them (computed in floating point). */
  datatype Valuation = Valuation(vesu: string, ekubo: string, nostraLending: string,
                                 nostraDex: string, wallet: string, total: string)

  /**
   * What one API request gives: a thrown error, or a response whose `blocks`
   * list may be missing and whose venue lists may be unusable (a missing or
   * empty list throws while the amounts are read, shown as `None`).
   */
  datatype Reply =
    | RequestFailed
    | Response(blocks: Option<seq<int>>, valuation: Option<Valuation>)

  /** A row of the `xstrk_holdings` table. */
  datatype Holding = Holding(userAddress: string, blockNumber: int,
                             vesuAmount: string, ekuboAmount: string, nostraLendingAmount: string,
                             nostraDexAmount: string, walletAmount: string, totalAmount: string,
                             date: string, timestamp: int)

  /** `Math.floor(date.getTime() / 1000)` for the midnight that starts day `d`. */
  function Timestamp(d: Day): (t: int)
    ensures t == d * 86400
  {
    d * MsPerDay / 1000
  }

  /** The response carries a first block, so the fetcher goes on to read the amounts. */
  predicate HasBlock(reply: Reply) {
    reply.Response? && reply.blocks.Some? && |reply.blocks.value| > 0
  }

  /**
   * `fetchHoldingsForDateAndUser` after its request has been answered: null
   * when the request threw, when `blocks` is missing or empty, or when reading
   * the amounts threw; otherwise the holding row for `user` and `day`.
   */
  function FetchHoldings(day: Day, user: string, reply: Reply): (r: Option<Holding>)
    ensures r.Some? <==> HasBlock(reply) && reply.valuation.Some?
    ensures r.Some? ==> && r.value.userAddress == user
                        && r.value.date == DateKey(day)
                        && r.value.timestamp == Timestamp(day)
                        && r.value.blockNumber == reply.blocks.value[0]
                        && r.value.vesuAmount == reply.valuation.value.vesu
                        && r.value.ekuboAmount == reply.valuation.value.ekubo
                        && r.value.nostraLendingAmount == reply.valuation.value.nostraLending
                        && r.value.nostraDexAmount == reply.valuation.value.nostraDex
                        && r.value.walletAmount == reply.valuation.value.wallet
                        && r.value.totalAmount == reply.valuation.value.total
  {
    if !HasBlock(reply) then None
    else match reply.valuation
      case None => None
      case Some(v) =>
        Some(Holding(user, reply.blocks.value[0], v.vesu, v.ekubo, v.nostraLending,
                     v.nostraDex, v.wallet, v.total, DateKey(day), Timestamp(day)))
  }

  /** The fetch of one day for one user, its request answered by the oracle. */
  function Fetch(user: string, day: Day, api: (string, int) -> Reply): Option<Holding> {
    FetchHoldings(day, user, api(user, Timestamp(day)))
  }

  // ---------------------------------------------------------------- the days

  /** Strictly ascending. */
  predicate Ascending(s: seq<Day>) {
    forall i, j :: 0 <= i < j < |s| ==> s[i] < s[j]
  }

  /** `dates`: the days from the start whose first instant is not after `nowMs`, one after another. */
  function DaysUntil(nowMs: int): (r: seq<Day>)
    ensures forall i :: 0 <= i < |r| ==> r[i] == StartDay + i
  {
    var last := nowMs / MsPerDay;
    seq(if last >= StartDay then last - StartDay + 1 else 0, i => StartDay + i)
  }

  /** The range holds exactly the days from the start whose first instant is not after `nowMs`, with no repeats. */
  lemma DaysUntilExactly(nowMs: int)
    ensures forall d: int :: d in DaysUntil(nowMs) <==> StartDay <= d && d * MsPerDay <= nowMs
    ensures Ascending(DaysUntil(nowMs))
    ensures StartDay * MsPerDay > nowMs ==> DaysUntil(nowMs) == []
  {
    var r := DaysUntil(nowMs);
    forall d: int | StartDay <= d && d * MsPerDay <= nowMs
      ensures d in r
    {
      assert d <= nowMs / MsPerDay;
      assert r[d - StartDay] == d;
    }
  }

  /** `datesToProcess`: the days whose date key is not among the stored dates, in their order. */
  function Unstored(days: seq<Day>, stored: set<string>): (r: seq<Day>)
    ensures |r| <= |days|
  {
    if |days| == 0 then []
    else (if DateKey(days[0]) in stored then [] else [days[0]]) + Unstored(days[1..], stored)
  }

  /** A day is left to process exactly when it is in the range and its date is not stored. */
  lemma {:induction false} UnstoredMembers(days: seq<Day>, stored: set<string>, d: Day)
    ensures d in Unstored(days, stored) <==> d in days && DateKey(d) !in stored
  {
    if |days| > 0 {
      UnstoredMembers(days[1..], stored, d);
      var head := if DateKey(days[0]) in stored then [] else [days[0]];
      assert Unstored(days, stored) == head + Unstored(days[1..], stored);
      assert d in days <==> d == days[0] || d in days[1..];
    }
  }

  lemma AscendingTail(days: seq<Day>)
    requires Ascending(days) && |days| > 0
    ensures Ascending(days[1..])
    ensures forall d :: d in days[1..] ==> days[0] < d
  {
    var tail := days[1..];
    forall i, j | 0 <= i < j < |tail|
      ensures tail[i] < tail[j]
    {
      assert tail[i] == days[i + 1] && tail[j] == days[j + 1];
    }
    forall d | d in tail
      ensures days[0] < d
    {
      var k :| 0 <= k < |tail| && tail[k] == d;
      assert days[k + 1] == d;
    }
  }

  lemma AscendingCons(x: Day, rest: seq<Day>)
    requires Ascending(rest) && forall d :: d in rest ==> x < d
    ensures Ascending([x] + rest)
  {
    var r := [x] + rest;
    forall i, j | 0 <= i < j < |r|
      ensures r[i] < r[j]
    {
      assert r[j] == rest[j - 1];
      assert rest[j - 1] in rest;
      if i > 0 {
        assert r[i] == rest[i - 1];
      }
    }
  }

  /** Filtering keeps the order: an ascending range stays ascending. */
  lemma {:induction false} UnstoredAscending(days: seq<Day>, stored: set<string>)
    requires Ascending(days)
    ensures Ascending(Unstored(days, stored))
  {
    if |days| > 0 {
      var tail := days[1..];
      AscendingTail(days);
      UnstoredAscending(tail, stored);
      var rest := Unstored(tail, stored);
      if DateKey(days[0]) !in stored {
        forall d | d in rest
          ensures days[0] < d
        {
          UnstoredMembers(tail, stored, d);
        }
        AscendingCons(days[0], rest);
      }
    }
  }

  /** The days of the range that still need a fetch. */
  function PendingDays(nowMs: int, stored: set<string>): seq<Day> {
    Unstored(DaysUntil(nowMs), stored)
  }

  // ---------------------------------------------------------------- batches

  function Flatten<T>(ss: seq<seq<T>>): seq<T> {
    if |ss| == 0 then [] else Flatten(ss[..|ss| - 1]) + ss[|ss| - 1]
  }

  /** The slices `s.slice(i, i + k)` for `i = 0, k, 2k, ...`. */
  function Chunks<T>(s: seq<T>, k: nat): seq<seq<T>>
    requires k > 0
    decreases |s|
  {
    if |s| == 0 then []
    else if |s| <= k then [s]
    else [s[..k]] + Chunks(s[k..], k)
  }

  /** Laid end to end, the slices are the whole sequence. */
  lemma {:induction false} FlattenChunks<T>(s: seq<T>, k: nat)
    requires k > 0
    ensures Flatten(Chunks(s, k)) == s
    decreases |s|
  {
    if 0 < |s| <= k {
      assert Flatten([s]) == Flatten([s][..0]) + s;
    } else if |s| > k {
      FlattenChunks(s[k..], k);
      FlattenCons(s[..k], Chunks(s[k..], k));
      assert s[..k] + s[k..] == s;
    }
  }

  /**
   * Every slice is non-empty, every slice but the last holds exactly `k`
   * elements, the last at most `k`, and there are `ceil(|s| / k)` of them.
   */
  lemma {:induction false} ChunkSizes<T>(s: seq<T>, k: nat)
    requires k > 0
    ensures forall i :: 0 <= i < |Chunks(s, k)| ==> 0 < |Chunks(s, k)[i]| <= k
    ensures forall i :: 0 <= i < |Chunks(s, k)| - 1 ==> |Chunks(s, k)[i]| == k
    ensures (|Chunks(s, k)| - 1) * k < |s| <= |Chunks(s, k)| * k
    decreases |s|
  {
    if |s| > k {
      ChunkSizes(s[k..], k);
      var rest := Chunks(s[k..], k);
      var c := |rest|;
      assert Chunks(s, k) == [s[..k]] + rest;
      assert (c + 1) * k == c * k + k;
      assert c * k == (c - 1) * k + k;
    }
  }

  lemma {:induction false} FlattenCons<T>(x: seq<T>, ss: seq<seq<T>>)
    ensures Flatten([x] + ss) == x + Flatten(ss)
    decreases |ss|
  {
    if |ss| > 0 {
      var xs := [x] + ss;
      assert xs[..|xs| - 1] == [x] + ss[..|ss| - 1];
      FlattenCons(x, ss[..|ss| - 1]);
    } else {
      assert [x] + ss == [x];
      assert [x][..0] == [];
    }
  }

  lemma FlattenSnoc<T>(ss: seq<seq<T>>, x: seq<T>)
    ensures Flatten(ss + [x]) == Flatten(ss) + x
  {
    assert (ss + [x])[..|ss|] == ss;
  }

  /** `i` elements dropped from the front (the empty sequence once `i` passes the end). */
  function Drop<T>(s: seq<T>, i: nat): seq<T> {
    if i >= |s| then [] else s[i..]
  }

  /** The first `i` elements (all of them once `i` passes the end). */
  function Take<T>(s: seq<T>, i: nat): seq<T> {
    if i >= |s| then s else s[..i]
  }

  /** `s.slice(i, i + k)`. */
  function Slice<T>(s: seq<T>, i: nat, k: nat): seq<T>
    requires i < |s|
  {
    s[i..if i + k < |s| then i + k else |s|]
  }

  lemma ChunksStep<T>(s: seq<T>, i: nat, k: nat)
    requires k > 0 && i < |s|
    ensures Chunks(Drop(s, i), k) == [Slice(s, i, k)] + Chunks(Drop(s, i + k), k)
    ensures Take(s, i) + Slice(s, i, k) == Take(s, i + k)
    ensures Drop(s, i + k) == [] <==> i + k >= |s|
  {
    var rest := s[i..];
    if i + k < |s| {
      assert rest[..k] == s[i..i + k];
      assert rest[k..] == s[i + k..];
    } else {
      assert rest == s[i..|s|];
    }
  }

  /** The number of pauses between `n` batches: one before every batch but the first. */
  function Pauses(n: nat): nat {
    if n == 0 then 0 else n - 1
  }


  /**
   * Where the loop `for (i = 0; i < s.length; i += k)` stands: the slices in
   * `done` are handled, the rest of `s` is still to be sliced, and a pause
   * has followed every handled slice that was not the last.
   */
  ghost predicate SlicedUpTo<T>(s: seq<T>, k: nat, i: nat, done: seq<seq<T>>, pauses: nat)
    requires k > 0
  {
    && Chunks(s, k) == done + Chunks(Drop(s, i), k)
    && pauses == if i >= |s| then Pauses(|done|) else |done|
  }

  lemma SlicedStart<T>(s: seq<T>, k: nat)
    requires k > 0
    ensures SlicedUpTo(s, k, 0, [], 0)
  {
    assert Drop(s, 0) == s;
  }

  lemma SliceStep<T>(s: seq<T>, k: nat, i: nat, done: seq<seq<T>>, pauses: nat)
    requires k > 0 && i < |s| && SlicedUpTo(s, k, i, done, pauses)
    ensures SlicedUpTo(s, k, i + k, done + [Slice(s, i, k)], pauses + if i + k < |s| then 1 else 0)
    ensures Take(s, i) + Slice(s, i, k) == Take(s, i + k)
  {
    ChunksStep(s, i, k);
    ConcatStep(Chunks(s, k), done, Chunks(Drop(s, i), k), Slice(s, i, k), Chunks(Drop(s, i + k), k));
  }

  lemma ConcatStep<T>(all: seq<T>, done: seq<T>, tail: seq<T>, x: T, rest: seq<T>)
    requires all == done + tail && tail == [x] + rest
    ensures all == (done + [x]) + rest
  {
  }

  lemma SlicedAll<T>(s: seq<T>, k: nat, i: nat, done: seq<seq<T>>, pauses: nat)
    requires k > 0 && i >= |s| && SlicedUpTo(s, k, i, done, pauses)
    ensures done == Chunks(s, k) && pauses == Pauses(|Chunks(s, k)|) && Take(s, i) == s
  {
    assert Chunks(Drop(s, i), k) == [];
    assert done + [] == done;
  }

  // ---------------------------------------------------------------- fetching and inserting

  /** `results`: `Promise.all` over a batch, one result per day in the batch's order. */
  function FetchBatch(user: string, batch: seq<Day>, api: (string, int) -> Reply): (r: seq<Option<Holding>>)
    ensures |r| == |batch|
    ensures forall i :: 0 <= i < |batch| ==> r[i] == Fetch(user, batch[i], api)
  {
    seq(|batch|, i requires 0 <= i < |batch| => Fetch(user, batch[i], api))
  }

  /** `results.filter(Boolean)`: the records among the results, in order. */
  function Present(results: seq<Option<Holding>>): (r: seq<Holding>)
    ensures |r| <= |results|
    ensures forall h :: h in r <==> Some(h) in results
    ensures |r| == |results| ==> forall i :: 0 <= i < |results| ==> results[i] == Some(r[i])
  {
    if |results| == 0 then []
    else (match results[0] case None => [] case Some(h) => [h]) + Present(results[1..])
  }

  /** The bulk insert one batch causes: none when no day of it produced a record. */
  function BatchInsert(user: string, batch: seq<Day>, api: (string, int) -> Reply): seq<seq<Holding>> {
    var valid := Present(FetchBatch(user, batch, api));
    if |valid| > 0 then [valid] else []
  }

  /** The bulk inserts a sequence of batches causes, in order. */
  function BatchInserts(user: string, batches: seq<seq<Day>>, api: (string, int) -> Reply): seq<seq<Holding>> {
    if |batches| == 0 then []
    else BatchInserts(user, batches[..|batches| - 1], api) + BatchInsert(user, batches[|batches| - 1], api)
  }

  /** The number of rows a sequence of inserts writes. */
  function TotalRows(inserts: seq<seq<Holding>>): nat {
    if |inserts| == 0 then 0 else TotalRows(inserts[..|inserts| - 1]) + |inserts[|inserts| - 1]|
  }

  lemma BatchInsertsSnoc(user: string, batches: seq<seq<Day>>, batch: seq<Day>, api: (string, int) -> Reply)
    ensures BatchInserts(user, batches + [batch], api) == BatchInserts(user, batches, api) + BatchInsert(user, batch, api)
  {
    assert (batches + [batch])[..|batches|] == batches;
  }

  lemma TotalRowsSnoc(inserts: seq<seq<Holding>>, x: seq<Holding>)
    ensures TotalRows(inserts + [x]) == TotalRows(inserts) + |x|
  {
    assert (inserts + [x])[..|inserts|] == inserts;
  }

  /** The inserts the backfill of one user issues. */
  function PlannedInserts(user: string, nowMs: int, stored: set<string>, api: (string, int) -> Reply): seq<seq<Holding>> {
    BatchInserts(user, Chunks(PendingDays(nowMs, stored), BatchSize), api)
  }

  /** What `processUserHoldings` returns for one user. */
  function InsertedCount(user: string, nowMs: int, stored: set<string>, api: (string, int) -> Reply): nat {
    TotalRows(PlannedInserts(user, nowMs, stored, api))
  }

  // ---------------------------------------------------------------- the methods

  /** The `while (currentDate <= endDate)` loop that lists the days to consider. */
  method EnumerateDays(nowMs: int) returns (dates: seq<Day>)
    ensures dates == DaysUntil(nowMs)
  {
    dates := [];
    var current := StartDay;
    while current * MsPerDay <= nowMs
      invariant StartDay <= current
      invariant current == StartDay || (current - 1) * MsPerDay <= nowMs
      invariant |dates| == current - StartDay
      invariant forall i :: 0 <= i < |dates| ==> dates[i] == StartDay + i
      decreases nowMs - current * MsPerDay
    {
      dates := dates + [current];
      current := current + 1;
    }
  }

  /** Where the loop of `processUserHoldings` stands after the batches in `done`. */
  ghost predicate DaysProgress(user: string, days: seq<Day>, i: nat, done: seq<seq<Day>>, pauses: nat,
                               requests: seq<Day>, inserts: seq<seq<Holding>>, inserted: nat,
                               api: (string, int) -> Reply)
  {
    && SlicedUpTo(days, BatchSize, i, done, pauses)
    && requests == Take(days, i)
    && inserts == BatchInserts(user, done, api)
    && inserted == TotalRows(inserts)
  }

  /** One turn of that loop: fetch a batch, insert what it found, pause unless it was the last. */
  lemma DaysStep(user: string, days: seq<Day>, i: nat, done: seq<seq<Day>>, pauses: nat,
                 requests: seq<Day>, inserts: seq<seq<Holding>>, inserted: nat,
                 valid: seq<Holding>, api: (string, int) -> Reply)
    requires i < |days| && DaysProgress(user, days, i, done, pauses, requests, inserts, inserted, api)
    requires valid == Present(FetchBatch(user, Slice(days, i, BatchSize), api))
    ensures var done', pauses', requests' := done + [Slice(days, i, BatchSize)],
                                             pauses + (if i + BatchSize < |days| then 1 else 0),
                                             requests + Slice(days, i, BatchSize);
            && (|valid| > 0 ==> DaysProgress(user, days, i + BatchSize, done', pauses', requests',
                                             inserts + [valid], inserted + |valid|, api))
            && (|valid| == 0 ==> DaysProgress(user, days, i + BatchSize, done', pauses', requests',
                                              inserts, inserted, api))
  {
    var batch := Slice(days, i, BatchSize);
    SliceStep(days, BatchSize, i, done, pauses);
    BatchInsertsSnoc(user, done, batch, api);
    if |valid| > 0 {
      TotalRowsSnoc(inserts, valid);
    } else {
      assert BatchInsert(user, batch, api) == [];
      assert inserts + [] == inserts;
    }
  }

  /**
   * `processUserHoldings`: returns the number of rows inserted, the days
   * requested from the API in order, the bulk inserts in order and the
   * number of pauses between batches. `stored` holds the dates already
   * stored for `user`.
   */
  method ProcessUserHoldings(user: string, nowMs: int, stored: set<string>, api: (string, int) -> Reply)
    returns (inserted: nat, requests: seq<Day>, inserts: seq<seq<Holding>>, pauses: nat)
    ensures requests == PendingDays(nowMs, stored)
    ensures inserts == PlannedInserts(user, nowMs, stored, api)
    ensures inserted == TotalRows(inserts)
    ensures pauses == Pauses(|Chunks(PendingDays(nowMs, stored), BatchSize)|)
  {
    var dates := EnumerateDays(nowMs);
    var datesToProcess := Unstored(dates, stored);
    requests, inserts, pauses := [], [], 0;
    if |datesToProcess| == 0 {
      assert Chunks(datesToProcess, BatchSize) == [];
      return 0, requests, inserts, pauses;
    }
    inserted := 0;
    ghost var done: seq<seq<Day>> := [];
    var i := 0;
    SlicedStart(datesToProcess, BatchSize);
    while i < |datesToProcess|
      invariant DaysProgress(user, datesToProcess, i, done, pauses, requests, inserts, inserted, api)
      decreases |datesToProcess| - i
    {
      var batch := Slice(datesToProcess, i, BatchSize);
      var results := FetchBatch(user, batch, api);
      var validResults := Present(results);
      DaysStep(user, datesToProcess, i, done, pauses, requests, inserts, inserted, validResults, api);
      if |validResults| > 0 {
        inserts := inserts + [validResults];
        inserted := inserted + |validResults|;
      }
      requests := requests + batch;
      done := done + [batch];
      if i + BatchSize < |datesToProcess| {
        pauses := pauses + 1;
      }
      i := i + BatchSize;
    }
    SlicedAll(datesToProcess, BatchSize, i, done, pauses);
  }

  // ---------------------------------------------------------------- all users

  /** The dates stored for `user` when the run starts. */
  function StoredDates(stored: map<string, set<string>>, user: string): set<string> {
    if user in stored then stored[user] else {}
  }

  /** No address occurs twice. */
  predicate Distinct(users: seq<string>) {
    forall i, j :: 0 <= i < j < |users| ==> users[i] != users[j]
  }

  /**
   * The sum of what `processUserHoldings` returns over `users`. Each call of
   * `processUserHoldings` reads the clock for itself (`new Date()`); `nowOf(u)`
   * is the time it reads for user `u`, so users in later batches may see a
   * later "now" than earlier ones.
   */
  function SumInserted(users: seq<string>, nowOf: string -> int, stored: map<string, set<string>>,
                       api: (string, int) -> Reply): nat
  {
    if |users| == 0 then 0
    else
      var user := users[|users| - 1];
      SumInserted(users[..|users| - 1], nowOf, stored, api) + InsertedCount(user, nowOf(user), StoredDates(stored, user), api)
  }

  lemma SumInsertedSnoc(users: seq<string>, user: string, nowOf: string -> int, stored: map<string, set<string>>,
                        api: (string, int) -> Reply)
    ensures SumInserted(users + [user], nowOf, stored, api)
            == SumInserted(users, nowOf, stored, api) + InsertedCount(user, nowOf(user), StoredDates(stored, user), api)
  {
    assert (users + [user])[..|users|] == users;
  }

  /**
   * One batch of users: `processUserHoldings` for each (run side by side
   * in the source, in the batch's order here) and the counts summed.
   */
  method ProcessUserBatch(userBatch: seq<string>, nowOf: string -> int, stored: map<string, set<string>>,
                          api: (string, int) -> Reply)
    returns (batchInserted: nat)
    ensures batchInserted == SumInserted(userBatch, nowOf, stored, api)
  {
    batchInserted := 0;
    var j := 0;
    while j < |userBatch|
      invariant 0 <= j <= |userBatch|
      invariant batchInserted == SumInserted(userBatch[..j], nowOf, stored, api)
    {
      var count, _, _, _ := ProcessUserHoldings(userBatch[j], nowOf(userBatch[j]), StoredDates(stored, userBatch[j]), api);
      PrefixStep(userBatch, j);
      SumInsertedSnoc(userBatch[..j], userBatch[j], nowOf, stored, api);
      batchInserted := batchInserted + count;
      j := j + 1;
    }
    PrefixAll(userBatch);
  }

  lemma PrefixStep<T>(s: seq<T>, j: nat)
    requires j < |s|
    ensures s[..j + 1] == s[..j] + [s[j]]
  {
  }

  lemma PrefixAll<T>(s: seq<T>)
    ensures s[..|s|] == s
  {
  }

  /** One turn of the loop over user batches. */
  lemma UsersStep(users: seq<string>, i: nat, done: seq<seq<string>>, pauses: nat, nowOf: string -> int,
                  stored: map<string, set<string>>, api: (string, int) -> Reply)
    requires i < |users| && SlicedUpTo(users, UserBatchSize, i, done, pauses)
    ensures SlicedUpTo(users, UserBatchSize, i + UserBatchSize, done + [Slice(users, i, UserBatchSize)],
                       pauses + if i + UserBatchSize < |users| then 1 else 0)
    ensures SumInserted(Take(users, i + UserBatchSize), nowOf, stored, api)
            == SumInserted(Take(users, i), nowOf, stored, api) + SumInserted(Slice(users, i, UserBatchSize), nowOf, stored, api)
  {
    SliceStep(users, UserBatchSize, i, done, pauses);
    SumInsertedAppend(Take(users, i), Slice(users, i, UserBatchSize), nowOf, stored, api);
  }

  /**
   * `fetchAndStoreHoldingsForAllUsers`: the users five at a time, each
   * batch's counts summed into the total, a pause between batches. The
   * users come from a query grouped by address, so none repeats; each user's
   * stored dates are read from `stored`, and each user's "now" is
   * `nowOf(user)`, the moment its `processUserHoldings` reads the clock.
   */
  method FetchAndStoreHoldingsForAllUsers(allUsers: seq<string>, nowOf: string -> int, stored: map<string, set<string>>,
                                          api: (string, int) -> Reply)
    returns (totalRecordsInserted: nat, pauses: nat)
    requires Distinct(allUsers)
    ensures totalRecordsInserted == SumInserted(allUsers, nowOf, stored, api)
    ensures pauses == Pauses(|Chunks(allUsers, UserBatchSize)|)
  {
    totalRecordsInserted, pauses := 0, 0;
    ghost var done: seq<seq<string>> := [];
    var i := 0;
    SlicedStart(allUsers, UserBatchSize);
    while i < |allUsers|
      invariant SlicedUpTo(allUsers, UserBatchSize, i, done, pauses)
      invariant totalRecordsInserted == SumInserted(Take(allUsers, i), nowOf, stored, api)
      decreases |allUsers| - i
    {
      var userBatch := Slice(allUsers, i, UserBatchSize);
      var batchInserted := ProcessUserBatch(userBatch, nowOf, stored, api);
      UsersStep(allUsers, i, done, pauses, nowOf, stored, api);
      totalRecordsInserted := totalRecordsInserted + batchInserted;
      done := done + [userBatch];
      if i + UserBatchSize < |allUsers| {
        pauses := pauses + 1;
      }
      i := i + UserBatchSize;
    }
    SlicedAll(allUsers, UserBatchSize, i, done, pauses);
  }

  lemma {:induction false} SumInsertedAppend(a: seq<string>, b: seq<string>, nowOf: string -> int,
                                             stored: map<string, set<string>>, api: (string, int) -> Reply)
    ensures SumInserted(a + b, nowOf, stored, api) == SumInserted(a, nowOf, stored, api) + SumInserted(b, nowOf, stored, api)
    decreases |b|
  {
    if |b| == 0 {
      assert a + b == a;
    } else {
      var init, last := b[..|b| - 1], b[|b| - 1];
      assert a + b == (a + init) + [last];
      SumInsertedSnoc(a + init, last, nowOf, stored, api);
      SumInsertedAppend(a, init, nowOf, stored, api);
    }
  }
}
