/**
 * What the backfill of src/index.ts guarantees: the dates it starts from,
 * which days it requests, that it never requests or inserts a stored date
 * again, that its inserts are exactly the records found (no duplicates, at
 * most a week per insert), and that a second run, at the same or a later
 * "now", requests only the days whose fetch failed and the days begun since.
 */
module BackfillProperties {
  import opened Wrappers
  import opened Numerals
  import opened Calendar
  import opened Backfill

  // ---------------------------------------------------------------- the dates

  lemma YearText2024()
    ensures YearText(2024) == "2024"
  {
    assert DigitChar(2) == '2' && DigitChar(0) == '0' && DigitChar(4) == '4';
    assert Render(2, 10) == "2";
    assert Render(20, 10) == "20";
    assert Render(202, 10) == "202";
  }

  lemma DayOfLateDecember2024(day: nat)
    requires 26 <= day <= 28
    ensures DayOfDate(Civil(2024, 12, day)) == StartDay + day - 26
  {
    DaysBeforeYearFormula(2024);
  }

  lemma LateDecemberDigits()
    ensures TwoDigits(12) == "12" && TwoDigits(26) == "26" && TwoDigits(27) == "27" && TwoDigits(28) == "28"
  {
    assert DigitChar(1) == '1' && DigitChar(2) == '2' && DigitChar(6) == '6' && DigitChar(7) == '7' && DigitChar(8) == '8';
  }

  lemma KeyOfLateDecember2024(day: nat)
    requires 26 <= day <= 28
    ensures DateKey(StartDay + day - 26) == "2024-12-" + TwoDigits(day)
  {
    YearText2024();
    LateDecemberDigits();
    DayOfLateDecember2024(day);
    DateOfDayOfDate(Civil(2024, 12, day));
  }

  /** The first three days of the backfill carry the keys 2024-12-26, 2024-12-27 and 2024-12-28. */
  lemma FirstDates()
    ensures DateKey(StartDay) == "2024-12-26"
    ensures DateKey(StartDay + 1) == "2024-12-27"
    ensures DateKey(StartDay + 2) == "2024-12-28"
  {
    LateDecemberDigits();
    KeyOfLateDecember2024(26);
    KeyOfLateDecember2024(27);
    KeyOfLateDecember2024(28);
  }

  // ---------------------------------------------------------------- the pending days

  /** A day is requested exactly when it lies between the start and now and its date is not stored; in ascending order. */
  lemma PendingExactly(nowMs: int, stored: set<string>)
    ensures forall d: Day :: d in PendingDays(nowMs, stored)
                             <==> StartDay <= d && d * MsPerDay <= nowMs && DateKey(d) !in stored
    ensures Ascending(PendingDays(nowMs, stored))
  {
    DaysUntilExactly(nowMs);
    forall d: Day
      ensures d in PendingDays(nowMs, stored) <==> StartDay <= d && d * MsPerDay <= nowMs && DateKey(d) !in stored
    {
      UnstoredMembers(DaysUntil(nowMs), stored, d);
    }
    UnstoredAscending(DaysUntil(nowMs), stored);
  }

  lemma {:induction false} UnstoredNone(days: seq<Day>)
    ensures Unstored(days, {}) == days
  {
    if |days| > 0 {
      UnstoredNone(days[1..]);
    }
  }

  /**
   * On 2024-12-28 with nothing stored, the three days from 2024-12-26 are
   * requested in one batch; with 2024-12-26 stored, only the two after it.
   */
  lemma ThreeDayRun(nowMs: int)
    requires (StartDay + 2) * MsPerDay <= nowMs < (StartDay + 3) * MsPerDay
    ensures PendingDays(nowMs, {}) == [StartDay, StartDay + 1, StartDay + 2]
    ensures |Chunks(PendingDays(nowMs, {}), BatchSize)| == 1
    ensures PendingDays(nowMs, {"2024-12-26"}) == [StartDay + 1, StartDay + 2]
  {
    assert nowMs / MsPerDay == StartDay + 2;
    var days := DaysUntil(nowMs);
    assert days == [StartDay, StartDay + 1, StartDay + 2];
    UnstoredNone(days);
    FirstDates();
    UnstoredNone(days[1..]);
    assert Unstored(days, {"2024-12-26"}) == [] + Unstored(days[1..], {"2024-12-26"});
    UnstoredMembers(days, {"2024-12-26"}, StartDay + 1);
  }

  lemma {:induction false} UnstoredAllStored(days: seq<Day>, stored: set<string>)
    requires forall i :: 0 <= i < |days| ==> DateKey(days[i]) in stored
    ensures Unstored(days, stored) == []
  {
    if |days| > 0 {
      UnstoredAllStored(days[1..], stored);
    }
  }

  /** Once every date of the range is stored, a run requests nothing, inserts nothing, pauses never and reports 0. */
  lemma NothingPendingWhenAllStored(user: string, nowMs: int, stored: set<string>, api: (string, int) -> Reply)
    requires forall d: Day :: StartDay <= d && d * MsPerDay <= nowMs ==> DateKey(d) in stored
    ensures PendingDays(nowMs, stored) == []
    ensures PlannedInserts(user, nowMs, stored, api) == []
    ensures InsertedCount(user, nowMs, stored, api) == 0
    ensures Pauses(|Chunks(PendingDays(nowMs, stored), BatchSize)|) == 0
  {
    PendingExactly(nowMs, stored);
    var days := DaysUntil(nowMs);
    DaysUntilExactly(nowMs);
    forall i | 0 <= i < |days|
      ensures DateKey(days[i]) in stored
    {
      assert days[i] in days;
    }
    UnstoredAllStored(days, stored);
  }

  // ---------------------------------------------------------------- the inserted rows

  /** The records found for `days`, in order. */
  function RowsOf(user: string, days: seq<Day>, api: (string, int) -> Reply): seq<Holding> {
    Present(FetchBatch(user, days, api))
  }

  /** The dates of some rows. */
  function DatesOf(rows: seq<Holding>): set<string> {
    set h | h in rows :: h.date
  }

  /** No two rows share a date. */
  predicate DistinctDates(rows: seq<Holding>) {
    forall i, j :: 0 <= i < j < |rows| ==> rows[i].date != rows[j].date
  }

  lemma PointwiseAppend<T>(l: seq<T>, x: seq<T>, y: seq<T>)
    requires |l| == |x| + |y|
    requires forall i :: 0 <= i < |x| ==> l[i] == x[i]
    requires forall j :: 0 <= j < |y| ==> l[|x| + j] == y[j]
    ensures l == x + y
  {
    forall i | 0 <= i < |l|
      ensures l[i] == (x + y)[i]
    {
      if i >= |x| {
        assert l[|x| + (i - |x|)] == y[i - |x|];
      }
    }
  }

  lemma FetchBatchAppend(user: string, a: seq<Day>, b: seq<Day>, api: (string, int) -> Reply)
    ensures FetchBatch(user, a + b, api) == FetchBatch(user, a, api) + FetchBatch(user, b, api)
  {
    var l, x, y := FetchBatch(user, a + b, api), FetchBatch(user, a, api), FetchBatch(user, b, api);
    forall i | 0 <= i < |a|
      ensures l[i] == x[i]
    {
      assert (a + b)[i] == a[i];
    }
    forall j | 0 <= j < |b|
      ensures l[|a| + j] == y[j]
    {
      assert (a + b)[|a| + j] == b[j];
    }
    PointwiseAppend(l, x, y);
  }

  lemma {:induction false} PresentAppend(x: seq<Option<Holding>>, y: seq<Option<Holding>>)
    ensures Present(x + y) == Present(x) + Present(y)
    decreases |x|
  {
    if |x| == 0 {
      assert x + y == y;
    } else {
      assert (x + y)[0] == x[0];
      assert (x + y)[1..] == x[1..] + y;
      PresentAppend(x[1..], y);
    }
  }

  lemma {:induction false} FlattenAppend<T>(a: seq<seq<T>>, b: seq<seq<T>>)
    ensures Flatten(a + b) == Flatten(a) + Flatten(b)
    decreases |b|
  {
    if |b| == 0 {
      assert a + b == a;
    } else {
      var init, last := b[..|b| - 1], b[|b| - 1];
      assert a + b == (a + init) + [last];
      FlattenSnoc(a + init, last);
      FlattenSnoc(init, last);
      assert b == init + [last];
      FlattenAppend(a, init);
    }
  }

  /** Laid end to end, the inserts of some batches are the records found for all their days. */
  lemma {:induction false} BatchInsertsFlatten(user: string, batches: seq<seq<Day>>, api: (string, int) -> Reply)
    ensures Flatten(BatchInserts(user, batches, api)) == RowsOf(user, Flatten(batches), api)
    decreases |batches|
  {
    if |batches| > 0 {
      var init, last := batches[..|batches| - 1], batches[|batches| - 1];
      BatchInsertsFlatten(user, init, api);
      FlattenAppend(BatchInserts(user, init, api), BatchInsert(user, last, api));
      var valid := RowsOf(user, last, api);
      if |valid| > 0 {
        assert Flatten([valid]) == Flatten([valid][..0]) + valid;
      }
      assert Flatten(BatchInsert(user, last, api)) == valid;
      FetchBatchAppend(user, Flatten(init), last, api);
      PresentAppend(FetchBatch(user, Flatten(init), api), FetchBatch(user, last, api));
    }
  }

  lemma {:induction false} TotalRowsLength(inserts: seq<seq<Holding>>)
    ensures TotalRows(inserts) == |Flatten(inserts)|
    decreases |inserts|
  {
    if |inserts| > 0 {
      TotalRowsLength(inserts[..|inserts| - 1]);
    }
  }

  /** One insert per batch at most, each non-empty and no larger than its batch. */
  lemma {:induction false} BatchInsertsSizes(user: string, batches: seq<seq<Day>>, k: nat, api: (string, int) -> Reply)
    requires forall i :: 0 <= i < |batches| ==> |batches[i]| <= k
    ensures |BatchInserts(user, batches, api)| <= |batches|
    ensures forall i :: 0 <= i < |BatchInserts(user, batches, api)| ==> 0 < |BatchInserts(user, batches, api)[i]| <= k
    decreases |batches|
  {
    if |batches| > 0 {
      var init, last := batches[..|batches| - 1], batches[|batches| - 1];
      BatchInsertsSizes(user, init, k, api);
      assert |RowsOf(user, last, api)| <= |last|;
    }
  }

  /**
   * The rows a run inserts are the records found for its pending days, in
   * order; it issues at most one insert per week of pending days, each
   * holding one to seven rows, and reports their number, which is at most
   * the number of pending days.
   */
  lemma InsertsAreTheRecordsFound(user: string, nowMs: int, stored: set<string>, api: (string, int) -> Reply)
    ensures Flatten(PlannedInserts(user, nowMs, stored, api)) == RowsOf(user, PendingDays(nowMs, stored), api)
    ensures InsertedCount(user, nowMs, stored, api) == |RowsOf(user, PendingDays(nowMs, stored), api)|
    ensures InsertedCount(user, nowMs, stored, api) <= |PendingDays(nowMs, stored)|
    ensures |PlannedInserts(user, nowMs, stored, api)| <= |Chunks(PendingDays(nowMs, stored), BatchSize)|
    ensures forall i :: 0 <= i < |PlannedInserts(user, nowMs, stored, api)|
                        ==> 0 < |PlannedInserts(user, nowMs, stored, api)[i]| <= BatchSize
  {
    var pending := PendingDays(nowMs, stored);
    var batches := Chunks(pending, BatchSize);
    FlattenChunks(pending, BatchSize);
    BatchInsertsFlatten(user, batches, api);
    TotalRowsLength(PlannedInserts(user, nowMs, stored, api));
    ChunkSizes(pending, BatchSize);
    BatchInsertsSizes(user, batches, BatchSize, api);
  }

  /** Every row found belongs to `user` and is dated by one of the days asked for. */
  lemma RowsOfOwner(user: string, days: seq<Day>, api: (string, int) -> Reply)
    ensures forall h :: h in RowsOf(user, days, api) ==> h.userAddress == user
    ensures forall h :: h in RowsOf(user, days, api) ==> exists d :: d in days && h.date == DateKey(d)
  {
    var results := FetchBatch(user, days, api);
    forall h | h in RowsOf(user, days, api)
      ensures h.userAddress == user && exists d :: d in days && h.date == DateKey(d)
    {
      var i :| 0 <= i < |results| && results[i] == Some(h);
      assert days[i] in days;
    }
  }

  /** A day's date is among the rows found exactly when that day was asked for and its fetch gave a record. */
  lemma RowsOfDates(user: string, days: seq<Day>, api: (string, int) -> Reply)
    ensures forall d: Day :: DateKey(d) in DatesOf(RowsOf(user, days, api)) <==> d in days && Fetch(user, d, api).Some?
  {
    forall d: Day
      ensures DateKey(d) in DatesOf(RowsOf(user, days, api)) <==> d in days && Fetch(user, d, api).Some?
    {
      if DateKey(d) in DatesOf(RowsOf(user, days, api)) {
        RowDateAskedFor(user, days, api, d);
      }
      if d in days && Fetch(user, d, api).Some? {
        RowDateFound(user, days, api, d);
      }
    }
  }

  lemma RowDateAskedFor(user: string, days: seq<Day>, api: (string, int) -> Reply, d: Day)
    requires DateKey(d) in DatesOf(RowsOf(user, days, api))
    ensures d in days && Fetch(user, d, api).Some?
  {
    var results := FetchBatch(user, days, api);
    var h :| h in RowsOf(user, days, api) && h.date == DateKey(d);
    var i :| 0 <= i < |results| && results[i] == Some(h);
    DateKeyInjective(d, days[i]);
  }

  lemma RowDateFound(user: string, days: seq<Day>, api: (string, int) -> Reply, d: Day)
    requires d in days && Fetch(user, d, api).Some?
    ensures DateKey(d) in DatesOf(RowsOf(user, days, api))
  {
    var results := FetchBatch(user, days, api);
    var i :| 0 <= i < |days| && days[i] == d;
    assert results[i] == Fetch(user, d, api);
    assert Fetch(user, d, api).value in RowsOf(user, days, api);
  }

  /** A single row whose date the rest lacks, or none, put before distinctly dated rows keeps them distinct. */
  lemma DistinctDatesCons(head: seq<Holding>, rest: seq<Holding>)
    requires |head| == 0 || (|head| == 1 && head[0].date !in DatesOf(rest))
    requires DistinctDates(rest)
    ensures DistinctDates(head + rest)
  {
    if |head| == 1 {
      forall j | 0 < j < |head + rest|
        ensures (head + rest)[0].date != (head + rest)[j].date
      {
        assert (head + rest)[j] == rest[j - 1];
        assert rest[j - 1] in rest;
      }
    } else {
      assert head + rest == rest;
    }
  }

  /** The rows of a run of days are the rows of its first day followed by those of the rest. */
  lemma RowsOfSplit(user: string, days: seq<Day>, api: (string, int) -> Reply)
    requires |days| > 0
    ensures RowsOf(user, days, api) == RowsOf(user, days[..1], api) + RowsOf(user, days[1..], api)
  {
    assert days == days[..1] + days[1..];
    FetchBatchAppend(user, days[..1], days[1..], api);
    PresentAppend(FetchBatch(user, days[..1], api), FetchBatch(user, days[1..], api));
  }

  /** The record of the first day, if any, has a date no later day's record has. */
  lemma FirstRowIsNew(user: string, days: seq<Day>, api: (string, int) -> Reply)
    requires Ascending(days) && |days| > 0
    ensures var head := RowsOf(user, days[..1], api);
            |head| == 0 || (|head| == 1 && head[0].date !in DatesOf(RowsOf(user, days[1..], api)))
  {
    var head := RowsOf(user, days[..1], api);
    RowsOfDates(user, days[1..], api);
    RowsOfOwner(user, days[..1], api);
    RowsOfDates(user, days[..1], api);
    assert days[..1] == [days[0]];
    if |head| > 0 {
      assert |head| == 1;
      assert head[0] in head;
      assert days[0] !in days[1..];
    }
  }

  /** Days that do not repeat give rows whose dates do not repeat. */
  lemma {:induction false} RowsOfDistinct(user: string, days: seq<Day>, api: (string, int) -> Reply)
    requires Ascending(days)
    ensures DistinctDates(RowsOf(user, days, api))
    decreases |days|
  {
    if |days| > 0 {
      RowsOfDistinct(user, days[1..], api);
      RowsOfSplit(user, days, api);
      FirstRowIsNew(user, days, api);
      DistinctDatesCons(RowsOf(user, days[..1], api), RowsOf(user, days[1..], api));
    }
  }

  /**
   * The dedupe: every row a run inserts belongs to its user and has a date
   * that was not stored, and no two of its rows share a date.
   */
  lemma InsertedRowsAreNew(user: string, nowMs: int, stored: set<string>, api: (string, int) -> Reply)
    ensures forall h :: h in Flatten(PlannedInserts(user, nowMs, stored, api))
                        ==> h.userAddress == user && h.date !in stored
    ensures DistinctDates(Flatten(PlannedInserts(user, nowMs, stored, api)))
  {
    var pending := PendingDays(nowMs, stored);
    InsertsAreTheRecordsFound(user, nowMs, stored, api);
    PendingExactly(nowMs, stored);
    RowsOfOwner(user, pending, api);
    RowsOfDistinct(user, pending, api);
  }

  /**
   * Running again at a later "now" `laterMs`, with the rows of the first run
   * stored, requests exactly the days whose fetch failed the first time and
   * the unstored days that have begun since the first run's "now".
   */
  lemma RerunRetriesOnlyFailures(user: string, nowMs: int, laterMs: int, stored: set<string>,
                                 api: (string, int) -> Reply)
    requires nowMs <= laterMs
    ensures forall d: Day :: d in PendingDays(laterMs, stored + DatesOf(Flatten(PlannedInserts(user, nowMs, stored, api))))
                             <==> || (d in PendingDays(nowMs, stored) && Fetch(user, d, api).None?)
                                  || (StartDay <= d && nowMs < d * MsPerDay <= laterMs && DateKey(d) !in stored)
  {
    var pending := PendingDays(nowMs, stored);
    var added := DatesOf(Flatten(PlannedInserts(user, nowMs, stored, api)));
    InsertsAreTheRecordsFound(user, nowMs, stored, api);
    PendingExactly(nowMs, stored);
    PendingExactly(laterMs, stored + added);
    RowsOfDates(user, pending, api);
  }

  /**
   * When every fetch of a run succeeds, running again later on the same UTC
   * day with its rows stored requests nothing.
   */
  lemma RerunAfterSuccessIsEmpty(user: string, nowMs: int, laterMs: int, stored: set<string>,
                                 api: (string, int) -> Reply)
    requires nowMs <= laterMs && laterMs / MsPerDay == nowMs / MsPerDay
    requires forall d :: d in PendingDays(nowMs, stored) ==> Fetch(user, d, api).Some?
    ensures PendingDays(laterMs, stored + DatesOf(Flatten(PlannedInserts(user, nowMs, stored, api)))) == []
  {
    var now := stored + DatesOf(Flatten(PlannedInserts(user, nowMs, stored, api)));
    RerunRetriesOnlyFailures(user, nowMs, laterMs, stored, api);
    var days := DaysUntil(laterMs);
    assert days == DaysUntil(nowMs);
    forall i | 0 <= i < |days|
      ensures DateKey(days[i]) in now
    {
      UnstoredMembers(days, stored, days[i]);
      UnstoredMembers(days, now, days[i]);
    }
    UnstoredAllStored(days, now);
  }

  // ---------------------------------------------------------------- all users

  /**
   * When every user has every date of its own range stored (each user's
   * range ending at the "now" it reads), the whole run reports 0.
   */
  lemma {:induction false} TotalZeroWhenAllStored(users: seq<string>, nowOf: string -> int, stored: map<string, set<string>>,
                                                  api: (string, int) -> Reply)
    requires forall u, d: Day :: u in users && StartDay <= d && d * MsPerDay <= nowOf(u)
                                 ==> DateKey(d) in StoredDates(stored, u)
    ensures SumInserted(users, nowOf, stored, api) == 0
    decreases |users|
  {
    if |users| > 0 {
      var init, user := users[..|users| - 1], users[|users| - 1];
      assert forall u :: u in init ==> u in users;
      TotalZeroWhenAllStored(init, nowOf, stored, api);
      assert user in users;
      NothingPendingWhenAllStored(user, nowOf(user), StoredDates(stored, user), api);
    }
  }
}
