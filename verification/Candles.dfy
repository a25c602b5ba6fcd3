/**
 * The daily candle cache (src/swingdash/services/candles.py over
 * src/swingdash/adapters/storage/repos/candles.py): whatever it fetches or skips, it answers like a
 * direct read of the source.
 */
module Candles {
  import opened Wrappers
  import opened Ordering
  import opened Bars

  // Longest NSE closure the calendar looks back over.
  const MAX_LOOKBACK_DAYS := 10

  datatype RowKey = RowKey(key: string, date: int)

  type Rows = map<RowKey, DailyBar>

  /** The candles of the days `first..last`, oldest first. */
  function BarsIn(at: int -> Option<DailyBar>, first: int, last: int): seq<DailyBar>
    decreases last - first
  {
    if first > last then []
    else BarsIn(at, first, last - 1) + if at(last).Some? then [at(last).value] else []
  }

  lemma {:induction false} BarsInSame(f: int -> Option<DailyBar>, g: int -> Option<DailyBar>, first: int, last: int)
    requires forall d :: first <= d <= last ==> f(d) == g(d)
    ensures BarsIn(f, first, last) == BarsIn(g, first, last)
    decreases last - first
  {
    if first <= last {
      BarsInSame(f, g, first, last - 1);
    }
  }

  /** Days without a candle at the start of a range add nothing. */
  lemma {:induction false} BarsInSkips(f: int -> Option<DailyBar>, first: int, from: int, last: int)
    requires first <= from && forall d :: first <= d < from ==> f(d).None?
    ensures BarsIn(f, first, last) == BarsIn(f, from, last)
    decreases last - first
  {
    if first <= last {
      BarsInSkips(f, first, from, last - 1);
    }
  }

  /** Nor do those at its end. */
  lemma {:induction false} BarsInStops(f: int -> Option<DailyBar>, first: int, end: int, last: int)
    requires end <= last && forall d :: first <= d && end < d <= last ==> f(d).None?
    ensures BarsIn(f, first, last) == BarsIn(f, first, end)
    decreases last - end
  {
    if end < last {
      BarsInStops(f, first, end, last - 1);
    }
  }

  lemma {:induction false} BarsInMembers(f: int -> Option<DailyBar>, first: int, last: int)
    requires forall d :: first <= d <= last && f(d).Some? ==> f(d).value.date == d
    ensures forall i :: 0 <= i < |BarsIn(f, first, last)| ==>
      var b := BarsIn(f, first, last)[i];
      first <= b.date <= last && f(b.date) == Some(b)
    ensures forall d :: first <= d <= last && f(d).Some? ==> f(d).value in BarsIn(f, first, last)
    ensures forall i, j :: 0 <= i < j < |BarsIn(f, first, last)| ==>
      BarsIn(f, first, last)[i].date < BarsIn(f, first, last)[j].date
    decreases last - first
  {
    if first <= last {
      BarsInMembers(f, first, last - 1);
    }
  }

  function Stored(rows: Rows, key: string): int -> Option<DailyBar> {
    d => if RowKey(key, d) in rows then Some(rows[RowKey(key, d)]) else None
  }

  /** `after` is `before` with one row per bar, each taking the place of a row of the same day. */
  ghost predicate Upserted(before: Rows, key: string, bars: seq<DailyBar>, after: Rows) {
    && (forall k :: k in before ==> k in after)
    && (forall i :: 0 <= i < |bars| ==> RowKey(key, bars[i].date) in after)
    && (forall k :: k in after ==>
         (k in before && before[k] == after[k])
         || (k.key == key && after[k] in bars && after[k].date == k.date))
    && (forall k :: k in after && k.key == key && after[k] !in bars ==>
         forall i :: 0 <= i < |bars| ==> bars[i].date != k.date)
  }

  lemma UpsertedSnoc(before: Rows, key: string, bars: seq<DailyBar>, after: Rows, bar: DailyBar)
    requires Upserted(before, key, bars, after)
    ensures Upserted(before, key, bars + [bar], after[RowKey(key, bar.date) := bar])
  {
    var all, last := bars + [bar], after[RowKey(key, bar.date) := bar];
    forall b ensures b in all <==> b in bars || b == bar {
    }
    forall i | 0 <= i < |all| ensures RowKey(key, all[i].date) in last {
      assert i == |bars| || all[i] == bars[i];
    }
    forall k, i | k in last && k.key == key && last[k] !in all && 0 <= i < |all| ensures all[i].date != k.date {
      assert last[k] !in bars && last[k] != bar;
      assert i == |bars| || all[i] == bars[i];
    }
  }

  class CandleRepository {
    var rows: Rows

    constructor ()
      ensures rows == map[]
    {
      rows := map[];
    }

    /** `SELECT MAX(date)`. */
    method LatestDate(key: string) returns (latest: Option<int>)
      ensures latest.None? <==> forall d :: RowKey(key, d) !in rows
      ensures latest.Some? ==> RowKey(key, latest.value) in rows
      ensures latest.Some? ==> forall d :: RowKey(key, d) in rows ==> d <= latest.value
    {
      var each := ListSet(rows.Keys);
      latest := None;
      for i := 0 to |each|
        invariant latest.None? ==> forall j :: 0 <= j < i ==> each[j].key != key
        invariant latest.Some? ==> RowKey(key, latest.value) in rows
        invariant latest.Some? ==> forall j :: 0 <= j < i && each[j].key == key ==> each[j].date <= latest.value
      {
        assert each[i] in each;
        if each[i].key == key && (latest.None? || each[i].date > latest.value) {
          latest := Some(each[i].date);
        }
      }
      forall d | RowKey(key, d) in rows ensures latest.Some? && d <= latest.value {
        assert RowKey(key, d) in each;
      }
    }

    /** `WHERE date BETWEEN ... ORDER BY date`. */
    method ReadRange(key: string, first: int, last: int) returns (bars: seq<DailyBar>)
      ensures bars == BarsIn(Stored(rows, key), first, last)
    {
      bars := [];
      if first > last {
        return;
      }
      var at := Stored(rows, key);
      var day := first;
      while day <= last
        invariant first <= day <= last + 1
        invariant bars == BarsIn(at, first, day - 1)
      {
        if at(day).Some? {
          bars := bars + [at(day).value];
        }
        day := day + 1;
      }
    }

    /** `INSERT ... ON CONFLICT DO UPDATE`. */
    method Upsert(key: string, bars: seq<DailyBar>)
      modifies this
      ensures Upserted(old(rows), key, bars, rows)
    {
      for i := 0 to |bars|
        invariant Upserted(old(rows), key, bars[..i], rows)
      {
        ghost var before := rows;
        rows := rows[RowKey(key, bars[i].date) := bars[i]];
        assert bars[..i + 1] == bars[..i] + [bars[i]];
        UpsertedSnoc(old(rows), key, bars[..i], before, bars[i]);
      }
      assert bars[..|bars|] == bars;
    }
  }

  // --- the source and the clock ----------------------------------------------------------------

  /** Completed candles never change; `candles(key, d)` is the one of day `d`, if the stock has one. */
  type History = (string, int) -> Option<DailyBar>

  /** A candle carries its day, and days without a session have none. */
  ghost predicate ValidHistory(candles: History, session: int -> bool) {
    forall key, d :: candles(key, d).Some? ==> candles(key, d).value.date == d && session(d)
  }

  /** What the source shows once the candles up to `published` are out. */
  function Visible(candles: History, key: string, published: int): int -> Option<DailyBar> {
    d => if d <= published then candles(key, d) else None
  }

  /** A direct read of the source, as the cache answers one for days from its first fill on. */
  ghost predicate Serves(fetch: (string, int, int) -> seq<DailyBar>, candles: History, published: int) {
    forall key, first, last :: fetch(key, first, last) == BarsIn(Visible(candles, key, published), first, last)
  }

  /** The cached rows of a key are exactly its candles of the days `low..through`. */
  ghost predicate Exact(rows: Rows, candles: History, key: string, low: int, through: int) {
    && (forall d :: RowKey(key, d) in rows ==> low <= d <= through && candles(key, d) == Some(rows[RowKey(key, d)]))
    && (forall d :: low <= d <= through && candles(key, d).Some? ==> RowKey(key, d) in rows)
  }

  ghost predicate NoRows(rows: Rows, key: string) {
    forall d :: RowKey(key, d) !in rows
  }

  /** Storing what the source shows after `through` moves the end of the exact range to the newest published day. */
  lemma Grows(before: Rows, after: Rows, candles: History, session: int -> bool, key: string, low: int, through: int,
      published: int, today: int)
    requires ValidHistory(candles, session) && published < today && low <= through + 1
    requires Exact(before, candles, key, low, through)
    requires Upserted(before, key, BarsIn(Visible(candles, key, published), through + 1, today), after)
    ensures Exact(after, candles, key, low, Max(through, published))
  {
    var at := Visible(candles, key, published);
    var bars := BarsIn(at, through + 1, today);
    BarsInMembers(at, through + 1, today);
    forall d | RowKey(key, d) in after
      ensures low <= d <= Max(through, published) && candles(key, d) == Some(after[RowKey(key, d)])
    {
      var bar := after[RowKey(key, d)];
      if bar in bars {
        var i :| 0 <= i < |bars| && bars[i] == bar;
        assert at(bar.date) == Some(bar);
      }
    }
    forall d | low <= d <= Max(through, published) && candles(key, d).Some? ensures RowKey(key, d) in after {
      if d > through {
        assert at(d).value in bars;
        var i :| 0 <= i < |bars| && bars[i] == at(d).value;
        assert RowKey(key, bars[i].date) in after;
      } else {
        assert RowKey(key, d) in before;
      }
    }
  }

  /** Nothing to store changes nothing. */
  lemma NothingStored(before: Rows, key: string, bars: seq<DailyBar>, after: Rows)
    requires Upserted(before, key, bars, after)
    ensures bars == [] ==> after == before
    ensures bars != [] ==> RowKey(key, bars[0].date) in after
    ensures forall k: RowKey :: k.key != key ==> (k in after <==> k in before)
    ensures forall k: RowKey :: k.key != key && k in after ==> after[k] == before[k]
  {}

  /** Reading an exact range is reading the source. */
  lemma ReadIsExact(rows: Rows, candles: History, key: string, low: int, through: int, first: int, last: int)
    requires Exact(rows, candles, key, low, through) && through <= last
    ensures BarsIn(Stored(rows, key), first, last) == BarsIn(Visible(candles, key, through), Max(first, low), last)
  {
    var stored, shown := Stored(rows, key), Visible(candles, key, through);
    BarsInSkips(stored, first, Max(first, low), last);
    BarsInSame(stored, shown, Max(first, low), last);
  }

  // --- the service -------------------------------------------------------------------------------

  /** A direct read: just the published candles of the days asked for, oldest first. */
  lemma DirectReadIs(candles: History, session: int -> bool, key: string, out: int, first: int, last: int)
    requires ValidHistory(candles, session)
    ensures
      var bars := BarsIn(Visible(candles, key, out), first, last);
      && (forall b :: b in bars <==> first <= b.date <= last && b.date <= out && candles(key, b.date) == Some(b))
      && (forall i, j :: 0 <= i < j < |bars| ==> bars[i].date < bars[j].date)
  {
    var shown := Visible(candles, key, out);
    BarsInMembers(shown, first, last);
    var bars := BarsIn(shown, first, last);
    forall b ensures b in bars <==> first <= b.date <= last && b.date <= out && candles(key, b.date) == Some(b) {
      if first <= b.date <= last && b.date <= out && candles(key, b.date) == Some(b) {
        assert shown(b.date) == Some(b);
      }
    }
  }

  /** No session among the days the calendar looks back over. */
  ghost predicate Quiet(session: int -> bool, today: int) {
    forall d :: today - 10 <= d < today ==> !session(d)
  }

  /** Once the newest row is no older than the last session, no candle can be missing before today. */
  lemma NothingMissing(rows: Rows, candles: History, session: int -> bool, key: string, span: Span, day: int,
      wanted: int, out: int, today: int)
    requires ValidHistory(candles, session) && Exact(rows, candles, key, span.low, span.through)
    requires RowKey(key, day) in rows && wanted <= day && span.through <= out < today
    requires forall d :: wanted < d < today ==> !session(d)
    ensures Exact(rows, candles, key, span.low, out)
  {
    forall d | span.low <= d <= out && candles(key, d).Some? ensures RowKey(key, d) in rows {
      assert session(d);
    }
  }

  /** The days of a key the cache holds in full: from its first fill on. */
  datatype Span = Span(low: int, through: int)

  class CandleService {
    const repo: CandleRepository
    // The exchange calendar: on which days there is a session.
    const session: int -> bool
    ghost const candles: History
    ghost var published: int
    ghost var spans: map<string, Span>

    ghost predicate Valid()
      reads this, repo
    {
      && ValidHistory(candles, session)
      && (forall key :: key !in spans ==> NoRows(repo.rows, key))
      && (forall key :: key in spans ==>
           && spans[key].through <= published
           && Exact(repo.rows, candles, key, spans[key].low, spans[key].through)
           && !NoRows(repo.rows, key))
    }

    constructor (session: int -> bool, ghost candles: History)
      requires ValidHistory(candles, session)
      ensures Valid() && fresh(repo) && spans == map[] && published == 0
      ensures this.session == session && this.candles == candles
    {
      this.session := session;
      this.candles := candles;
      repo := new CandleRepository();
      published := 0;
      spans := map[];
    }

    /** The last session before today, looking back ten days. */
    method LatestAvailableSession(today: int) returns (wanted: Option<int>)
      ensures wanted.None? ==> forall d :: today - 10 <= d < today ==> !session(d)
      ensures wanted.Some? ==> today - 10 <= wanted.value < today && session(wanted.value)
      ensures wanted.Some? ==> forall d :: wanted.value < d < today ==> !session(d)
    {
      var day := today;
      for i := 0 to MAX_LOOKBACK_DAYS
        invariant day == today - i
        invariant forall d :: day <= d < today ==> !session(d)
      {
        day := day - 1;
        if session(day) {
          return Some(day);
        }
      }
      wanted := None;
    }

    /** Whether the newest row is at least as new as the last session that has a candle. */
    method IsCurrent(key: string, today: int) returns (current: bool)
      requires Valid()
      ensures current ==> !NoRows(repo.rows, key)
      ensures Quiet(session, today) ==> (current <==> !NoRows(repo.rows, key))
      ensures !Quiet(session, today) && key in spans && published < today ==>
        (current <==> exists d :: RowKey(key, d) in repo.rows && forall e :: d < e < today ==> !session(e))
    {
      var latest := repo.LatestDate(key);
      var wanted := LatestAvailableSession(today);
      current := latest.Some? && (wanted.None? || latest.value >= wanted.value);
    }

    /** The cache alone: its span of the window. */
    method Cached(key: string, lookback: int, today: int) returns (bars: seq<DailyBar>)
      requires Valid() && published <= today
      ensures bars == (
        if key !in spans then []
        else BarsIn(Visible(candles, key, spans[key].through), Max(today - lookback, spans[key].low), today)
      )
    {
      bars := repo.ReadRange(key, today - lookback, today);
      if key in spans {
        ReadIsExact(repo.rows, candles, key, spans[key].low, spans[key].through, today - lookback, today);
      } else {
        EmptyRead(repo.rows, key, today - lookback, today);
      }
    }

    /** The first fetch of a key with no row. */
    method Fill(key: string, first: int, today: int, fetch: (string, int, int) -> seq<DailyBar>)
      requires Valid() && published < today && Serves(fetch, candles, published) && key !in spans
      modifies this`spans, repo
      ensures Valid()
      ensures spans == if fetch(key, first, today) == [] then old(spans) else old(spans)[key := Span(first, published)]
    {
      ghost var before := repo.rows;
      var bars := fetch(key, first, today);
      repo.Upsert(key, bars);
      Grows(before, repo.rows, candles, session, key, first, first - 1, published, today);
      NothingStored(before, key, bars, repo.rows);
      if bars != [] {
        assert RowKey(key, bars[0].date) in repo.rows;
        spans := spans[key := Span(first, published)];
      }
    }

    /** Fetching what comes after the newest row. */
    method Extend(key: string, latest: int, today: int, fetch: (string, int, int) -> seq<DailyBar>)
      requires Valid() && published < today && Serves(fetch, candles, published) && key in spans
      requires RowKey(key, latest) in repo.rows && forall d :: RowKey(key, d) in repo.rows ==> d <= latest
      modifies this`spans, repo
      ensures Valid() && spans == old(spans)[key := Span(old(spans)[key].low, published)]
    {
      ghost var before := repo.rows;
      var delta := fetch(key, latest + 1, today);
      assert delta == BarsIn(Visible(candles, key, published), latest + 1, today);
      repo.Upsert(key, delta);
      Grows(before, repo.rows, candles, session, key, spans[key].low, latest, published, today);
      NothingStored(before, key, delta, repo.rows);
      spans := spans[key := Span(spans[key].low, published)];
    }

    /** Fetches what the cache of one key lacks. */
    method Refresh(key: string, first: int, today: int, fetch: (string, int, int) -> seq<DailyBar>, ghost out: int)
      requires Valid() && published <= out < today && Serves(fetch, candles, out)
      modifies this, repo
      ensures Valid() && published == out
      ensures key !in old(spans) && BarsIn(Visible(candles, key, out), first, today) == [] ==> spans == old(spans)
      ensures key !in old(spans) && BarsIn(Visible(candles, key, out), first, today) != [] ==>
        spans == old(spans)[key := Span(first, out)]
      ensures key in old(spans) && Quiet(session, today) ==> spans == old(spans)
      ensures key in old(spans) && !Quiet(session, today) ==>
        spans == old(spans)[key := Span(old(spans)[key].low, out)]
    {
      var latest := repo.LatestDate(key);
      published := out;
      if latest.None? {
        assert fetch(key, first, today) == BarsIn(Visible(candles, key, out), first, today);
        Fill(key, first, today, fetch);
      } else {
        var current := IsCurrent(key, today);
        if !current {
          Extend(key, latest.value, today, fetch);
        } else if !Quiet(session, today) {
          ghost var day :| RowKey(key, day) in repo.rows && forall e :: day < e < today ==> !session(e);
          NothingMissing(repo.rows, candles, session, key, spans[key], day, day, out, today);
          spans := spans[key := Span(spans[key].low, out)];
        }
      }
    }

    /**
     * Completed candles of the window. Whatever earlier calls fetched or skipped, the answer is what the
     * source itself gives for the window, from the key's first fill on. The one exception: when the last
     * ten days held no session and the key has rows, nothing is fetched.
     */
    method Daily(key: string, lookback: int, today: int, fetch: (string, int, int) -> seq<DailyBar>, ghost out: int)
      returns (bars: seq<DailyBar>)
      requires Valid() && published <= out < today && Serves(fetch, candles, out)
      modifies this, repo
      ensures Valid() && published == out
      ensures forall k :: k in old(spans) ==> k in spans && spans[k].low == old(spans)[k].low
      ensures forall k :: k in spans && k !in old(spans) ==> k == key && spans[k].low == today - lookback
      ensures key !in old(spans) ==> bars == fetch(key, today - lookback, today)
      ensures key in old(spans) && !Quiet(session, today) ==>
        bars == fetch(key, Max(today - lookback, spans[key].low), today)
      ensures key !in old(spans) && bars != [] ==> key in spans && spans[key].through == out
      ensures key in old(spans) && Quiet(session, today) ==>
        bars == BarsIn(Visible(candles, key, old(spans)[key].through), Max(today - lookback, spans[key].low), today)
      ensures key in old(spans) && TradesEverySession(candles, session, key) ==> (
        bars == fetch(key, Max(today - lookback, spans[key].low), today)
        <==> !Quiet(session, today)
             || NoSessionIn(session, Max(Max(today - lookback, spans[key].low), old(spans)[key].through + 1),
                            Min(out, today - 11)))
    {
      ghost var through := if key in spans then spans[key].through else 0;
      Refresh(key, today - lookback, today, fetch, out);
      bars := Cached(key, lookback, today);
      if key in old(spans) && TradesEverySession(candles, session, key) && Quiet(session, today) {
        CalendarReadIff(candles, session, key, through, out, Max(today - lookback, spans[key].low), today);
      }
    }
  }

  /**
   * When the last ten days held no session and nothing was fetched, the answer misses a candle exactly
   * when one was published for an older day past the cached span.
   */
  lemma QuietReadIff(candles: History, session: int -> bool, key: string, through: int, out: int, first: int,
      today: int)
    requires ValidHistory(candles, session) && through <= out < today && Quiet(session, today)
    ensures
      BarsIn(Visible(candles, key, through), first, today) == BarsIn(Visible(candles, key, out), first, today)
      <==> forall d :: Max(first, through + 1) <= d <= out && d < today - 10 ==> candles(key, d).None?
  {
    var cached, shown := Visible(candles, key, through), Visible(candles, key, out);
    if d :| Max(first, through + 1) <= d <= out && d < today - 10 && candles(key, d).Some? {
      BarsInMembers(cached, first, today);
      BarsInMembers(shown, first, today);
      assert shown(d).value in BarsIn(shown, first, today);
      assert cached(d).None?;
    } else {
      BarsInSame(cached, shown, first, today);
    }
  }

  /** The stock has a candle for every session. */
  ghost predicate TradesEverySession(candles: History, session: int -> bool, key: string) {
    forall d :: session(d) ==> candles(key, d).Some?
  }

  ghost predicate NoSessionIn(session: int -> bool, first: int, last: int) {
    forall d :: first <= d <= last ==> !session(d)
  }

  /**
   * The same from the calendar alone, for a stock that trades every session: the quiet read is complete
   * exactly when no session lies past the cached span and before the days looked back over.
   */
  lemma CalendarReadIff(candles: History, session: int -> bool, key: string, through: int, out: int, first: int,
      today: int)
    requires ValidHistory(candles, session) && through <= out < today && Quiet(session, today)
    requires TradesEverySession(candles, session, key)
    ensures
      BarsIn(Visible(candles, key, through), first, today) == BarsIn(Visible(candles, key, out), first, today)
      <==> NoSessionIn(session, Max(first, through + 1), Min(out, today - 11))
  {
    QuietReadIff(candles, session, key, through, out, first, today);
  }

  // --- the case that is missed ---------------------------------------------------------------------

  function ExampleBar(day: int): DailyBar {
    DailyBar(day, Some(1.0), Some(1.0), Some(1.0), 1.0, 1.0)
  }

  function ExampleSession(day: int): bool {
    day == 100 || day == 105
  }

  function ExampleCandle(key: string, day: int): Option<DailyBar> {
    if ExampleSession(day) then Some(ExampleBar(day)) else None
  }

  function ExampleRead(key: string, first: int, last: int): seq<DailyBar> {
    BarsIn(Visible(ExampleCandle, key, 100), first, last)
  }

  function LaterRead(key: string, first: int, last: int): seq<DailyBar> {
    BarsIn(Visible(ExampleCandle, key, 119), first, last)
  }

  lemma {:induction false} ExampleReads(first: int, published: int, last: int)
    requires first <= 100 <= published <= last
    ensures BarsIn(Visible(ExampleCandle, "TCS", published), first, last)
      == if published < 105 then [ExampleBar(100)] else [ExampleBar(100), ExampleBar(105)]
  {
    var at := Visible(ExampleCandle, "TCS", published);
    forall d ensures at(d) == if d <= published && ExampleSession(d) then Some(ExampleBar(d)) else None {
      assert at(d) == if d <= published then ExampleCandle("TCS", d) else None;
    }
    BarsInStops(at, first, first - 1, 99);
    assert BarsIn(at, first, 100) == [] + [ExampleBar(100)];
    if published < 105 {
      BarsInStops(at, first, 100, last);
    } else {
      BarsInStops(at, first, 100, 104);
      assert BarsIn(at, first, 105) == [ExampleBar(100)] + [ExampleBar(105)];
      BarsInStops(at, first, 105, last);
    }
  }

  /** A service that read the stock's last fifty days on day 101. */
  method ReadOnDay101() returns (service: CandleService)
    ensures service.Valid() && fresh(service) && fresh(service.repo) && service.published == 100
    ensures service.session == ExampleSession && service.candles == ExampleCandle
    ensures "TCS" in service.spans && service.spans["TCS"] == Span(51, 100)
  {
    service := new CandleService(ExampleSession, ExampleCandle);
    var bars := service.Daily("TCS", 50, 101, ExampleRead, 100);
    ExampleReads(51, 100, 101);
    assert ExampleSession(100);
  }

  /** The candle of day 100 is cached on day 101; by day 120 the one of day 105 is more than ten days back. */
  method MissedSession() returns (served: seq<DailyBar>, direct: seq<DailyBar>)
    ensures served == [ExampleBar(100)] && direct == [ExampleBar(100), ExampleBar(105)]
  {
    var service := ReadOnDay101();
    served := service.Daily("TCS", 50, 120, LaterRead, 119);
    direct := LaterRead("TCS", 70, 120);
    assert Quiet(ExampleSession, 120);
    assert served == BarsIn(Visible(ExampleCandle, "TCS", 100), 70, 120);
    ExampleReads(70, 100, 120);
    ExampleReads(70, 119, 120);
  }

  lemma {:induction false} EmptyRead(rows: Rows, key: string, first: int, last: int)
    requires NoRows(rows, key)
    ensures BarsIn(Stored(rows, key), first, last) == []
    decreases last - first
  {
    if first <= last {
      EmptyRead(rows, key, first, last - 1);
    }
  }
}
