/** Usage events, gathered into the hour, day or month they were recorded in. */
module Metering {
  import opened Calendar

  datatype Granularity = Hour | Day | Month

  /** The six kinds of event, by number. */
  type EventType = e: nat | e < 6

  const TYPES: nat := 6

  /** `time` is what the event's timestamp stands for. */
  datatype UsageEvent = UsageEvent(eventType: EventType, quantity: real, time: int)

  datatype Aggregation = Aggregation(windowStart: int, windowEnd: int, totals: seq<real>)

  // ---------------------------------------------------------------- windows

  function Truncate(t: int, g: Granularity): int {
    var day := DayOf(t);
    var year, month := YearOfDay(day), MonthOfDay(day);
    match g
    case Hour => Utc(year, month, DateOfDay(day), HourOf(t))
    case Day => Utc(year, month, DateOfDay(day), 0)
    case Month => Utc(year, month, 1, 0)
  }

  function AddGranularity(t: int, g: Granularity): int {
    var day := DayOf(t);
    var year, month := YearOfDay(day), MonthOfDay(day);
    match g
    case Hour => day * DAY + (HourOf(t) + 1) * HOUR + t % HOUR
    case Day => MakeDay(year, month, DateOfDay(day) + 1) * DAY + t % DAY
    case Month => MakeDay(year, month + 1, DateOfDay(day)) * DAY + t % DAY
  }

  /** `Date.UTC` puts a year before 100 into the twentieth century. */
  predicate Early(t: int) {
    0 <= YearOfDay(DayOf(t)) <= 99
  }

  predicate InWindow(t: int, start: int, g: Granularity) {
    start <= t < AddGranularity(start, g)
  }

  /** Where a month begins and ends, in days. */
  function FirstDay(day: int): int {
    DayFromYear(YearOfDay(day)) + MonthStart(MonthOfDay(day), LeapDay(YearOfDay(day)))
  }

  function PastLastDay(day: int): int {
    DayFromYear(YearOfDay(day)) + MonthStart(MonthOfDay(day) + 1, LeapDay(YearOfDay(day)))
  }

  lemma MonthOfFirstDay(day: int)
    ensures FirstDay(day) <= day < PastLastDay(day)
    ensures YearOfDay(FirstDay(day)) == YearOfDay(day) && MonthOfDay(FirstDay(day)) == MonthOfDay(day)
    ensures DateOfDay(FirstDay(day)) == 1
  {
    hide YearOfDay, MonthOfDay, DayFromYear, IsLeap;
    MonthUnique(FirstDay(day), YearOfDay(day), MonthOfDay(day));
  }

  lemma SameMonth(day: int, other: int)
    requires FirstDay(day) <= other < PastLastDay(day)
    ensures YearOfDay(other) == YearOfDay(day) && MonthOfDay(other) == MonthOfDay(day)
  {
    hide YearOfDay, MonthOfDay, DayFromYear, IsLeap;
    MonthUnique(other, YearOfDay(day), MonthOfDay(day));
  }

  /** The window of a time, without the detour through the calendar. */
  function Start(t: int, g: Granularity): int {
    match g
    case Hour => t - t % HOUR
    case Day => t - t % DAY
    case Month => FirstDay(DayOf(t)) * DAY
  }

  function End(t: int, g: Granularity): int {
    match g
    case Hour => Start(t, g) + HOUR
    case Day => Start(t, g) + DAY
    case Month => PastLastDay(DayOf(t)) * DAY
  }

  lemma HoursOfDay(t: int)
    ensures t == DayOf(t) * DAY + t % DAY
    ensures t % DAY == HourOf(t) * HOUR + t % HOUR
    ensures 0 <= HourOf(t) < 24
  {
    assert t % DAY % HOUR == t % HOUR by {
      var d := DayOf(t);
      assert t == d * DAY + t % DAY && d * DAY == 24 * d * HOUR;
      SameRemainder(24 * d, t % DAY);
      assert t == 24 * d * HOUR + t % DAY;
    }
  }

  lemma SameRemainder(n: int, rest: int)
    ensures (n * HOUR + rest) % HOUR == rest % HOUR
  {
    var q := rest / HOUR;
    assert n * HOUR + rest == (n + q) * HOUR + rest % HOUR;
  }

  lemma TruncateIsStart(t: int, g: Granularity)
    requires !Early(t)
    ensures Truncate(t, g) == Start(t, g)
  {
    hide YearOfDay, MonthOfDay, DayFromYear, IsLeap;
    HoursOfDay(t);
    MakeDayParts(DayOf(t));
    MakeDayInYear(YearOfDay(DayOf(t)), MonthOfDay(DayOf(t)), 1);
  }

  lemma DayOfWhole(day: int, rest: int)
    requires 0 <= rest < DAY
    ensures DayOf(day * DAY + rest) == day && (day * DAY + rest) % DAY == rest
  {
  }

  lemma AddHour(t: int)
    ensures AddGranularity(t, Hour) == t + HOUR
  {
    hide YearOfDay, MonthOfDay, DayFromYear, IsLeap;
    HoursOfDay(t);
  }

  lemma AddDay(t: int)
    ensures AddGranularity(t, Day) == t + DAY
  {
    hide YearOfDay, MonthOfDay, DayFromYear, IsLeap;
    var day := DayOf(t);
    MakeDayInYear(YearOfDay(day), MonthOfDay(day), DateOfDay(day) + 1);
    MakeDayInYear(YearOfDay(day), MonthOfDay(day), DateOfDay(day));
    MakeDayParts(day);
  }

  lemma AddMonth(t: int)
    requires FirstDay(DayOf(t)) * DAY == t
    ensures AddGranularity(t, Month) == End(t, Month)
  {
    hide YearOfDay, MonthOfDay, DayFromYear, IsLeap;
    var day := DayOf(t);
    MonthOfFirstDay(day);
    NextMonth(YearOfDay(day), MonthOfDay(day));
  }

  ghost predicate Aligned(s: int, g: Granularity) {
    Start(s, g) == s
  }

  lemma MonthAligned(t: int)
    ensures Aligned(Start(t, Month), Month)
    ensures End(Start(t, Month), Month) == End(t, Month)
  {
    hide YearOfDay, MonthOfDay, DayFromYear, LeapDay, MonthStart;
    DayOfWhole(FirstDay(DayOf(t)), 0);
    MonthOfFirstDay(DayOf(t));
  }

  lemma StartAligned(t: int, g: Granularity)
    ensures Aligned(Start(t, g), g)
    ensures End(Start(t, g), g) == End(t, g)
  {
    hide FirstDay, PastLastDay;
    match g
    case Hour => SameRemainder(t / HOUR, 0);
    case Day => DayOfWhole(DayOf(t), 0);
    case Month => MonthAligned(t);
  }

  /** From the beginning of a window, adding the granularity leads to its end. */
  lemma AddGranularityIsEnd(s: int, g: Granularity)
    requires Aligned(s, g)
    ensures AddGranularity(s, g) == End(s, g)
  {
    match g
    case Hour => AddHour(s);
    case Day => AddDay(s);
    case Month => AddMonth(s);
  }

  lemma StartEnd(t: int, g: Granularity)
    ensures Start(t, g) <= t < End(t, g)
  {
    hide YearOfDay, MonthOfDay, DayFromYear, IsLeap;
    if g.Month? {
      MonthOfFirstDay(DayOf(t));
      HoursOfDay(t);
    }
  }

  lemma MonthStartOfMember(s: int, t: int)
    requires Aligned(s, Month) && s <= t < End(s, Month)
    ensures Start(t, Month) == s
  {
    hide YearOfDay, MonthOfDay, DayFromYear, IsLeap, MonthStart;
    HoursOfDay(t);
    SameMonth(DayOf(s), DayOf(t));
  }

  /** A window is the window of every time in it. */
  lemma StartOfMember(s: int, t: int, g: Granularity)
    requires Aligned(s, g) && s <= t < End(s, g)
    ensures Start(t, g) == s
  {
    hide FirstDay, PastLastDay;
    match g
    case Hour => SameRemainder(s / HOUR, t - s);
    case Day => DayOfWhole(DayOf(s), t - s);
    case Month => MonthStartOfMember(s, t);
  }

  lemma EarlyUtc(t: int, date: int, hour: int)
    requires Early(t) && 1 <= date <= 31 && 0 <= hour < 24
    ensures Utc(YearOfDay(DayOf(t)), MonthOfDay(DayOf(t)), date, hour) > t
  {
    hide YearOfDay, MonthOfDay, DayFromYear, IsLeap;
    var y := YearOfDay(DayOf(t));
    MakeDayInYear(1900 + y, MonthOfDay(DayOf(t)), date);
    MonthsIncrease(0, MonthOfDay(DayOf(t)), LeapDay(1900 + y));
    YearsIncrease(y + 1, 1900 + y);
    HoursOfDay(t);
  }

  lemma DateInMonth(day: int)
    ensures 1 <= DateOfDay(day) <= 31
  {
    hide YearOfDay, MonthOfDay, DayFromYear, IsLeap;
  }

  /** The window of an event holds it, unless the event is from one of the years 0 to 99. */
  lemma WindowHolds(t: int, g: Granularity)
    ensures InWindow(t, Truncate(t, g), g) <==> !Early(t)
  {
    if Early(t) {
      DateInMonth(DayOf(t));
      HoursOfDay(t);
      EarlyUtc(t, DateOfDay(DayOf(t)), HourOf(t));
      EarlyUtc(t, DateOfDay(DayOf(t)), 0);
      EarlyUtc(t, 1, 0);
    } else {
      TruncateIsStart(t, g);
      StartAligned(t, g);
      AddGranularityIsEnd(Start(t, g), g);
      StartEnd(t, g);
    }
  }

  /** An event of the year 50 is such a one. */
  lemma EarlyTime()
    ensures Early(DayFromYear(50) * DAY)
    ensures forall g :: !InWindow(DayFromYear(50) * DAY, Truncate(DayFromYear(50) * DAY, g), g)
  {
    var t := DayFromYear(50) * DAY;
    YearLength(50);
    DayOfWhole(DayFromYear(50), 0);
    YearUnique(DayFromYear(50), 50);
    forall g ensures !InWindow(t, Truncate(t, g), g) {
      WindowHolds(t, g);
    }
  }

  lemma WholeHours(day: int, hour: int)
    ensures (day * DAY + hour * HOUR) % HOUR == 0
  {
    SameRemainder(24 * day + hour, 0);
    assert day * DAY + hour * HOUR == (24 * day + hour) * HOUR;
  }

  lemma TruncateAligned(t: int, g: Granularity)
    ensures Aligned(Truncate(t, g), g)
  {
    hide YearOfDay, MonthOfDay, DayFromYear, IsLeap;
    if Early(t) {
      var day := DayOf(t);
      var year, month := 1900 + YearOfDay(day), MonthOfDay(day);
      match g
      case Hour => WholeHours(MakeDay(year, month, DateOfDay(day)), HourOf(t));
      case Day => DayOfWhole(MakeDay(year, month, DateOfDay(day)), 0);
      case Month =>
        MakeDayInYear(year, month, 1);
        DayOfWhole(MakeDay(year, month, 1), 0);
        MonthUnique(MakeDay(year, month, 1), year, month);
    } else {
      TruncateIsStart(t, g);
      StartAligned(t, g);
    }
  }

  /** Windows are equal or disjoint, those of early events included. */
  lemma WindowsDisjoint(t: int, u: int, x: int, g: Granularity)
    requires InWindow(x, Truncate(t, g), g) && InWindow(x, Truncate(u, g), g)
    ensures Truncate(t, g) == Truncate(u, g)
  {
    TruncateAligned(t, g);
    TruncateAligned(u, g);
    AddGranularityIsEnd(Truncate(t, g), g);
    AddGranularityIsEnd(Truncate(u, g), g);
    StartOfMember(Truncate(t, g), x, g);
    StartOfMember(Truncate(u, g), x, g);
  }

  /** Whether two times are in the same hour, day or month. */
  ghost predicate Together(t: int, u: int, g: Granularity) {
    match g
    case Hour => t / HOUR == u / HOUR
    case Day => DayOf(t) == DayOf(u)
    case Month => YearOfDay(DayOf(t)) == YearOfDay(DayOf(u)) && MonthOfDay(DayOf(t)) == MonthOfDay(DayOf(u))
  }

  /** Where the window of a time begins: on the hour, at midnight, or at the midnight of the first of the month. */
  ghost predicate Begins(t: int, g: Granularity) {
    match g
    case Hour => t % HOUR == 0
    case Day => t % DAY == 0
    case Month => t % DAY == 0 && DateOfDay(DayOf(t)) == 1
  }

  /** The window of an event that is not an early one is the hour, the day or the month of it, from its beginning. */
  lemma WindowIs(t: int, u: int, g: Granularity)
    requires !Early(t)
    ensures Begins(Truncate(t, g), g) && Together(t, Truncate(t, g), g)
    ensures InWindow(u, Truncate(t, g), g) <==> Together(t, u, g)
  {
    WindowBounds(t, u, g);
    hide Truncate, InWindow, YearOfDay, MonthOfDay;
    match g
    case Hour => HourWindow(t, u);
    case Day => DayWindow(t, u);
    case Month =>
      hide Begins, Together, Start, End;
      MonthWindow(t, u);
  }

  lemma WindowBounds(t: int, u: int, g: Granularity)
    requires !Early(t)
    ensures Truncate(t, g) == Start(t, g)
    ensures InWindow(u, Truncate(t, g), g) <==> Start(t, g) <= u < End(t, g)
  {
    hide Truncate, Start, End, AddGranularity;
    TruncateIsStart(t, g);
    StartAligned(t, g);
    AddGranularityIsEnd(Start(t, g), g);
  }

  lemma HourWindow(t: int, u: int)
    ensures var s := t - t % HOUR; s % HOUR == 0 && s / HOUR == t / HOUR
    ensures t - t % HOUR <= u < t - t % HOUR + HOUR <==> t / HOUR == u / HOUR
  {
    assert t - t % HOUR == t / HOUR * HOUR;
    SameRemainder(t / HOUR, 0);
  }

  lemma DayWindow(t: int, u: int)
    ensures var s := t - t % DAY; s % DAY == 0 && s / DAY == t / DAY
    ensures t - t % DAY <= u < t - t % DAY + DAY <==> t / DAY == u / DAY
  {
    assert t - t % DAY == t / DAY * DAY;
    DayOfWhole(t / DAY, 0);
  }

  lemma MonthWindow(t: int, u: int)
    ensures Begins(Start(t, Month), Month) && Together(t, Start(t, Month), Month)
    ensures Start(t, Month) <= u < End(t, Month) <==> Together(t, u, Month)
  {
    hide YearOfDay, MonthOfDay, DayFromYear, LeapDay, MonthStart;
    var day, other := DayOf(t), DayOf(u);
    DayOfWhole(FirstDay(day), 0);
    MonthOfFirstDay(day);
    HoursOfDay(u);
    if FirstDay(day) <= other < PastLastDay(day) {
      SameMonth(day, other);
    }
    if Together(t, u, Month) {
      MonthOfFirstDay(other);
    }
  }

  // ---------------------------------------------------------------- aggregating

  /** What the events of one kind that fall into one window add up to. */
  function Quantity(events: seq<UsageEvent>, g: Granularity, start: int, kind: EventType): real {
    if events == [] then 0.0
    else
      var last := events[|events| - 1];
      Quantity(events[..|events| - 1], g, start, kind)
      + (if Truncate(last.time, g) == start && last.eventType == kind then last.quantity else 0.0)
  }

  function Total(events: seq<UsageEvent>, kind: EventType): real {
    if events == [] then 0.0
    else
      var last := events[|events| - 1];
      Total(events[..|events| - 1], kind) + (if last.eventType == kind then last.quantity else 0.0)
  }

  ghost predicate Starts(starts: seq<int>, events: seq<UsageEvent>, g: Granularity) {
    && (forall i, j | 0 <= i < j < |starts| :: starts[i] != starts[j])
    && (forall i | 0 <= i < |events| :: Truncate(events[i].time, g) in starts)
    && (forall i | 0 <= i < |starts| :: exists k | 0 <= k < |events| :: Truncate(events[k].time, g) == starts[i])
    && FirstsInOrder(starts, events, g)
  }

  /** Windows come in the order of their first events: an event of a later one has events of all earlier ones before it. */
  ghost predicate FirstsInOrder(starts: seq<int>, events: seq<UsageEvent>, g: Granularity) {
    forall i, j, k | 0 <= i < j < |starts| && 0 <= k < |events| && Truncate(events[k].time, g) == starts[j] ::
      SeenBefore(starts[i], events, k, g)
  }

  ghost predicate SeenBefore(start: int, events: seq<UsageEvent>, k: int, g: Granularity)
    requires k <= |events|
  {
    exists m | 0 <= m < k :: Truncate(events[m].time, g) == start
  }

  /** A window for each hour, day or month that has events, once, with what its events add up to. */
  ghost predicate Aggregates(windows: seq<Aggregation>, events: seq<UsageEvent>, g: Granularity) {
    Starts(WindowStarts(windows), events, g) && forall i | 0 <= i < |windows| :: Fills(windows[i], events, g)
  }

  ghost predicate Fills(window: Aggregation, events: seq<UsageEvent>, g: Granularity) {
    && window.windowEnd == AddGranularity(window.windowStart, g)
    && |window.totals| == TYPES
    && forall kind: EventType :: window.totals[kind] == Quantity(events, g, window.windowStart, kind)
  }

  function WindowStarts(windows: seq<Aggregation>): (starts: seq<int>)
    ensures |starts| == |windows|
    ensures forall i | 0 <= i < |windows| :: starts[i] == windows[i].windowStart
  {
    seq(|windows|, i requires 0 <= i < |windows| => windows[i].windowStart)
  }

  /** The buckets, with their keys in the order in which they were made. */
  ghost predicate Gathered(keys: seq<int>, buckets: map<int, map<EventType, real>>, events: seq<UsageEvent>,
                           g: Granularity) {
    && Starts(keys, events, g)
    && (forall key :: key in buckets <==> key in keys)
    && (forall key | key in keys :: BucketHolds(buckets[key], events, g, key))
  }

  ghost predicate BucketHolds(bucket: map<EventType, real>, events: seq<UsageEvent>, g: Granularity, key: int) {
    forall kind: EventType :: Got(bucket, kind) == Quantity(events, g, key, kind)
  }

  lemma StartsOneMore(keys: seq<int>, events: seq<UsageEvent>, event: UsageEvent, g: Granularity)
    requires Starts(keys, events, g)
    ensures var key := Truncate(event.time, g);
            Starts(if key in keys then keys else keys + [key], events + [event], g)
  {
    hide Truncate, FirstsInOrder;
    var key, more := Truncate(event.time, g), events + [event];
    var all := if key in keys then keys else keys + [key];
    assert more[|events|] == event && key in all by {
      assert key !in keys ==> all[|keys|] == key;
    }
    forall i | 0 <= i < |all| ensures exists k | 0 <= k < |more| :: Truncate(more[k].time, g) == all[i] {
      if i < |keys| {
        var k :| 0 <= k < |events| && Truncate(events[k].time, g) == keys[i];
        assert more[k] == events[k];
      }
    }
    FirstsOneMore(keys, events, event, g);
  }

  lemma FirstsOneMore(keys: seq<int>, events: seq<UsageEvent>, event: UsageEvent, g: Granularity)
    requires Starts(keys, events, g)
    ensures var key := Truncate(event.time, g);
            FirstsInOrder(if key in keys then keys else keys + [key], events + [event], g)
  {
    hide Truncate;
    var key, more := Truncate(event.time, g), events + [event];
    var all := if key in keys then keys else keys + [key];
    forall i, j, k | 0 <= i < j < |all| && 0 <= k < |more| && Truncate(more[k].time, g) == all[j]
      ensures SeenBefore(all[i], more, k, g) {
      assert all[i] == keys[i];
      if k < |events| {
        assert more[k] == events[k] && all[j] in keys;
        assert all[j] == keys[j];
        SeenStill(keys[i], events, event, k, g);
      } else {
        var m :| 0 <= m < |events| && Truncate(events[m].time, g) == keys[i];
        assert more[m] == events[m];
      }
    }
  }

  lemma SeenStill(start: int, events: seq<UsageEvent>, event: UsageEvent, k: int, g: Granularity)
    requires k <= |events| && SeenBefore(start, events, k, g)
    ensures SeenBefore(start, events + [event], k, g)
  {
    hide Truncate;
    var m :| 0 <= m < k && Truncate(events[m].time, g) == start;
    assert (events + [event])[m] == events[m];
  }

  lemma BucketOneMore(bucket: map<EventType, real>, events: seq<UsageEvent>, event: UsageEvent, g: Granularity, key: int)
    requires BucketHolds(bucket, events, g, key)
    ensures Truncate(event.time, g) != key ==> BucketHolds(bucket, events + [event], g, key)
    ensures Truncate(event.time, g) == key ==>
              BucketHolds(bucket[event.eventType := Got(bucket, event.eventType) + event.quantity],
                          events + [event], g, key)
  {
    hide Truncate;
    var more := events + [event];
    assert more[..|events|] == events && more[|more| - 1] == event;
    var sum := Got(bucket, event.eventType) + event.quantity;
    forall kind: EventType | Truncate(event.time, g) == key
      ensures Got(bucket[event.eventType := sum], kind) == Quantity(more, g, key, kind)
    {
      assert Got(bucket, kind) == Quantity(events, g, key, kind);
    }
  }

  lemma NewBucket(keys: seq<int>, events: seq<UsageEvent>, g: Granularity, key: int)
    requires Starts(keys, events, g) && key !in keys
    ensures BucketHolds(map[], events, g, key)
  {
    hide Truncate;
    NoQuantity(keys, events, g, key);
  }

  method Gather(events: seq<UsageEvent>, g: Granularity) returns (keys: seq<int>, buckets: map<int, map<EventType, real>>)
    ensures Gathered(keys, buckets, events, g)
  {
    hide Truncate, Starts, BucketHolds;
    keys, buckets := [], map[];
    assert Starts([], [], g) by {
      NoStarts(g);
    }
    for n := 0 to |events|
      invariant Gathered(keys, buckets, events[..n], g)
    {
      var event := events[n];
      var key := Truncate(event.time, g);
      assert events[..n + 1] == events[..n] + [event];
      StartsOneMore(keys, events[..n], event, g);
      forall k | k in keys ensures BucketHolds(buckets[k], events[..n], g, k) {
      }
      if key !in buckets {
        NewBucket(keys, events[..n], g, key);
        keys, buckets := keys + [key], buckets[key := map[]];
      }
      forall k | k in keys {
        BucketOneMore(buckets[k], events[..n], event, g, k);
      }
      var bucket := buckets[key];
      var sum := Got(bucket, event.eventType) + event.quantity;
      buckets := buckets[key := bucket[event.eventType := sum]];
    }
    assert events[..|events|] == events;
  }

  lemma NoStarts(g: Granularity)
    ensures Starts([], [], g)
  {
  }

  lemma GatheredBuckets(keys: seq<int>, buckets: map<int, map<EventType, real>>, events: seq<UsageEvent>, g: Granularity)
    requires Gathered(keys, buckets, events, g)
    ensures forall i | 0 <= i < |keys| :: keys[i] in buckets && BucketHolds(buckets[keys[i]], events, g, keys[i])
  {
    hide Truncate;
    assert forall i | 0 <= i < |keys| :: keys[i] in keys;
  }

  method AggregateUsage(events: seq<UsageEvent>, g: Granularity) returns (windows: seq<Aggregation>)
    ensures Aggregates(windows, events, g)
  {
    hide Truncate, AddGranularity, Starts;
    var keys, buckets := Gather(events, g);
    GatheredBuckets(keys, buckets, events, g);
    windows := [];
    for n := 0 to |keys|
      invariant |windows| == n
      invariant forall i | 0 <= i < n :: windows[i].windowStart == keys[i] && Fills(windows[i], events, g)
    {
      var bucket := buckets[keys[n]];
      var totals := seq(TYPES, k requires 0 <= k < TYPES => Got(bucket, k));
      windows := windows + [Aggregation(keys[n], AddGranularity(keys[n], g), totals)];
    }
    assert WindowStarts(windows) == keys;
  }

  function Got(bucket: map<EventType, real>, kind: EventType): real {
    if kind in bucket then bucket[kind] else 0.0
  }

  lemma {:induction false} NoQuantity(starts: seq<int>, events: seq<UsageEvent>, g: Granularity, start: int)
    requires forall i | 0 <= i < |events| :: Truncate(events[i].time, g) in starts
    requires start !in starts
    ensures forall kind: EventType :: Quantity(events, g, start, kind) == 0.0
  {
    hide Truncate, AddGranularity;
    if events != [] {
      NoQuantity(starts, events[..|events| - 1], g, start);
    }
  }

  // ---------------------------------------------------------------- nothing lost, nothing counted twice

  function SumOver(starts: seq<int>, events: seq<UsageEvent>, g: Granularity, kind: EventType): real {
    if starts == [] then 0.0 else Quantity(events, g, starts[0], kind) + SumOver(starts[1..], events, g, kind)
  }

  lemma {:induction false} SumOverNone(starts: seq<int>, g: Granularity, kind: EventType)
    ensures SumOver(starts, [], g, kind) == 0.0
  {
    if starts != [] {
      SumOverNone(starts[1..], g, kind);
    }
  }

  lemma {:induction false} SumOverOneMore(starts: seq<int>, events: seq<UsageEvent>, last: UsageEvent, g: Granularity,
                                          kind: EventType)
    requires forall i, j | 0 <= i < j < |starts| :: starts[i] != starts[j]
    ensures SumOver(starts, events + [last], g, kind) == SumOver(starts, events, g, kind)
            + (if Truncate(last.time, g) in starts && last.eventType == kind then last.quantity else 0.0)
  {
    hide Truncate, AddGranularity;
    if starts != [] {
      assert (events + [last])[..|events|] == events;
      SumOverOneMore(starts[1..], events, last, g, kind);
      assert starts[0] !in starts[1..];
    }
  }

  lemma {:induction false} SumOverAll(starts: seq<int>, events: seq<UsageEvent>, g: Granularity, kind: EventType)
    requires forall i, j | 0 <= i < j < |starts| :: starts[i] != starts[j]
    requires forall i | 0 <= i < |events| :: Truncate(events[i].time, g) in starts
    ensures SumOver(starts, events, g, kind) == Total(events, kind)
  {
    hide Truncate, AddGranularity;
    if events == [] {
      SumOverNone(starts, g, kind);
    } else {
      var front, last := events[..|events| - 1], events[|events| - 1];
      assert events == front + [last];
      SumOverAll(starts, front, g, kind);
      SumOverOneMore(starts, front, last, g, kind);
    }
  }

  function Reported(windows: seq<Aggregation>, kind: EventType): real
    requires forall i | 0 <= i < |windows| :: |windows[i].totals| == TYPES
  {
    if windows == [] then 0.0 else windows[0].totals[kind] + Reported(windows[1..], kind)
  }

  lemma {:induction false} ReportedIsSum(windows: seq<Aggregation>, events: seq<UsageEvent>, g: Granularity,
                                         kind: EventType)
    requires forall i | 0 <= i < |windows| ::
               |windows[i].totals| == TYPES && windows[i].totals[kind] == Quantity(events, g, windows[i].windowStart, kind)
    ensures Reported(windows, kind) == SumOver(WindowStarts(windows), events, g, kind)
  {
    hide Truncate, AddGranularity;
    if windows != [] {
      ReportedIsSum(windows[1..], events, g, kind);
      assert WindowStarts(windows)[1..] == WindowStarts(windows[1..]);
    }
  }

  /** What the windows report of a kind is what the events of that kind add up to. */
  lemma QuantityConserved(windows: seq<Aggregation>, events: seq<UsageEvent>, g: Granularity, kind: EventType)
    requires Aggregates(windows, events, g)
    ensures Reported(windows, kind) == Total(events, kind)
  {
    hide Truncate, AddGranularity;
    ReportedIsSum(windows, events, g, kind);
    SumOverAll(WindowStarts(windows), events, g, kind);
  }

  /** Each event lies in exactly one of the windows, or, from the years 0 to 99, not in the one it is counted in. */
  lemma OneWindowEach(windows: seq<Aggregation>, events: seq<UsageEvent>, g: Granularity, k: nat)
    requires Aggregates(windows, events, g) && k < |events|
    ensures exists i | 0 <= i < |windows| ::
              && windows[i].windowStart == Truncate(events[k].time, g)
              && (windows[i].windowStart <= events[k].time < windows[i].windowEnd <==> !Early(events[k].time))
    ensures forall i, j | 0 <= i < |windows| && 0 <= j < |windows|
              && windows[i].windowStart <= events[k].time < windows[i].windowEnd
              && windows[j].windowStart <= events[k].time < windows[j].windowEnd :: i == j
  {
    hide Truncate, AddGranularity, Early, Quantity;
    var starts, t := WindowStarts(windows), events[k].time;
    var at :| 0 <= at < |starts| && starts[at] == Truncate(t, g);
    WindowHolds(t, g);
    assert windows[at].windowStart == Truncate(t, g);
    forall i, j | 0 <= i < |windows| && 0 <= j < |windows|
      && windows[i].windowStart <= t < windows[i].windowEnd
      && windows[j].windowStart <= t < windows[j].windowEnd
      ensures i == j
    {
      var a :| 0 <= a < |events| && Truncate(events[a].time, g) == starts[i];
      var b :| 0 <= b < |events| && Truncate(events[b].time, g) == starts[j];
      WindowsDisjoint(events[a].time, events[b].time, t, g);
      assert starts[i] == starts[j];
    }
  }
}
