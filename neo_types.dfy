/** Shared record shapes and calendar arithmetic for the near-earth-object views.

    A JavaScript `Record<string, NEODetails[]>` keyed by `YYYY-MM-DD` strings is
    modelled by `Buckets`: the keys as day numbers, kept in insertion order (the
    order `Object.entries` enumerates them), and the lists they map to. */
module NeoTypes {

  datatype Option<+T> = None | Some(value: T)

  /** Calendar day, counted in days since 1970-01-01. For `YYYY-MM-DD` keys
      the chronological order of days is the string order of the keys. */
  type Day = int

  /** Point in time, in milliseconds since 1970-01-01T00:00:00Z (a JavaScript `Date`). */
  type Instant = int

  const MsPerDay: int := 86400000

  /** The local calendar day of instant `t` in a zone `tz` milliseconds ahead of UTC
      (what `format(t, "yyyy-MM-dd")` prints). */
  function LocalDay(t: Instant, tz: int): (d: Day)
    ensures d * MsPerDay <= t + tz < (d + 1) * MsPerDay
  {
    (t + tz) / MsPerDay
  }

  /** Later instants never fall on earlier local days. */
  lemma LocalDayMonotone(s: Instant, t: Instant, tz: int)
    requires s <= t
    ensures LocalDay(s, tz) <= LocalDay(t, tz)
  {
  }

  /** Local midnight at the start of day `d` (what `parseISO("YYYY-MM-DD")` yields). */
  function LocalMidnight(d: Day, tz: int): (t: Instant)
    ensures LocalDay(t, tz) == d
  {
    d * MsPerDay - tz
  }

  /** `addDays(t, n)`: the same local wall-clock time `n` days later
      (a fixed UTC offset, so no daylight-saving shift). */
  function AddDays(t: Instant, n: int): (r: Instant)
    ensures forall tz :: LocalDay(r, tz) == LocalDay(t, tz) + n
  {
    t + n * MsPerDay
  }

  /** Estimated diameter range, in kilometres. */
  datatype Diameter = Diameter(minKm: real, maxKm: real)

  /** One close-approach event; the feed's string-encoded decimals are taken as already parsed. */
  datatype CloseApproach = CloseApproach(
    date: Day,
    dateFull: string,
    epochMs: int,
    kmPerSecond: real,
    kmPerHour: real,
    milesPerHour: real,
    missAstronomical: real,
    missLunar: real,
    missKm: real,
    orbitingBody: string)

  /** A near-earth object as the feed describes it. */
  datatype Neo = Neo(
    id: string,
    name: string,
    jplUrl: string,
    absoluteMagnitude: real,
    diameter: Diameter,
    hazardous: bool,
    approaches: seq<CloseApproach>)

  /** A flattened `{ neo, date }` pair: an object and the key of the bucket it came from. */
  datatype Entry = Entry(neo: Neo, date: Day)

  /** A date-bucketed collection: `dates` are the keys in enumeration order. */
  datatype Buckets = Buckets(dates: seq<Day>, lists: map<Day, seq<Neo>>)

  const Empty: Buckets := Buckets([], map[])

  /** Each key appears once, and the enumerated keys are exactly the map's keys. */
  ghost predicate Wf(b: Buckets) {
    && (forall i, j :: 0 <= i < j < |b.dates| ==> b.dates[i] != b.dates[j])
    && (forall d :: d in b.lists <==> d in b.dates)
  }

  /** An inclusive search window of calendar days, as sent to the feed (`start_date`, `end_date`). */
  datatype Window = Window(start: Day, end: Day)

  /** Result of one call to the feed: its collection, or a failure (non-success status or network error). */
  datatype FeedResult = Fetched(page: Buckets) | FetchFailed
}
