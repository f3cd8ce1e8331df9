/** The fetcher: one bounded request per (dataset, day) for the half-open
    window from the day's midnight to the next day's, the truncation
    warning, and the degradation of a transport failure to an empty body.
    The HTTP call itself is the `api` parameter. */
module Fetcher {
  import opened Values
  import opened Calendar

  /** The decoded JSON body: an optional integer `total` and an optional
      `records` list (absent or null reads as None); the other keys are
      unused. */
  datatype Payload = Payload(total: Option<int>, records: Option<seq<Record>>)

  /** `{}`, what a failed fetch returns. */
  const EmptyPayload: Payload := Payload(None, None)

  /** The query the loader sends: path segment and the three query parameters. */
  datatype Request = Request(dataset: string, start: string, end: string, limit: int)

  datatype Response = Received(body: Payload) | TransportFailure

  /** The remote API, as seen by the loader. */
  type Api = Request -> Response

  /** The request for one day, `start={day}T00:00&end={day + 1}`: the
      window starts at the day itself and ends at its Gregorian successor;
      dataset and limit pass through. */
  function QueryFor(dataset: string, day: Day, limit: int): (q: Request)
    ensures q.dataset == dataset && q.limit == limit
    ensures |q.start| >= 16 && q.start[|q.start| - 6..] == "T00:00"
    ensures ParseDay(q.start[..|q.start| - 6]) == Some(day)
    ensures ParseDay(q.end) == Some(NextDay(day))
    ensures DayNumber(NextDay(day)) == DayNumber(day) + 1
    ensures NextDay(day).year <= 9999 ==> |q.start| == 16 && |q.end| == 10
  {
    var start := Format(day) + "T00:00";
    assert start[..|start| - 6] == Format(day);
    FormatRoundTrip(day);
    FormatRoundTrip(NextDay(day));
    NextDayIsSuccessor(day);
    Request(dataset, start, Format(NextDay(day)), limit)
  }

  /** The server reports more records than were asked for; a missing
      `total` counts as 0. */
  predicate Truncated(p: Payload, limit: int)
    ensures p.total.Some? ==> (Truncated(p, limit) <==> p.total.value > limit)
    ensures p.total.None? ==> (Truncated(p, limit) <==> limit < 0)
  {
    (if p.total.Some? then p.total.value else 0) > limit
  }

  /** What a fetch hands back: the body, and whether it warned of truncation. */
  datatype Fetched = Fetched(payload: Payload, truncationWarning: bool)

  function FetchDatasetFromApi(api: Api, dataset: string, day: Day, limit: int): (f: Fetched)
    ensures api(QueryFor(dataset, day, limit)).Received? ==>
      f.payload == api(QueryFor(dataset, day, limit)).body
    ensures api(QueryFor(dataset, day, limit)).TransportFailure? ==>
      f.payload == EmptyPayload && !f.truncationWarning
    ensures f.truncationWarning <==>
      api(QueryFor(dataset, day, limit)).Received? && Truncated(f.payload, limit)
  {
    match api(QueryFor(dataset, day, limit))
    case Received(body) => Fetched(body, Truncated(body, limit))
    case TransportFailure => Fetched(EmptyPayload, false)
  }
}
