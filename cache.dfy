/**
 * The weather provider's response and the single cache slot that stores it.
 * The slot's only validity criterion is the age of its timestamp.
 */
module Cache {

  /** The JSON value of the response's `cod` field. The provider sends the
      number 200 on success and, on failure, often a string such as "404";
      the status check compares with `!==`, so only the NUMBER 200 passes. */
  datatype StatusCode = Num(n: int) | Text(s: string) | Missing

  /** The fields of the provider's (metric) response that the widget reads:
      `cod`, `message`, `name`, `main.temp`, `main.humidity`, `main.pressure`,
      `wind.speed` and `weather[0].description`. */
  datatype Response = Response(
    cod: StatusCode,
    message: string,
    name: string,
    temp: real,
    humidity: int,
    pressure: int,
    windSpeed: real,
    description: string)

  /** The record kept under the storage key "weatherData": the raw response and the epoch
      milliseconds at which it was written. */
  datatype Entry = Entry(data: Response, timestamp: int)

  /** One hour in milliseconds. */
  const CacheDuration: int := 60 * 60 * 1000

  /** A response is a success exactly when `cod` is the number 200. */
  predicate IsSuccess(d: Response) {
    d.cod == Num(200)
  }

  /** An entry is fresh at `now` while its age is strictly below the duration. */
  predicate IsFresh(e: Entry, now: int) {
    now - e.timestamp < CacheDuration
  }

  /** Freshness is the strict comparison of the age with one hour: an entry is
      fresh for 3,599,999 ms after it is written and stale from 3,600,000 ms on. */
  lemma FreshnessBoundary(e: Entry, now: int)
    ensures CacheDuration == 3_600_000
    ensures IsFresh(e, now) <==> now < e.timestamp + 3_600_000
    ensures IsFresh(e, e.timestamp + 3_599_999)
    ensures !IsFresh(e, e.timestamp + 3_600_000)
  {
  }

  /** Freshness is monotone in time: once stale, an entry stays stale (as long
      as the clock does not move backwards). */
  lemma StaleStaysStale(e: Entry, now: int, later: int)
    requires now <= later
    requires !IsFresh(e, now)
    ensures !IsFresh(e, later)
  {
  }

  /** A status that is not the number 200 is a failure: the string "200", a
      missing code and any other number all fail the strict comparison. */
  lemma OnlyNumber200Succeeds(d: Response)
    ensures IsSuccess(d) <==> d.cod.Num? && d.cod.n == 200
    ensures d.cod == Text("200") ==> !IsSuccess(d)
    ensures d.cod == Missing ==> !IsSuccess(d)
  {
  }
}
