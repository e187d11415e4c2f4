/**
 * Report access (src/api/report.js): the invite-code call, a module-level cache
 * of report details with a five-second lifetime, and the report-detail read
 * that normalises the database row.
 *
 * The clock is a parameter of every operation that reads it; the database query
 * and the cloud-function call are given as their outcomes.
 */
module ReportApi {
  import opened Wrappers
  import Json

  // ------------------------------------------------------------ invite code

  /** The cloud-function call `verifyInviteCode` makes. */
  datatype FunctionCall = FunctionCall(name: string, action: string, reportId: string, inviteCode: string)

  const NoAppError: string := "cloudbaseApp 未初始化"

  /** `verifyInviteCode`: the `consume` call of the `invite-code` function, or the error without an app. */
  function VerifyInviteCode(appPresent: bool, inviteCode: string, reportId: string): (r: Result<FunctionCall>)
    ensures r.Err? <==> !appPresent
    ensures r.Err? ==> r.error == NoAppError
    ensures r.Ok? ==> r.value == FunctionCall("invite-code", "consume", reportId, inviteCode)
  {
    if !appPresent then Err(NoAppError)
    else Ok(FunctionCall("invite-code", "consume", reportId, inviteCode))
  }

  // -------------------------------------------------------------- the row

  /** `REPORT_STATUS.COMPLETED`. */
  const Completed: int := 1

  /** A row of the `report` table as the query returns it; any column may be missing or null. */
  datatype Row = Row(
    content: Field<string>,
    status: Field<int>,
    subTitle: Field<string>,
    username: Field<string>,
    lock: Field<int>,
    inviteCode: Field<string>)

  /** The normalised report detail handed to the pages and kept in the cache. */
  datatype Detail = Detail(
    content: string,
    status: Field<int>,
    subTitle: string,
    username: Field<string>,
    lock: Field<int>,
    inviteCode: string,
    isCompleted: bool,
    isLocked: bool)

  /** `x || ''` on a text column: missing, null and empty all give the empty string. */
  function TextOrEmpty(f: Field<string>): (r: string)
    ensures f.Value? ==> r == f.v
    ensures !f.Value? ==> r == ""
  {
    f.Coalesce("")
  }

  /**
   * The row-to-detail normalisation of `getReportDetail`. Text columns default to
   * the empty string; a missing (undefined) lock counts as 1, locked, while a null
   * lock is kept and counts as unlocked.
   */
  function Normalize(row: Row): (d: Detail)
    ensures d.content == TextOrEmpty(row.content)
    ensures d.subTitle == TextOrEmpty(row.subTitle)
    ensures d.inviteCode == TextOrEmpty(row.inviteCode)
    ensures d.status == row.status && d.username == row.username
    ensures d.lock == (if row.lock == Undefined then Value(1) else row.lock)
    ensures d.isLocked <==> d.lock == Value(1)
    ensures d.isCompleted <==> row.status == Value(Completed)
  {
    Detail(
      TextOrEmpty(row.content),
      row.status,
      TextOrEmpty(row.subTitle),
      row.username,
      if row.lock != Undefined then row.lock else Value(1),
      TextOrEmpty(row.inviteCode),
      row.status == Value(Completed),
      if row.lock != Undefined then row.lock == Value(1) else true)
  }

  /** A detail's lock is never missing, and a row without a lock column reads as locked. */
  lemma NormalizeDefaultsLocked(row: Row)
    ensures Normalize(row).lock != Undefined
    ensures row.lock == Undefined ==> Normalize(row).isLocked
    ensures row.lock == Null ==> !Normalize(row).isLocked
  {
  }

  // ----------------------------------------------------------------- cache

  /** `CACHE_DURATION`, in milliseconds. */
  const CacheDuration: int := 5000

  /** The table name under which details are cached. */
  const DetailTable: string := "report_detail"

  /** `getCacheKey(rdb, 'report_detail', { reportId })`: the table, `_`, then the params as JSON; `rdb` plays no part. */
  function DetailCacheKey(reportId: string): (r: string)
    ensures |r| > |DetailTable| && r[..|DetailTable|] == DetailTable
  {
    DetailTable + "_" + "{\"reportId\":" + Json.Quote(reportId) + "}"
  }

  /** Different reports never share a cache entry. */
  lemma DetailCacheKeyInjective(a: string, b: string)
    requires DetailCacheKey(a) == DetailCacheKey(b)
    ensures a == b
  {
    var prefix := DetailTable + "_" + "{\"reportId\":";
    var ka, kb := DetailCacheKey(a), DetailCacheKey(b);
    assert ka == prefix + (Json.Quote(a) + "}");
    assert kb == prefix + (Json.Quote(b) + "}");
    assert Json.Quote(a) + "}" == ka[|prefix|..];
    assert Json.Quote(b) + "}" == kb[|prefix|..];
    var qa, qb := Json.Quote(a), Json.Quote(b);
    assert qa == (qa + "}")[..|qa|];
    assert qb == (qb + "}")[..|qb|];
    Json.QuoteInjective(a, b);
  }

  /** A cache entry: the cached detail and when it was stored. */
  datatype Entry = Entry(data: Detail, timestamp: int)

  /** What the database query of `getReportDetail` gives back. */
  datatype QueryOutcome =
    | QueryError(message: string)
    | NoData
    | Rows(rows: seq<Row>)

  /** The module-level `cache` map and the functions of report.js that use it. */
  class DetailCache {
    var entries: map<string, Entry>

    /** The cache starts empty. */
    constructor()
      ensures entries == map[]
    {
      entries := map[];
    }

    /** An entry is still fresh when it is at most the cache duration old. */
    static predicate Fresh(e: Entry, now: int) {
      now - e.timestamp <= CacheDuration
    }

    /**
     * `getCachedData`: a missing key gives nothing; a fresh entry gives its data;
     * a stale entry is deleted and gives nothing.
     */
    method GetCachedData(key: string, now: int) returns (r: Option<Detail>)
      modifies this
      ensures key !in old(entries) ==> r == None && entries == old(entries)
      ensures key in old(entries) && Fresh(old(entries)[key], now) ==>
        r == Some(old(entries)[key].data) && entries == old(entries)
      ensures key in old(entries) && !Fresh(old(entries)[key], now) ==>
        r == None && entries == old(entries) - {key}
    {
      if key !in entries {
        return None;
      }
      var cached := entries[key];
      if now - cached.timestamp > CacheDuration {
        entries := entries - {key};
        return None;
      }
      r := Some(cached.data);
    }

    /** `setCachedData`: replaces the key's entry by the data stamped with the current time. */
    method SetCachedData(key: string, data: Detail, now: int)
      modifies this
      ensures entries == old(entries)[key := Entry(data, now)]
    {
      entries := entries[key := Entry(data, now)];
    }

    /** A detail stored at `t` is read back by every lookup at most the cache duration later. */
    method SetThenGet(key: string, data: Detail, t: int, now: int) returns (r: Option<Detail>)
      modifies this
      ensures now - t <= CacheDuration ==> r == Some(data) && entries == old(entries)[key := Entry(data, t)]
      ensures now - t > CacheDuration ==> r == None && entries == old(entries) - {key}
    {
      SetCachedData(key, data, t);
      r := GetCachedData(key, now);
    }

    /**
     * `getReportDetail`. Without a report id (missing or empty) or without a
     * database nothing is touched and the answer is null. Otherwise a fresh cached
     * detail is returned without a query unless `skipCache` is set, which deletes
     * the entry first. A query error is rethrown; no row gives null and caches
     * nothing; the first row is normalised, cached at `setTime` and returned.
     * `queried` tells whether the database was asked.
     */
    method GetReportDetail(reportId: Option<string>, rdbPresent: bool, skipCache: bool,
                           lookupTime: int, setTime: int, query: QueryOutcome)
      returns (r: Result<Option<Detail>>, queried: bool)
      modifies this
      ensures reportId.None? || reportId == Some("") || !rdbPresent ==>
        r == Ok(None) && !queried && entries == old(entries)
      ensures reportId.Some? && reportId.value != "" && rdbPresent ==>
        var key := DetailCacheKey(reportId.value);
        var cachedHit := !skipCache && key in old(entries) && Fresh(old(entries)[key], lookupTime);
        var base := old(entries) - {key};
        && (cachedHit ==> r == Ok(Some(old(entries)[key].data)) && !queried && entries == old(entries))
        && (!cachedHit ==> queried && ResultOfQuery(query, r, entries, base, key, setTime))
    {
      queried := false;
      if reportId.None? || reportId.value == "" || !rdbPresent {
        return Ok(None), false;
      }
      var key := DetailCacheKey(reportId.value);
      if !skipCache {
        var cached := GetCachedData(key, lookupTime);
        if cached.Some? {
          return Ok(cached), false;
        }
      } else {
        entries := entries - {key};
      }
      assert entries == old(entries) - {key};
      queried := true;
      match query {
        case QueryError(message) =>
          r := Err(message);
        case NoData =>
          r := Ok(None);
        case Rows(rows) =>
          if |rows| == 0 {
            r := Ok(None);
          } else {
            var detail := Normalize(rows[0]);
            SetCachedData(key, detail, setTime);
            r := Ok(Some(detail));
          }
      }
    }

    /** How the query's outcome decides the answer and the cache after a miss. */
    static predicate ResultOfQuery(query: QueryOutcome, r: Result<Option<Detail>>, entries: map<string, Entry>,
                                   base: map<string, Entry>, key: string, setTime: int) {
      match query
      case QueryError(message) => r == Err(message) && entries == base
      case NoData => r == Ok(None) && entries == base
      case Rows(rows) =>
        if |rows| == 0 then r == Ok(None) && entries == base
        else r == Ok(Some(Normalize(rows[0]))) && entries == base[key := Entry(Normalize(rows[0]), setTime)]
    }
  }
}
