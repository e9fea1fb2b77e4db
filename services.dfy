/**
 * The quote service: XRP price in BRL and USD, each channel with a time-based
 * cache, an ordered list of price sources tried until the first one that
 * yields a price, and a JSON price history bounded to its last 500 records.
 *
 * The network calls of the sources become the list of their outcomes, the
 * clock becomes the `now` parameter (seconds) and the ISO-8601 text of
 * `datetime.now()` the `stamp` parameter. Python truthiness is kept: a price
 * of 0 counts as "no price".
 */
module Services {
  import opened Storage
  import opened Utils

  const CACHE_EXPIRATION: int := 5 * 60   // BRL cache lifetime, seconds
  const USD_EXPIRATION: int := 10 * 60    // USD cache lifetime, seconds
  const HISTORY_LIMIT: int := 500         // records kept by `history[-500:]`

  /** The outcome of calling one price source: it raised, or returned a number. */
  datatype SourceResult = Raise | Value(v: real)

  /** A cache dict {"price": ..., "timestamp": ...}. */
  datatype CacheEntry = CacheEntry(price: Option<real>, timestamp: int)

  /** The result of fetch_xrp_price. */
  datatype BrlQuote =
    | Quote(price: real, percent: real)  // (price, percent)
    | NoData                             // (None, None): every source failed
    | Raised                             // the history read raised an error the function does not catch

  /** Python truthiness of an optional price: neither None nor 0. */
  predicate Truthy(p: Option<real>) { p.Some? && p.value != 0.0 }

  /** A source that returned a usable (truthy) price. */
  predicate Succeeds(s: SourceResult) { s.Value? && s.v != 0.0 }

  /** The cache may be served: it holds a truthy price younger than `ttl`. */
  predicate Fresh(c: CacheEntry, now: int, ttl: int)
  {
    Truthy(c.price) && now - c.timestamp < ttl
  }

  // ---------------------------------------------------------------------------
  // Sources: first success, and what the loop variable holds when none succeeds
  // ---------------------------------------------------------------------------

  /** The price of the first source, in list order, that yields a truthy price. */
  function FirstSuccess(sources: seq<SourceResult>): (r: Option<real>)
    ensures r.Some? ==> r.value != 0.0 && Value(r.value) in sources
    ensures r.None? <==> forall i :: 0 <= i < |sources| ==> !Succeeds(sources[i])
  {
    if |sources| == 0 then None
    else if Succeeds(sources[0]) then Some(sources[0].v)
    else FirstSuccess(sources[1..])
  }

  /** The source at `i` succeeds and no earlier one does: its price wins. */
  lemma {:induction false} FirstSuccessIsFirst(sources: seq<SourceResult>, i: int)
    requires 0 <= i < |sources| && Succeeds(sources[i])
    requires forall j :: 0 <= j < i ==> !Succeeds(sources[j])
    ensures FirstSuccess(sources) == Some(sources[i].v)
  {
    if i > 0 {
      FirstSuccessIsFirst(sources[1..], i - 1);
    }
  }

  /**
   * Once a prefix of the sources yields a price, the sources after it are
   * never consulted: whatever they would return, the result is the same.
   */
  lemma {:induction false} LaterSourcesIgnored(tried: seq<SourceResult>, rest: seq<SourceResult>)
    requires FirstSuccess(tried).Some?
    ensures FirstSuccess(tried + rest) == FirstSuccess(tried)
  {
    assert (tried + rest)[0] == tried[0];
    if !Succeeds(tried[0]) {
      assert (tried + rest)[1..] == tried[1..] + rest;
      LaterSourcesIgnored(tried[1..], rest);
    }
  }

  /** FirstSuccess picks a truthy price whose source is preceded only by failures. */
  lemma {:induction false} FirstSuccessIsEarliest(sources: seq<SourceResult>)
    requires FirstSuccess(sources).Some?
    ensures exists i :: 0 <= i < |sources| && Succeeds(sources[i])
                        && sources[i].v == FirstSuccess(sources).value
                        && forall j :: 0 <= j < i ==> !Succeeds(sources[j])
  {
    if Succeeds(sources[0]) {
      assert sources[0].v == FirstSuccess(sources).value;
    } else {
      FirstSuccessIsEarliest(sources[1..]);
      var i :| 0 <= i < |sources[1..]| && Succeeds(sources[1..][i])
               && sources[1..][i].v == FirstSuccess(sources[1..]).value
               && forall j :: 0 <= j < i ==> !Succeeds(sources[1..][j]);
      assert Succeeds(sources[i + 1]);
      assert forall j :: 0 <= j < i + 1 ==> !Succeeds(sources[j]) by {
        forall j | 0 <= j < i + 1 ensures !Succeeds(sources[j]) {
          if j > 0 { assert sources[j] == sources[1..][j - 1]; }
        }
      }
    }
  }

  /**
   * The value the loop variable holds after every source in `sources` was
   * tried without success: each call that does not raise overwrites it.
   */
  function LastValue(sources: seq<SourceResult>): (r: Option<real>)
    ensures r.None? <==> forall i :: 0 <= i < |sources| ==> sources[i].Raise?
    ensures r.Some? ==> Value(r.value) in sources
  {
    if |sources| == 0 then None
    else if sources[|sources| - 1].Value? then Some(sources[|sources| - 1].v)
    else LastValue(sources[..|sources| - 1])
  }

  /** The price of the last source that yields a truthy price. */
  function LastSuccess(sources: seq<SourceResult>): (r: Option<real>)
    ensures r.Some? ==> r.value != 0.0 && Value(r.value) in sources
    ensures r.None? <==> FirstSuccess(sources).None?
  {
    if |sources| == 0 then None
    else if Succeeds(sources[|sources| - 1]) then Some(sources[|sources| - 1].v)
    else LastSuccess(sources[..|sources| - 1])
  }

  /**
   * When no source succeeds, the loop variable is falsy: None when every
   * source raised, otherwise the 0 that the last non-raising source returned.
   */
  lemma {:induction false} FailedLookupIsFalsy(sources: seq<SourceResult>)
    requires FirstSuccess(sources).None?
    ensures !Truthy(LastValue(sources))
    ensures LastValue(sources).None? <==> forall i :: 0 <= i < |sources| ==> sources[i].Raise?
  {
    var r := LastValue(sources);
    if r.Some? {
      var i :| 0 <= i < |sources| && sources[i] == Value(r.value);
      assert !Succeeds(sources[i]);
    }
  }

  // ---------------------------------------------------------------------------
  // Cache
  // ---------------------------------------------------------------------------

  /** The price a fetch works with: the cached one if fresh, else the first success. */
  function Lookup(c: CacheEntry, now: int, ttl: int, sources: seq<SourceResult>): (r: Option<real>)
    ensures r.Some? ==> r.value != 0.0
    ensures r.None? <==> !Fresh(c, now, ttl) && forall i :: 0 <= i < |sources| ==> !Succeeds(sources[i])
  {
    if Fresh(c, now, ttl) then c.price else FirstSuccess(sources)
  }

  /** The cache after storing the price found at `now`, if any. */
  function StoreFound(c: CacheEntry, found: Option<real>, now: int): (r: CacheEntry)
    ensures found.None? ==> r == c
    ensures found.Some? ==> r.price == found && r.timestamp == now
  {
    if found.Some? then CacheEntry(found, now) else c
  }

  /** The cache after a fetch: kept when fresh or when no source succeeds. */
  function Refresh(c: CacheEntry, now: int, ttl: int, sources: seq<SourceResult>): (r: CacheEntry)
    ensures Fresh(c, now, ttl) ==> r == c
    ensures Lookup(c, now, ttl, sources).Some? ==> r.price == Lookup(c, now, ttl, sources)
    ensures Lookup(c, now, ttl, sources).None? ==> r == c
    ensures r != c && ttl > 0 ==> r.timestamp == now && Fresh(r, now, ttl)
  {
    if Fresh(c, now, ttl) then c else StoreFound(c, FirstSuccess(sources), now)
  }

  /**
   * Cache semantics: a fresh cache is served and kept without consulting any
   * source; otherwise the first success is served and cached at `now`, or,
   * when no source succeeds, there is no price and the cache is kept.
   */
  lemma {:induction false} LookupAndRefresh(c: CacheEntry, now: int, ttl: int, sources: seq<SourceResult>)
    ensures Fresh(c, now, ttl) ==>
              Lookup(c, now, ttl, sources) == c.price && Refresh(c, now, ttl, sources) == c
    ensures !Fresh(c, now, ttl) && (exists i :: 0 <= i < |sources| && Succeeds(sources[i])) ==>
              Truthy(Lookup(c, now, ttl, sources))
              && Refresh(c, now, ttl, sources) == CacheEntry(Lookup(c, now, ttl, sources), now)
    ensures !Fresh(c, now, ttl) && (forall i :: 0 <= i < |sources| ==> !Succeeds(sources[i])) ==>
              Lookup(c, now, ttl, sources).None? && Refresh(c, now, ttl, sources) == c
  {
    if !Fresh(c, now, ttl) && FirstSuccess(sources).None? {
      assert forall i :: 0 <= i < |sources| ==> !Succeeds(sources[i]);
    }
    if FirstSuccess(sources).Some? {
      FirstSuccessIsEarliest(sources);
    }
  }

  /**
   * After a refresh at `now` that found a price, a fetch at `later` within
   * the TTL serves that price, and one at `now + ttl` or after does not.
   */
  lemma RefreshedCacheServes(c: CacheEntry, now: int, later: int, ttl: int,
                             sources: seq<SourceResult>, next: seq<SourceResult>)
    requires !Fresh(c, now, ttl) && FirstSuccess(sources).Some?
    ensures var c' := Refresh(c, now, ttl, sources);
            (later - now < ttl ==> Lookup(c', later, ttl, next) == FirstSuccess(sources))
            && (later - now >= ttl ==> Lookup(c', later, ttl, next) == FirstSuccess(next))
  {
  }

  // ---------------------------------------------------------------------------
  // History
  // ---------------------------------------------------------------------------

  /**
   * The BRL history after a quote of `price`: a record is appended only when
   * the history is empty or its last price differs, then the last 500 are kept.
   */
  function RecordQuote(history: seq<Record>, price: real, stamp: string): (r: seq<Record>)
    ensures 0 < |r| <= HISTORY_LIMIT
    ensures r[|r| - 1].price == price
    ensures |history| == 0 || history[|history| - 1].price != price ==>
              r[|r| - 1] == Record(stamp, price)
              && IsSuffix(r[..|r| - 1], history) && |r| == Min(|history| + 1, HISTORY_LIMIT)
    ensures |history| > 0 && history[|history| - 1].price == price ==>
              IsSuffix(r, history) && |r| == Min(|history|, HISTORY_LIMIT)
  {
    var appended := if |history| == 0 || price != history[|history| - 1].price
                    then history + [Record(stamp, price)]
                    else history;
    KeepLast(appended, HISTORY_LIMIT)
  }

  /** The USD history after saving `price`: always appended, then the last 500 are kept. */
  function AppendUsdRecord(history: seq<Record>, price: real, stamp: string): (r: seq<Record>)
    ensures 0 < |r| <= HISTORY_LIMIT
    ensures r[|r| - 1] == Record(stamp, price)
    ensures IsSuffix(r[..|r| - 1], history) && |r| == Min(|history| + 1, HISTORY_LIMIT)
  {
    KeepLast(history + [Record(stamp, price)], HISTORY_LIMIT)
  }

  /**
   * The percent change of `price` against the second-to-last record of the
   * (already updated) history; 0 when there is no such record or its price is 0.
   */
  function PercentChange(history: seq<Record>, price: real): (r: real)
    ensures |history| < 2 ==> r == 0.0
    ensures |history| >= 2 && history[|history| - 2].price == 0.0 ==> r == 0.0
  {
    if |history| >= 2 && history[|history| - 2].price != 0.0 then
      var previous := history[|history| - 2].price;
      (price - previous) / previous * 100.0
    else 0.0
  }

  /**
   * With a nonzero reference price, the percent change is the price move
   * expressed in hundredths of that reference price.
   */
  lemma PercentChangeMeaning(history: seq<Record>, price: real)
    requires |history| >= 2 && history[|history| - 2].price != 0.0
    ensures var previous := history[|history| - 2].price;
            PercentChange(history, price) * previous == (price - previous) * 100.0
  {
  }

  /** A positive reference price: the percent change has the sign of the price move. */
  lemma PercentSign(history: seq<Record>, price: real)
    requires |history| >= 2 && history[|history| - 2].price > 0.0
    ensures PercentChange(history, price) > 0.0 <==> price > history[|history| - 2].price
    ensures PercentChange(history, price) == 0.0 <==> price == history[|history| - 2].price
  {
    var previous := history[|history| - 2].price;
    var r := PercentChange(history, price);
    PercentChangeMeaning(history, price);
    if r > 0.0 { assert r * previous > 0.0; }
    if r < 0.0 { assert r * previous < 0.0; }
  }

  /**
   * When the quoted price differs from the last recorded one, the percent
   * change is measured against that last recorded price.
   */
  lemma {:induction false} PercentAgainstLastRecorded(history: seq<Record>, price: real, stamp: string)
    requires |history| > 0 && history[|history| - 1].price != price
    requires history[|history| - 1].price != 0.0
    ensures var previous := history[|history| - 1].price;
            PercentChange(RecordQuote(history, price, stamp), price) * previous
              == (price - previous) * 100.0
  {
    var r := RecordQuote(history, price, stamp);
    var n := Min(|history| + 1, HISTORY_LIMIT);
    assert |r| == n && n >= 2;
    assert r[..|r| - 1] == history[|history| - (n - 1)..];
    assert r[|r| - 2] == r[..|r| - 1][n - 2] == history[|history| - 1];
    PercentChangeMeaning(r, price);
  }

  /**
   * Two quotes of the same price with no other writer in between return the
   * same percent change. The first reads `h`; the second reads either the
   * history the first wrote or, when that write failed, `h` again.
   */
  lemma {:induction false} StablePercent(h: seq<Record>, second: seq<Record>, price: real,
                                         stamp1: string, stamp2: string)
    requires second == RecordQuote(h, price, stamp1) || second == h
    ensures PercentChange(RecordQuote(second, price, stamp2), price)
            == PercentChange(RecordQuote(h, price, stamp1), price)
  {
    if second == h {
      PercentIgnoresStamp(h, price, stamp2, stamp1);
    } else {
      RepeatedQuotePercent(second, price, stamp2);
    }
  }

  /**
   * Once a quote's history is written, a second quote of the same price
   * with no other writer in between leaves the history file as it found it.
   */
  lemma {:induction false} StableHistory(h: seq<Record>, price: real, stamp1: string, stamp2: string)
    ensures RecordQuote(RecordQuote(h, price, stamp1), price, stamp2) == RecordQuote(h, price, stamp1)
  {
    RepeatedQuoteKeepsHistory(RecordQuote(h, price, stamp1), price, stamp2);
  }

  /** A repeated quote after a successful write sees the same percent change. */
  lemma RepeatedQuotePercent(h1: seq<Record>, price: real, stamp: string)
    requires 0 < |h1| <= HISTORY_LIMIT && h1[|h1| - 1].price == price
    ensures PercentChange(RecordQuote(h1, price, stamp), price) == PercentChange(h1, price)
  {
    RepeatedQuoteKeepsHistory(h1, price, stamp);
  }

  /** Quoting the last recorded price again leaves a bounded history as it is. */
  lemma RepeatedQuoteKeepsHistory(h: seq<Record>, price: real, stamp: string)
    requires 0 < |h| <= HISTORY_LIMIT && h[|h| - 1].price == price
    ensures RecordQuote(h, price, stamp) == h
  {
    assert IsSuffix(RecordQuote(h, price, stamp), h);
  }

  /** The percent change depends only on the length and the second-to-last record. */
  lemma PercentChangeOfSameTail(h1: seq<Record>, h2: seq<Record>, price: real)
    requires |h1| == |h2| && (|h1| >= 2 ==> h1[|h1| - 2] == h2[|h2| - 2])
    ensures PercentChange(h1, price) == PercentChange(h2, price)
  {
  }

  /** The timestamp of a quote's record has no effect on the percent change. */
  lemma {:induction false} PercentIgnoresStamp(h: seq<Record>, price: real, s1: string, s2: string)
    ensures PercentChange(RecordQuote(h, price, s1), price) == PercentChange(RecordQuote(h, price, s2), price)
  {
    var h1 := RecordQuote(h, price, s1);
    var h2 := RecordQuote(h, price, s2);
    assert |h1| == |h2|;
    if |h1| >= 2 {
      if |h| == 0 || h[|h| - 1].price != price {
        assert h1[|h1| - 2] == h1[..|h1| - 1][|h1| - 2];
        assert h2[|h2| - 2] == h2[..|h2| - 1][|h2| - 2];
      }
    }
    PercentChangeOfSameTail(h1, h2, price);
  }

  // ---------------------------------------------------------------------------
  // The service state
  // ---------------------------------------------------------------------------

  /** The module-level caches and the two history files of services.py. */
  class QuoteService {
    var cache: CacheEntry        // `_cache`, BRL
    var usdCache: CacheEntry     // `usd_cache`
    const dataJson: JsonFile     // "data.json", BRL history
    const usdDataJson: JsonFile  // "xrp_usd_data.json", USD history

    /** The two channels write different files. */
    ghost predicate Valid()
      reads this
    {
      dataJson != usdDataJson
    }

    /** Module import: both caches start as {"price": None, "timestamp": 0}. */
    constructor (dataJson: JsonFile, usdDataJson: JsonFile)
      requires dataJson != usdDataJson
      ensures Valid()
      ensures cache == CacheEntry(None, 0) && usdCache == CacheEntry(None, 0)
      ensures this.dataJson == dataJson && this.usdDataJson == usdDataJson
    {
      cache := CacheEntry(None, 0);
      usdCache := CacheEntry(None, 0);
      this.dataJson := dataJson;
      this.usdDataJson := usdDataJson;
    }

    /**
     * fetch_xrp_price: the BRL price and its percent change. On a cache miss
     * the sources are tried in order and the first truthy price is cached;
     * when none yields one, (None, None) and nothing changes. Otherwise the
     * history is read (missing or undecodable: empty), the price is appended
     * if it changed, the last 500 records are kept and written back, and the
     * percent change is computed from the updated history.
     */
    method FetchXrpPrice(now: int, sources: seq<SourceResult>, stamp: string, writeOk: bool)
      returns (r: BrlQuote)
      requires Valid()
      ensures Valid()
      modifies this`cache, dataJson
      ensures cache == Refresh(old(cache), now, CACHE_EXPIRATION, sources)
      ensures usdCache == old(usdCache) && usdDataJson.contents == old(usdDataJson.contents)
      ensures Lookup(old(cache), now, CACHE_EXPIRATION, sources).None? ==>
                r == NoData && dataJson.contents == old(dataJson.contents)
      ensures Lookup(old(cache), now, CACHE_EXPIRATION, sources).Some? && old(dataJson.contents).Unreadable? ==>
                r == Raised && dataJson.contents == old(dataJson.contents)
      ensures Lookup(old(cache), now, CACHE_EXPIRATION, sources).Some? && !old(dataJson.contents).Unreadable? ==>
                var price := Lookup(old(cache), now, CACHE_EXPIRATION, sources).value;
                var h' := RecordQuote(Load(old(dataJson.contents)).history, price, stamp);
                r == Quote(price, PercentChange(h', price))
                && dataJson.contents == Persist(old(dataJson.contents), h', writeOk)
    {
      var price: Option<real>;
      if Truthy(cache.price) && now - cache.timestamp < CACHE_EXPIRATION {
        price := cache.price;
      } else {
        price := None;
        var i := 0;
        while i < |sources|
          invariant 0 <= i <= |sources|
          invariant forall j :: 0 <= j < i ==> !Succeeds(sources[j])
          invariant !Truthy(price)
          invariant cache == old(cache)
        {
          match sources[i] {
            case Raise =>
              // the error is reported and the next source is tried
            case Value(v) =>
              price := Some(v);
              if v != 0.0 {
                cache := CacheEntry(price, now);
                FirstSuccessIsFirst(sources, i);
                break;
              }
          }
          i := i + 1;
        }
        if !Truthy(price) {
          assert FirstSuccess(sources).None?;
          return NoData;
        }
      }

      r := RecordBrlQuote(price.value, stamp, writeOk);
    }

    /**
     * The history half of fetch_xrp_price, once a price is known: read the
     * BRL history (missing or undecodable: empty; any other read error
     * escapes), append the price if it changed, keep the last 500 records,
     * write them back and compute the percent change from them.
     */
    method RecordBrlQuote(price: real, stamp: string, writeOk: bool) returns (r: BrlQuote)
      modifies dataJson
      ensures old(dataJson.contents).Unreadable? ==>
                r == Raised && dataJson.contents == old(dataJson.contents)
      ensures !old(dataJson.contents).Unreadable? ==>
                var h' := RecordQuote(Load(old(dataJson.contents)).history, price, stamp);
                r == Quote(price, PercentChange(h', price))
                && dataJson.contents == Persist(old(dataJson.contents), h', writeOk)
    {
      var history: seq<Record>;
      match dataJson.contents {
        case Missing =>
          history := [];
        case Malformed =>
          history := [];
        case Unreadable =>
          return Raised;
        case Records(items) =>
          history := items;
      }
      assert Load(old(dataJson.contents)) == Loaded(history);

      history := RecordQuote(history, price, stamp);
      if writeOk {
        dataJson.contents := Records(history);
      }
      r := Quote(price, PercentChange(history, price));
    }

    /**
     * salvar_historico_usd: read the USD history (missing or undecodable:
     * empty), append the record unconditionally, keep the last 500 and write
     * back. A read error of any other kind escapes to the caller.
     */
    method SaveUsdHistory(price: real, stamp: string, writeOk: bool) returns (raised: bool)
      modifies usdDataJson
      ensures raised <==> old(usdDataJson.contents).Unreadable?
      ensures raised ==> usdDataJson.contents == old(usdDataJson.contents)
      ensures !raised ==>
                usdDataJson.contents
                  == Persist(old(usdDataJson.contents),
                             AppendUsdRecord(Load(old(usdDataJson.contents)).history, price, stamp),
                             writeOk)
    {
      var historico: seq<Record>;
      match usdDataJson.contents {
        case Missing =>
          historico := [];
        case Malformed =>
          historico := [];
        case Unreadable =>
          return true;
        case Records(items) =>
          historico := items;
      }
      assert Load(old(usdDataJson.contents)) == Loaded(historico);

      historico := AppendUsdRecord(historico, price, stamp);
      if writeOk {
        usdDataJson.contents := Records(historico);
      }
      raised := false;
    }

    /**
     * fetch_xrp_usd: the USD price. A fresh cache is served as is. Otherwise
     * each source is tried in order; each one that does not raise overwrites
     * the result, and a truthy one is cached and saved to the USD history,
     * which ends the loop unless saving raised (the error is then reported
     * like a failing source and the next source is tried).
     */
    method FetchXrpUsd(now: int, sources: seq<SourceResult>, stamp: string, writeOk: bool)
      returns (r: Option<real>)
      requires Valid()
      ensures Valid()
      modifies this`usdCache, usdDataJson
      ensures cache == old(cache) && dataJson.contents == old(dataJson.contents)
      ensures Fresh(old(usdCache), now, USD_EXPIRATION) ==>
                r == old(usdCache).price && usdCache == old(usdCache)
                && usdDataJson.contents == old(usdDataJson.contents)
      ensures !Fresh(old(usdCache), now, USD_EXPIRATION) && !old(usdDataJson.contents).Unreadable?
              && FirstSuccess(sources).Some? ==>
                var p := FirstSuccess(sources).value;
                r == Some(p) && usdCache == CacheEntry(Some(p), now)
                && usdDataJson.contents
                     == Persist(old(usdDataJson.contents),
                                AppendUsdRecord(Load(old(usdDataJson.contents)).history, p, stamp),
                                writeOk)
      ensures !Fresh(old(usdCache), now, USD_EXPIRATION) && !old(usdDataJson.contents).Unreadable?
              && FirstSuccess(sources).None? ==>
                r == LastValue(sources) && usdCache == old(usdCache)
                && usdDataJson.contents == old(usdDataJson.contents)
      ensures !Fresh(old(usdCache), now, USD_EXPIRATION) && old(usdDataJson.contents).Unreadable? ==>
                r == LastValue(sources) && usdDataJson.contents == old(usdDataJson.contents)
                && usdCache == StoreFound(old(usdCache), LastSuccess(sources), now)
    {
      if Truthy(usdCache.price) && now - usdCache.timestamp < USD_EXPIRATION {
        return usdCache.price;
      }

      var priceUsd: Option<real> := None;
      var i := 0;
      while i < |sources|
        invariant 0 <= i <= |sources|
        invariant priceUsd == LastValue(sources[..i])
        invariant usdDataJson.contents == old(usdDataJson.contents)
        invariant !old(usdDataJson.contents).Unreadable? ==>
                    usdCache == old(usdCache) && forall j :: 0 <= j < i ==> !Succeeds(sources[j])
        invariant old(usdDataJson.contents).Unreadable? ==>
                    usdCache == StoreFound(old(usdCache), LastSuccess(sources[..i]), now)
      {
        assert sources[..i + 1][..i] == sources[..i];
        match sources[i] {
          case Raise =>
            // the error is reported and the next source is tried
          case Value(v) =>
            priceUsd := Some(v);
            if v != 0.0 {
              usdCache := CacheEntry(priceUsd, now);
              var raised := SaveUsdHistory(v, stamp, writeOk);
              if !raised {
                FirstSuccessIsFirst(sources, i);
                break;
              }
            }
        }
        i := i + 1;
      }
      assert i == |sources| ==> sources[..i] == sources;
      r := priceUsd;
    }
  }
}
