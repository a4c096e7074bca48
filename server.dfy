/** The cache and fallback policy of `fetch_and_decode_gtfsrt`
    (decoder_server.py:15-24, 130-149): one cache entry per feed, served
    while fresh; a fresh download replaces it for 25 seconds; a network
    error falls back to the entry however old; a decoding error answers with
    an empty document. The clock is two parameters, `now` for the reading
    taken at the freshness test and `later` for the one taken after the
    download; the download itself is the `Fetch` outcome. */
module Server {
  import opened Wrappers
  import opened FeedJson
  import opened GtfsRealtime
  import opened Decoder

  const CACHE_TIMEOUT_SECONDS: real := 25.0

  datatype CacheEntry = CacheEntry(data: FeedDoc, expiry: real)

  /** What `requests.get` followed by `ParseFromString` came to. */
  datatype Fetch = NetworkError | DecodeError | Received(msg: FeedMessage)

  /** `int(x)` on a float: truncation toward zero. */
  function Truncate(x: real): (i: int)
    ensures x >= 0.0 ==> i as real <= x < i as real + 1.0
    ensures x < 0.0 ==> i as real - 1.0 < x <= i as real
  {
    if x >= 0.0 then x.Floor else -((-x).Floor)
  }

  /** The empty answer, stamped with the server clock. */
  function EmptyDoc(t: real): (d: FeedDoc)
    ensures d.entity == []
  {
    FeedDoc([], Truncate(t))
  }

  predicate Fresh(cache: map<string, CacheEntry>, key: string, now: real) {
    key in cache && now < cache[key].expiry
  }

  /** The answer, the cache afterwards, and whether the feed was downloaded. */
  datatype Reply = Reply(data: FeedDoc, cache: map<string, CacheEntry>, downloaded: bool)

  function Respond(cache: map<string, CacheEntry>, key: string, now: real, later: real, fetch: Fetch): (r: Reply)
    ensures r.cache.Keys == cache.Keys + (if r.downloaded && fetch.Received? then {key} else {})
    ensures forall k :: k in cache && k != key ==> r.cache[k] == cache[k]
  {
    if Fresh(cache, key, now) then Reply(cache[key].data, cache, false)
    else
      match fetch
      case Received(msg) =>
        var doc := Decode(msg);
        Reply(doc, cache[key := CacheEntry(doc, later + CACHE_TIMEOUT_SECONDS)], true)
      case NetworkError =>
        Reply(if key in cache then cache[key].data else EmptyDoc(later), cache, true)
      case DecodeError =>
        Reply(EmptyDoc(later), cache, true)
  }

  /** A fresh entry is served as it is, whatever the feed would have said,
      and nothing is downloaded. */
  lemma CacheHit(cache: map<string, CacheEntry>, key: string, now: real, later: real, fetch: Fetch)
    requires Fresh(cache, key, now)
    ensures Respond(cache, key, now, later, fetch) == Reply(cache[key].data, cache, false)
  {
  }

  /** Without a fresh entry the feed is downloaded, and a decoded feed is
      answered and kept for 25 seconds from the second clock reading. */
  lemma DownloadStored(cache: map<string, CacheEntry>, key: string, now: real, later: real, msg: FeedMessage)
    requires !Fresh(cache, key, now)
    ensures var r := Respond(cache, key, now, later, Received(msg));
            && r.downloaded && r.data == Decode(msg)
            && key in r.cache && r.cache[key] == CacheEntry(Decode(msg), later + 25.0)
  {
  }

  /** A network error answers with the cached document even when it has
      expired, with the empty document when there is none, and keeps the
      cache. */
  lemma NetworkErrorFallsBack(cache: map<string, CacheEntry>, key: string, now: real, later: real)
    requires !Fresh(cache, key, now)
    ensures var r := Respond(cache, key, now, later, NetworkError);
            && r.cache == cache
            && (key in cache ==> r.data == cache[key].data)
            && (key !in cache ==> r.data.entity == [] && r.data.timestamp == Truncate(later))
  {
  }

  /** A decoding error answers with the empty document even when a stale
      entry exists, and keeps the cache. */
  lemma DecodeErrorIgnoresCache(cache: map<string, CacheEntry>, key: string, now: real, later: real)
    requires !Fresh(cache, key, now)
    ensures var r := Respond(cache, key, now, later, DecodeError);
            && r.cache == cache && r.data == EmptyDoc(later)
  {
  }

  /** After a successful download, every request for the same feed before
      the entry expires is answered with that document without downloading,
      and once it expires the feed is downloaded again. */
  lemma ServedUntilExpiry(cache: map<string, CacheEntry>, key: string, now: real, later: real, msg: FeedMessage,
                          now2: real, later2: real, fetch2: Fetch)
    requires !Fresh(cache, key, now)
    ensures var r1 := Respond(cache, key, now, later, Received(msg));
            var r2 := Respond(r1.cache, key, now2, later2, fetch2);
            && (now2 < later + CACHE_TIMEOUT_SECONDS ==> r2 == Reply(Decode(msg), r1.cache, false))
            && (now2 >= later + CACHE_TIMEOUT_SECONDS ==> r2.downloaded)
  {
  }

  /** After a successful download, a network error at any later time still
      answers with the downloaded document. */
  lemma StaleAfterNetworkError(cache: map<string, CacheEntry>, key: string, now: real, later: real, msg: FeedMessage,
                               now2: real, later2: real)
    requires !Fresh(cache, key, now)
    ensures var r1 := Respond(cache, key, now, later, Received(msg));
            Respond(r1.cache, key, now2, later2, NetworkError).data == Decode(msg)
  {
  }

  /** The two feeds share the cache but never each other's entry. */
  lemma FeedsIndependent(cache: map<string, CacheEntry>, key: string, other: string, now: real, later: real, fetch: Fetch)
    requires other != key
    ensures var r := Respond(cache, key, now, later, fetch);
            && (other in r.cache <==> other in cache)
            && (other in cache ==> r.cache[other] == cache[other])
  {
  }

  /** The server process: its cache, shared by the two feed routes. */
  class DecoderServer {
    var cache: map<string, CacheEntry>

    constructor()
      ensures cache == map[]
    {
      cache := map[];
    }

    method FetchAndDecode(key: string, now: real, later: real, fetch: Fetch) returns (data: FeedDoc, downloaded: bool)
      modifies this
      ensures Reply(data, cache, downloaded) == Respond(old(cache), key, now, later, fetch)
    {
      if key in cache && now < cache[key].expiry {
        return cache[key].data, false;
      }
      downloaded := true;
      match fetch {
        case Received(msg) =>
          data := DecodeFeed(msg);
          cache := cache[key := CacheEntry(data, later + CACHE_TIMEOUT_SECONDS)];
        case NetworkError =>
          if key in cache {
            data := cache[key].data;
          } else {
            data := EmptyDoc(later);
          }
        case DecodeError =>
          data := EmptyDoc(later);
      }
    }
  }
}
