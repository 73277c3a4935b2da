/**
 * The Enrichr session: a gene list registered once with the server, and a cache from
 * gene-set library name to the server's enrichment response for that library.
 */
module EnrichrPy {
  import opened Outcomes
  import opened Chunks
  import Ranking

  /** The service's base address. */
  const EnrichrURL: string := "http://amp.pharm.mssm.edu/Enrichr"

  /** What the browsing address is made of before the list's short id. */
  const ViewPrefix: string := EnrichrURL + "/enrich?dataset="

  /** The short id a browsing address ends in, if it is one. */
  function ShortIdOf(url: string): Option<string>
  {
    if |ViewPrefix| <= |url| && url[..|ViewPrefix|] == ViewPrefix then Some(url[|ViewPrefix|..]) else None
  }

  /** The identifiers the server assigns to a registered list, read from its reply. */
  datatype Registration = Registration(userListId: int, shortId: string)

  /**
   * An enrichment response: its body as bytes, and the document the body parses to, a map
   * from library name to that library's term records.
   */
  datatype Payload = Payload(body: Bytes, document: map<string, seq<Ranking.Record>>)

  /** One enrichment request sent to the server and the reply it got. */
  datatype Fetch = Fetch(userListId: int, library: string, reply: Reply<Payload>)

  /** The payloads of the successful fetches of `library` in `log`, oldest first. */
  ghost function OkPayloads(log: seq<Fetch>, library: string): seq<Payload>
  {
    if log == [] then []
    else
      var last := log[|log| - 1];
      OkPayloads(log[..|log| - 1], library)
        + (if last.library == library && last.reply.Ok? then [last.reply.body] else [])
  }

  /** A new request adds its payload, if ok, to the successful fetches of its own library only. */
  lemma OkPayloadsAppend(log: seq<Fetch>, f: Fetch, library: string)
    ensures OkPayloads(log + [f], library)
         == OkPayloads(log, library) + if f.library == library && f.reply.Ok? then [f.reply.body] else []
  {
    assert (log + [f])[..|log|] == log;
  }

  /** What `enrich` returns for `library` given the cache before the call and the server's reply. */
  function Served(cache: map<string, Payload>, library: string, reply: Reply<Payload>): Result<Payload>
  {
    if library in cache then Success(cache[library])
    else if reply.Ok? then Success(reply.body)
    else Failure(FetchFailed)
  }

  /** The cache after `enrich` for `library`. */
  function Stored(cache: map<string, Payload>, library: string, reply: Reply<Payload>): map<string, Payload>
  {
    if library !in cache && reply.Ok? then cache[library := reply.body] else cache
  }

  /**
   * The cache only grows: no entry is removed or overwritten, and the one that may be added
   * is the library asked for, holding what is returned.
   */
  lemma StoredGrows(cache: map<string, Payload>, library: string, reply: Reply<Payload>)
    ensures cache.Keys <= Stored(cache, library, reply).Keys <= cache.Keys + {library}
    ensures forall k :: k in cache ==> Stored(cache, library, reply)[k] == cache[k]
    ensures Served(cache, library, reply).Success?
        <==> library in Stored(cache, library, reply)
    ensures Served(cache, library, reply).Success?
        ==> Served(cache, library, reply).value == Stored(cache, library, reply)[library]
  {
  }

  /**
   * Asking again for a library that was served is answered from the cache with the same
   * payload, whatever the server would reply, and leaves the cache as it is.
   */
  lemma ServedAgain(cache: map<string, Payload>, library: string, first: Reply<Payload>, second: Reply<Payload>)
    requires Served(cache, library, first).Success?
    ensures var after := Stored(cache, library, first);
      && library in after
      && Served(after, library, second) == Served(cache, library, first)
      && Stored(after, library, second) == after
  {
  }

  /** The row-shaping of `enrich_data` on a payload: the library's records, ranked by `field`. */
  function RankPayload(p: Payload, library: string, field: int): Result<Ranking.Ranked>
    requires 0 <= field && field != Ranking.NameColumn
  {
    if library in p.document then Ranking.EnrichData(p.document[library], field) else Failure(LibraryMissing)
  }

  class Enrichr {
    const description: string
    const geneListStr: string
    const userListId: int
    const shortId: string
    /** Library name to the response fetched for it. */
    var enrichCache: map<string, Payload>
    /** Every enrichment request this session has sent, with the reply (bookkeeping for the proofs). */
    ghost var fetches: seq<Fetch>

    /**
     * Every request went out for this list, and the cache holds exactly the payloads of the
     * successful requests: one for each cached library, none for the others.
     */
    ghost predicate Valid()
      reads this
    {
      && (forall i :: 0 <= i < |fetches| ==> fetches[i].userListId == userListId)
      && forall library :: OkPayloads(fetches, library)
           == if library in enrichCache then [enrichCache[library]] else []
    }

    /** The state right after a successful registration: nothing fetched, nothing cached. */
    constructor (geneListStr: string, description: string, registration: Registration)
      ensures Valid()
      ensures this.geneListStr == geneListStr && this.description == description
      ensures userListId == registration.userListId && shortId == registration.shortId
      ensures enrichCache == map[] && fetches == []
    {
      this.description := description;
      this.geneListStr := geneListStr;
      this.userListId := registration.userListId;
      this.shortId := registration.shortId;
      enrichCache := map[];
      fetches := [];
    }

    /**
     * `Enrichr(geneListStr, description)`: registers the list, given the server's reply to the
     * registration. A reply that is not ok raises, so no session comes into existence.
     */
    static method Create(geneListStr: string, description: Option<string>, reply: Reply<Registration>)
      returns (r: Result<Enrichr>)
      ensures reply.NotOk? <==> r.Failure?
      ensures reply.NotOk? ==> r.error == AddListFailed
      ensures r.Success? ==>
        && fresh(r.value) && r.value.Valid()
        && r.value.geneListStr == geneListStr
        && r.value.description == description.GetOr("")
        && r.value.userListId == reply.body.userListId
        && r.value.shortId == reply.body.shortId
        && r.value.enrichCache == map[] && r.value.fetches == []
    {
      var desc := description.GetOr("");
      if reply.NotOk? {
        return Failure(AddListFailed);
      }
      var session := new Enrichr(geneListStr, desc, reply.body);
      r := Success(session);
    }

    /** The address for browsing the results on the web: the base, `/enrich?dataset=`, the short id. */
    function GetURL(): (url: string)
      ensures |url| == |ViewPrefix| + |shortId|
      ensures url[..|ViewPrefix|] == ViewPrefix && url[|ViewPrefix|..] == shortId
      ensures ShortIdOf(url) == Some(shortId)
    {
      ViewPrefix + shortId
    }

    /**
     * `enrich(library, outFileName)`, given the reply the server would send for `library`.
     * A cached library is served without a request; otherwise one request is sent, and only
     * an ok reply is cached. When an output file is named, the served body is written to it
     * chunk by chunk; `saved` is what the file then holds.
     */
    method Enrich(library: string, outFileName: Option<string>, reply: Reply<Payload>)
      returns (r: Result<Payload>, saved: Option<Bytes>)
      requires Valid()
      modifies this
      ensures Valid()
      ensures r == Served(old(enrichCache), library, reply)
      ensures enrichCache == Stored(old(enrichCache), library, reply)
      ensures fetches == old(fetches) + if library in old(enrichCache) then [] else [Fetch(userListId, library, reply)]
      ensures library in old(enrichCache) ==> enrichCache == old(enrichCache) && r == Success(old(enrichCache)[library])
      ensures library !in old(enrichCache) && reply.NotOk? ==> enrichCache == old(enrichCache) && r == Failure(FetchFailed)
      ensures r.Success? ==> library in enrichCache && r.value == enrichCache[library]
      ensures saved == if r.Success? && outFileName.Some? then Some(r.value.body) else None
    {
      if library !in enrichCache {
        ghost var before := fetches;
        fetches := fetches + [Fetch(userListId, library, reply)];
        forall lib ensures OkPayloads(fetches, lib) == OkPayloads(before, lib)
                             + if lib == library && reply.Ok? then [reply.body] else [] {
          OkPayloadsAppend(before, Fetch(userListId, library, reply), lib);
        }
        if reply.NotOk? {
          return Failure(FetchFailed), None;
        }
        enrichCache := enrichCache[library := reply.body];
      }
      var payload := enrichCache[library];
      r, saved := Success(payload), None;
      if outFileName.Some? {
        var written := WriteChunks(Split(payload.body, ChunkSize));
        SavedBodyRoundTrip(payload.body);
        saved := Some(written);
      }
    }

    /**
     * `enrich_data(library, field)`: the library's terms and their `field` values, ranked, read
     * from the response `enrich` serves for it.
     */
    method EnrichData(library: string, reply: Reply<Payload>, field: int := Ranking.PValue) returns (r: Result<Ranking.Ranked>)
      requires Valid() && 0 <= field && field != Ranking.NameColumn
      modifies this
      ensures Valid()
      ensures enrichCache == Stored(old(enrichCache), library, reply)
      ensures fetches == old(fetches) + if library in old(enrichCache) then [] else [Fetch(userListId, library, reply)]
      ensures r == match Served(old(enrichCache), library, reply)
                   case Failure(e) => Failure(e)
                   case Success(p) => RankPayload(p, library, field)
    {
      var fetched, saved := Enrich(library, None, reply);
      match fetched
      case Failure(e) => r := Failure(e);
      case Success(p) => r := RankPayload(p, library, field);
    }
  }

  /**
   * Two `enrich` calls for the same library send at most one request between them when the
   * first succeeds, and return the same payload.
   */
  method EnrichTwice(session: Enrichr, library: string, first: Reply<Payload>, second: Reply<Payload>)
    returns (r1: Result<Payload>, r2: Result<Payload>)
    requires session.Valid()
    modifies session
    ensures session.Valid()
    ensures r1.Success? ==> r2 == r1 && |session.fetches| <= |old(session.fetches)| + 1
    ensures r1.Failure? ==> r1.error == FetchFailed && |session.fetches| == |old(session.fetches)| + 2
  {
    var saved;
    r1, saved := session.Enrich(library, None, first);
    r2, saved := session.Enrich(library, None, second);
  }
}
