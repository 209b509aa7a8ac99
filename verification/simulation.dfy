/**
 The dispatcher: `count` requests, numbered 0 to count-1, each drawing a
 profile from the pool and an endpoint, collected in request-number order as
 `asyncio.gather` returns them. The random choices and the transport's answer
 for request `i` are supplied as `draws[i]`; the concurrency bound and the
 pacing delay do not influence the records and are not modelled.
 */
module Simulation {
  import opened Optional
  import opened Catalog
  import opened Request
  import opened Pool

  /** The oracle values of one request: pool index, endpoint index, transport answer. */
  datatype Draw = Draw(profile: nat, endpoint: nat, reply: Reply)

  /** The number of iterations of `range(count)`. */
  function Iterations(count: int): nat
  {
    if count < 0 then 0 else count
  }

  /**
   The draws are usable: when the pool is non-empty there is one for every
   request number, with indices in range; draws beyond the last request are
   ignored. An empty pool needs none.
   */
  predicate DrawsCover(draws: seq<Draw>, poolSize: nat, count: int)
  {
    poolSize == 0
    || (Iterations(count) <= |draws|
        && forall i :: 0 <= i < Iterations(count) ==> draws[i].profile < poolSize && draws[i].endpoint < |Endpoints|)
  }

  /** `bounded_request` without the semaphore and the sleep: one request with a drawn profile. */
  function BoundedRequest(pool: seq<Profile>, url: string, requestId: nat, d: Draw): (r: Record)
    requires d.profile < |pool| && d.endpoint < |Endpoints|
    ensures r.requestId == requestId && WellFormed(r)
    ensures r.category == pool[d.profile].category && r.userAgent == DisplayUserAgent(pool[d.profile].userAgent)
    ensures r.url == JoinUrl(url, Endpoints[d.endpoint])
    ensures r.success <==> d.reply.Response?
  {
    var profile := pool[d.profile];
    MakeRequest(url, profile.userAgent, profile.category, requestId, d.endpoint, d.reply).record
  }

  /** `run_bot_simulation` as a function of its oracle draws. */
  function Simulate(table: seq<CategoryEntry>, url: string, count: int, categories: seq<string>, draws: seq<Draw>): (results: seq<Record>)
    requires DrawsCover(draws, |PoolOf(table, categories)|, count)
    ensures |results| == if PoolOf(table, categories) == [] then 0 else Iterations(count)
    ensures forall i :: 0 <= i < |results| ==> results[i].requestId == i && WellFormed(results[i])
  {
    var pool := PoolOf(table, categories);
    if |pool| == 0 then []
    else seq(Iterations(count), i requires 0 <= i < Iterations(count) => BoundedRequest(pool, url, i, draws[i]))
  }

  /** When no requested category is a key of the table, no request is made and the result is empty. */
  lemma SimulateNoKnownCategory(url: string, count: int, categories: seq<string>, draws: seq<Draw>)
    requires forall i :: 0 <= i < |categories| ==> !IsKnownIn(BotUserAgents, categories[i])
    ensures DrawsCover(draws, |PoolOf(BotUserAgents, categories)|, count)
    ensures Simulate(BotUserAgents, url, count, categories, draws) == []
  {
    BotUserAgentsNoEmptyCategory();
    PoolEmptyIff(BotUserAgents, categories);
  }

  /** The request numbers carried by a list of records. */
  function RequestIds(results: seq<Record>): set<int>
  {
    set r | r in results :: r.requestId
  }

  /** The request numbers of a run are exactly 0 to count-1, each held by one record. */
  lemma SimulateIdsDense(table: seq<CategoryEntry>, url: string, count: int, categories: seq<string>, draws: seq<Draw>)
    requires DrawsCover(draws, |PoolOf(table, categories)|, count)
    requires PoolOf(table, categories) != []
    ensures var results := Simulate(table, url, count, categories, draws);
            && (forall n :: n in RequestIds(results) <==> 0 <= n < Iterations(count))
            && (forall i, j :: 0 <= i < |results| && 0 <= j < |results| && results[i].requestId == results[j].requestId ==> i == j)
  {
    var results := Simulate(table, url, count, categories, draws);
    forall n | 0 <= n < Iterations(count) ensures n in RequestIds(results) {
      assert results[n] in results;
    }
  }

  /**
   Every record was made with a profile of the pool: its category was
   requested and is a key of the table, and its displayed User-Agent is the
   display form of one listed under that category.
   */
  lemma SimulateProfilesFromPool(table: seq<CategoryEntry>, url: string, count: int, categories: seq<string>, draws: seq<Draw>, i: nat)
    requires DrawsCover(draws, |PoolOf(table, categories)|, count)
    requires i < |Simulate(table, url, count, categories, draws)|
    ensures var r := Simulate(table, url, count, categories, draws)[i];
            && r.category in categories
            && IsKnownIn(table, r.category)
            && exists ua :: ua in LookupIn(table, r.category).value && r.userAgent == DisplayUserAgent(ua)
  {
    var pool := PoolOf(table, categories);
    var p := pool[draws[i].profile];
    PoolMembership(table, categories, p);
  }

  /**
   Record `i` reflects the transport's answer to request `i`: it succeeded iff
   a response arrived, carrying that response's status and elapsed time, and
   otherwise has status 0 and the error text.
   */
  lemma SimulateReplies(table: seq<CategoryEntry>, url: string, count: int, categories: seq<string>, draws: seq<Draw>, i: nat)
    requires DrawsCover(draws, |PoolOf(table, categories)|, count)
    requires i < |Simulate(table, url, count, categories, draws)|
    ensures var r := Simulate(table, url, count, categories, draws)[i];
            && (r.success <==> draws[i].reply.Response?)
            && (draws[i].reply.Response? ==> r.status == draws[i].reply.status && r.elapsedMs == Some(draws[i].reply.elapsedMs))
            && (draws[i].reply.TransportError? ==> r.status == 0 && r.error == Some(draws[i].reply.message))
  {
  }

  /** The loop of the source: build the pool, stop early if empty, then issue the requests in order. */
  method RunBotSimulation(table: seq<CategoryEntry>, url: string, count: int, categories: seq<string>, draws: seq<Draw>) returns (results: seq<Record>)
    requires DrawsCover(draws, |PoolOf(table, categories)|, count)
    ensures results == Simulate(table, url, count, categories, draws)
  {
    var pool := BuildPool(table, categories);
    if |pool| == 0 {
      return [];
    }
    results := [];
    for i := 0 to Iterations(count)
      invariant |results| == i
      invariant forall j :: 0 <= j < i ==> results[j] == BoundedRequest(pool, url, j, draws[j])
    {
      results := results + [BoundedRequest(pool, url, i, draws[i])];
    }
  }
}
