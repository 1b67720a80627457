/** One run's provider calls: a budget that stops the run and a cache that asks once
    (hotelcontrols/evidence/budget.py, hotelcontrols/evidence/cache.py). A request stands for its
    key; the provider answers one request the same way all run long. */
module Cache {
  import opened Basics

  datatype Answer<+Resp> = Got(response: Resp) | ProviderFailed(why: string) | OverBudget

  // ------------------------------------------------------------------ asking one request after another
  /** What the provider answers when it is asked directly. */
  function Direct<Req, Resp>(fetch: Req -> Result<Resp, string>, r: Req): Answer<Resp>
  {
    match fetch(r)
    case Ok(response) => Got(response)
    case Err(why) => ProviderFailed(why)
  }

  /** The calls made so far, after one more request. */
  function Called<Req(==)>(made: seq<Req>, r: Req, room: nat): seq<Req>
  {
    if r in made || |made| >= room then made else made + [r]
  }

  function AnswerTo<Req(==), Resp>(fetch: Req -> Result<Resp, string>, made: seq<Req>, r: Req, room: nat): Answer<Resp>
  {
    if r in made || |made| < room then Direct(fetch, r) else OverBudget
  }

  /** The calls a sequence of requests makes within a budget. */
  function Calls<Req(==)>(requests: seq<Req>, room: nat): seq<Req>
  {
    if requests == [] then [] else Called(Calls(requests[..|requests| - 1], room), requests[|requests| - 1], room)
  }

  /** Each request once, where it first stands. */
  function Distinct<Req(==)>(requests: seq<Req>): seq<Req>
  {
    if requests == [] then []
    else
      var before, r := Distinct(requests[..|requests| - 1]), requests[|requests| - 1];
      if r in before then before else before + [r]
  }

  /** A budgeted run makes the first calls of an unlimited one: as many as it has room for. */
  lemma {:induction false} CallsAreFirst<Req>(requests: seq<Req>, room: nat)
    ensures |Calls(requests, room)| <= room
    ensures Calls(requests, room) == if |Distinct(requests)| <= room then Distinct(requests)
              else Distinct(requests)[..room]
  {
    if requests != [] {
      var front, r := requests[..|requests| - 1], requests[|requests| - 1];
      CallsAreFirst(front, room);
      var before := Distinct(front);
      if |before| >= room && r !in before {
        assert (before + [r])[..room] == before[..room];
      }
    }
  }

  /** No request is called twice, none that was not asked for, and none that was is left out. */
  lemma {:induction false} DistinctMeans<Req>(requests: seq<Req>)
    ensures forall i, j :: 0 <= i < j < |Distinct(requests)| ==> Distinct(requests)[i] != Distinct(requests)[j]
    ensures forall r :: r in Distinct(requests) <==> r in requests
    ensures |Distinct(requests)| <= |requests|
  {
    if requests != [] {
      DistinctMeans(requests[..|requests| - 1]);
      assert requests == requests[..|requests| - 1] + [requests[|requests| - 1]];
    }
  }

  /** Over every sequence of requests, the n-th is answered exactly as the provider answers it
      directly, or not at all; and it is not at all exactly when it is new and the budget has gone
      on others. */
  lemma EachAnswerIsDirect<Req, Resp>(fetch: Req -> Result<Resp, string>, requests: seq<Req>, n: nat, room: nat)
    requires n < |requests|
    ensures var a := AnswerTo(fetch, Calls(requests[..n], room), requests[n], room);
            && (a == Direct(fetch, requests[n]) || a == OverBudget)
            && (a == OverBudget <==>
                  requests[n] !in Distinct(requests[..n])[..Least(room, |Distinct(requests[..n])|)]
                    && |Distinct(requests[..n])| >= room)
  {
    CallsAreFirst(requests[..n], room);
    var made := Distinct(requests[..n]);
    assert made[..|made|] == made;
  }

  function Least(a: nat, b: nat): nat
  {
    if a <= b then a else b
  }

  lemma {:induction false} DistinctPrefix<Req>(requests: seq<Req>, n: nat)
    requires n <= |requests|
    ensures Distinct(requests[..n]) <= Distinct(requests)
    decreases |requests|
  {
    if n < |requests| {
      var front := requests[..|requests| - 1];
      DistinctPrefix(front, n);
      assert front[..n] == requests[..n];
    } else {
      assert requests[..n] == requests;
    }
  }

  /** Everything asked for is answered exactly when the budget has room for each distinct request. */
  lemma AllAnsweredIff<Req, Resp>(fetch: Req -> Result<Resp, string>, requests: seq<Req>, room: nat)
    ensures (forall n: nat :: n < |requests| ==>
              AnswerTo(fetch, Calls(requests[..n], room), requests[n], room) != OverBudget)
            <==> |Distinct(requests)| <= room
  {
    if |Distinct(requests)| <= room {
      forall n: nat | n < |requests|
        ensures AnswerTo(fetch, Calls(requests[..n], room), requests[n], room) != OverBudget
      {
        DistinctPrefix(requests, n);
        DistinctPrefix(requests, n + 1);
        CallsAreFirst(requests[..n], room);
        assert requests[..n + 1][..n] == requests[..n];
      }
    } else {
      FirstStop(fetch, requests, room);
    }
  }

  /** Past the budget there is a first request that stops the run. */
  lemma {:induction false} FirstStop<Req, Resp>(fetch: Req -> Result<Resp, string>, requests: seq<Req>, room: nat)
    requires |Distinct(requests)| > room
    ensures exists n: nat :: n < |requests|
              && AnswerTo(fetch, Calls(requests[..n], room), requests[n], room) == OverBudget
  {
    var last := |requests| - 1;
    var front := requests[..last];
    if |Distinct(front)| > room {
      FirstStop(fetch, front, room);
      var n: nat :| n < |front| && AnswerTo(fetch, Calls(front[..n], room), front[n], room) == OverBudget;
      assert requests[..n] == front[..n] && requests[n] == front[n];
    } else {
      CallsAreFirst(front, room);
      assert AnswerTo(fetch, Calls(requests[..last], room), requests[last], room) == OverBudget;
    }
  }

  // ------------------------------------------------------------------ the budget and the cache as they run
  class CallBudget<Req> {
    const limit: nat
    var spent: nat
    var requests: seq<Req>

    predicate Valid()
      reads this
    {
      spent == |requests| && spent <= limit
    }

    /** A run needs at least one call. */
    constructor (limit: nat)
      requires limit >= 1
      ensures Valid() && this.limit == limit && spent == 0 && requests == []
    {
      this.limit := limit;
      spent, requests := 0, [];
    }

    /** True when the call may be made, and then it is counted; false stops the run. */
    method Spend(r: Req) returns (ok: bool)
      requires Valid()
      modifies this
      ensures Valid() && ok == (old(spent) < limit)
      ensures requests == if ok then old(requests) + [r] else old(requests)
    {
      ok := spent + 1 <= limit;
      if ok {
        spent := spent + 1;
        requests := requests + [r];
      }
    }
  }

  class ResponseCache<Req(==,!new), Resp> {
    const fetch: Req -> Result<Resp, string>
    const budget: CallBudget<Req>
    ghost const before: nat
    var responses: map<Req, Resp>
    var failures: map<Req, string>

    /** The calls made through this cache, in order. */
    ghost function Made(): seq<Req>
      reads this, budget
      requires Valid()
    {
      budget.requests[before..]
    }

    /** How many calls this cache may make. */
    ghost function Room(): nat
      reads budget
      requires before <= budget.limit
    {
      budget.limit - before
    }

    /** What is remembered is what the provider answered, once for each call made. */
    ghost predicate Valid()
      reads this, budget
    {
      && budget.Valid() && before <= budget.spent
      && responses.Keys !! failures.Keys
      && (forall r :: r in responses ==> fetch(r) == Ok(responses[r]))
      && (forall r :: r in failures ==> fetch(r) == Err(failures[r]))
      && (forall r :: r in budget.requests[before..] <==> r in responses || r in failures)
      && budget.spent - before == |responses| + |failures|
    }

    constructor (fetch: Req -> Result<Resp, string>, budget: CallBudget<Req>)
      requires budget.Valid()
      ensures Valid() && Made() == [] && this.fetch == fetch && this.budget == budget && before == budget.spent
    {
      this.fetch, this.budget := fetch, budget;
      before := budget.spent;
      responses, failures := map[], map[];
    }

    /** `get`: a remembered response or failure, or one call; the budget is spent before it. */
    method Get(r: Req) returns (a: Answer<Resp>)
      requires Valid()
      modifies this, budget
      ensures Valid()
      ensures Made() == Called(old(Made()), r, Room())
      ensures a == AnswerTo(fetch, old(Made()), r, Room())
    {
      if r in responses {
        return Got(responses[r]);
      }
      if r in failures {
        return ProviderFailed(failures[r]);
      }
      ghost var made := Made();
      var ok := budget.Spend(r);
      if !ok {
        return OverBudget;
      }
      assert budget.requests[before..] == made + [r];
      match fetch(r) {
        case Err(why) =>
          MapGrows(failures, r, why);
          failures := failures[r := why];
          a := ProviderFailed(why);
        case Ok(response) =>
          MapGrows(responses, r, response);
          responses := responses[r := response];
          a := Got(response);
      }
    }

    /** `calls`: every call made was remembered, as a response or as a failure. */
    method CallCount() returns (n: nat)
      requires Valid()
      ensures n == |Made()|
    {
      n := |responses| + |failures|;
    }
  }

  lemma MapGrows<K, V>(m: map<K, V>, k: K, v: V)
    requires k !in m
    ensures |m[k := v]| == |m| + 1
  {
    assert m[k := v].Keys == m.Keys + {k};
    assert |m| == |m.Keys| && |m[k := v]| == |m[k := v].Keys|;
  }
}
