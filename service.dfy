/**
 The state machine of package service (service/service.go): the server behind
 the /hash, /hash/{id}, /stats and /shutdown endpoints.

 Each locked region of the Go code is part of one atomic method or function
 here; a handler whose Go body takes the lock twice (once to read the
 shutdown flag, once for its work) is one step.
 The clock is a parameter: `now` is the time in nanoseconds at which a
 handler runs, `elapsed` the latency of the accept path that the handler
 measures. The deferred goroutine that computes a digest is the method
 `Complete`, which the environment may call at any time for any id.
 */
module Service {
  import opened Wrappers
  import opened Types

  /** Five seconds in nanoseconds: how long the deferred completion sleeps,
      and how old an entry must be before a poll answers with its password. */
  const Delay: int := 5_000_000_000

  /** Stats report the average latency in microseconds. */
  const NanosPerMicro: int := 1000

  /** Go's integer division, which truncates toward zero (Dafny's `/` does
      not for negative dividends). Every division in the service has a
      positive divisor. */
  function Quot(a: int, b: int): (q: int)
    requires b > 0
  {
    if a >= 0 then a / b else -((-a) / b)
  }

  /** The quotient leaves a remainder smaller than the divisor with the sign
      of the dividend, which determines it. */
  lemma QuotTruncates(a: int, b: int)
    requires b > 0
    ensures a >= 0 ==> 0 <= a - Quot(a, b) * b < b
    ensures a < 0 ==> -b < a - Quot(a, b) * b <= 0
  {
  }

  /** The value of the running-average field after the accepted submissions
      whose accept latencies are `latencies`, in allocation order: each one
      sets `Average` to `(Average + elapsed) / Head`. */
  function RunningAverage(latencies: seq<int>): (average: int)
  {
    if |latencies| == 0 then 0
    else
      var n := |latencies|;
      Quot(RunningAverage(latencies[..n - 1]) + latencies[n - 1], n)
  }

  /** One more submission applies the recurrence once more. */
  lemma {:induction false} RunningAverageStep(latencies: seq<int>, elapsed: int)
    ensures RunningAverage(latencies + [elapsed])
         == Quot(RunningAverage(latencies) + elapsed, |latencies| + 1)
  {
    var extended := latencies + [elapsed];
    assert extended[..|extended| - 1] == latencies;
    assert extended[|extended| - 1] == elapsed;
  }

  /** With non-negative latencies the running average is never negative. */
  lemma {:induction false} RunningAverageNonNegative(latencies: seq<int>)
    requires forall i :: 0 <= i < |latencies| ==> latencies[i] >= 0
    ensures RunningAverage(latencies) >= 0
  {
    if |latencies| > 0 {
      RunningAverageNonNegative(latencies[..|latencies| - 1]);
    }
  }

  /** Multiplying by a non-negative factor keeps the order. */
  lemma MulMonotone(k: int, a: int, b: int)
    requires 0 <= k && a <= b
    ensures k * a <= k * b
  {
    assert k * b - k * a == k * (b - a);
  }

  /** Dividing at most twice the bound by two or more stays within the bound. */
  lemma QuotOfTwiceBound(x: int, n: int, bound: int)
    requires 0 <= x <= 2 * bound && 2 <= n
    ensures 0 <= Quot(x, n) <= bound
  {
    var q := Quot(x, n);
    QuotTruncates(x, n);
    if q < 0 {
      MulMonotone(n, q, -1);
      assert false;
    }
    if q > bound {
      MulMonotone(q, 2, n);
      assert false;
    }
  }

  /** The running average never exceeds the largest latency seen. */
  lemma {:induction false} RunningAverageAtMost(latencies: seq<int>, bound: int)
    requires 0 <= bound
    requires forall i :: 0 <= i < |latencies| ==> 0 <= latencies[i] <= bound
    ensures RunningAverage(latencies) <= bound
  {
    var n := |latencies|;
    if n > 0 {
      var prefix := latencies[..n - 1];
      RunningAverageAtMost(prefix, bound);
      RunningAverageNonNegative(prefix);
      if n > 1 {
        QuotOfTwiceBound(RunningAverage(prefix) + latencies[n - 1], n, bound);
      }
    }
  }

  /** The recurrence is not the arithmetic mean: three requests of 10 ns
      each leave an average of 6 ns. */
  lemma RunningAverageIsNotTheMean()
    ensures RunningAverage([10, 10, 10]) == 6
  {
    assert [10, 10, 10][..2] == [10, 10];
    assert [10, 10][..1] == [10];
    assert [10][..0] == [];
  }

  /** The body of a request to /hash, as the HTTP layer decoded it. */
  datatype HashBody =
    | JsonBody(decoded: Option<HashData>)  // None: the JSON decoder failed
    | FormBody(password: Option<string>)   // the first value of form field "password", if any

  datatype HashRequest = HashRequest(verb: string, body: HashBody)

  datatype HashError = DecodeFailed | NoPassword | NotPost

  /** What a /hash handler answers: nothing (the service is shut down), an
      error, or the newly issued id. */
  datatype HashResponse = HashIgnored | HashRejected(error: HashError) | Issued(id: int)

  /** What a poll of one id answers: the id is unknown, the id itself (the
      entry is younger than the delay), or the stored password. */
  datatype PollResult = NotFound(id: int) | NotReady(id: int) | Ready(password: string)

  datatype CheckResponse = CheckIgnored | CheckBadMethod | BadID | Answer(result: PollResult)

  datatype StatsResponse = StatsIgnored | StatsBadMethod | StatsOk(stats: StatsData)

  /** The password a /hash body carries, or the error the handler reports:
      a JSON body that does not decode, or a form without a password field.
      A JSON body without a "password" member decodes to the empty password. */
  function ParseBody(body: HashBody): (r: Result<string, HashError>)
    ensures body.JsonBody? && body.decoded.None? ==> r == Failure(DecodeFailed)
    ensures body.JsonBody? && body.decoded.Some? ==> r == Success(body.decoded.value.Password)
    ensures body.FormBody? && body.password.None? ==> r == Failure(NoPassword)
    ensures body.FormBody? && body.password.Some? ==> r == Success(body.password.value)
    ensures r.Failure? <==> (body.JsonBody? && body.decoded.None?) || (body.FormBody? && body.password.None?)
  {
    match body
    case JsonBody(decoded) =>
      if decoded.Some? then Success(decoded.value.Password) else Failure(DecodeFailed)
    case FormBody(password) =>
      if password.Some? then Success(password.value) else Failure(NoPassword)
  }

  class ServerType {
    /** The last id issued; 0 before the first submission. */
    var Head: int
    /** The entry of every issued id. */
    var IDMap: map<int, IDData>
    /** The running average of the accept latency, in nanoseconds. */
    var Average: int
    var shutdown: bool
    /** The digest function (SHA-512, then standard base64), left uninterpreted. */
    const hashAndEncode: string -> string
    /** The deferred completions that have been started and have not run yet:
        for each id, the password and time its goroutine captured. */
    var Scheduled: map<int, IDData>
    /** Every accepted submission, in id order: Submitted[i - 1] is what id i stored first. */
    ghost var Submitted: seq<IDData>
    /** The accept latency of every accepted submission, in id order. */
    ghost var Latencies: seq<int>

    /** The entry for id `id`: the submitted one while its completion is
        pending, the one holding the digest afterwards. */
    ghost function Expected(id: int): (entry: IDData)
      reads this
      requires 1 <= id <= |Submitted|
    {
      var e := Submitted[id - 1];
      if id in Scheduled then e else IDData(hashAndEncode(e.Password), e.FirstCall)
    }

    ghost predicate Valid()
      reads this
    {
      && Head == |Submitted| == |Latencies|
      && (forall id :: id in IDMap <==> 1 <= id <= Head)
      && (forall id :: id in Scheduled ==> id in IDMap && Scheduled[id] == Submitted[id - 1])
      && (forall id :: id in IDMap ==> IDMap[id] == Expected(id))
      && Average == RunningAverage(Latencies)
    }

    /** NewServer: no id issued, no entry, average 0, running. */
    constructor (hashAndEncode: string -> string)
      ensures Valid()
      ensures Head == 0 && IDMap == map[] && Average == 0 && !shutdown
      ensures Scheduled == map[] && Submitted == [] && Latencies == []
      ensures this.hashAndEncode == hashAndEncode
    {
      Head := 0;
      IDMap := map[];
      Average := 0;
      shutdown := false;
      this.hashAndEncode := hashAndEncode;
      Scheduled := map[];
      Submitted := [];
      Latencies := [];
    }

    /** The locked region of a POST to /hash: issue the next id, store the
        pending entry, start its deferred completion and update the average. */
    method Submit(password: string, now: int, elapsed: int) returns (id: int)
      requires Valid()
      modifies this`Head, this`IDMap, this`Average, this`Scheduled, this`Submitted, this`Latencies
      ensures Valid()
      ensures id == old(Head) + 1 == Head && id !in old(IDMap)
      ensures IDMap == old(IDMap)[id := IDData(password, now)]
      ensures Scheduled == old(Scheduled)[id := IDData(password, now)]
      ensures Average == Quot(old(Average) + elapsed, Head)
      ensures Submitted == old(Submitted) + [IDData(password, now)]
      ensures Latencies == old(Latencies) + [elapsed]
    {
      RunningAverageStep(Latencies, elapsed);
      Head := Head + 1;
      IDMap := IDMap[Head := IDData(password, now)];
      Scheduled := Scheduled[Head := IDData(password, now)];
      Submitted := Submitted + [IDData(password, now)];
      Latencies := Latencies + [elapsed];
      id := Head;
      Average := Quot(Average + elapsed, Head);
      forall i | i in IDMap
        ensures IDMap[i] == Expected(i)
      {
        if i == id {
          assert id in Scheduled && Submitted[id - 1] == IDData(password, now);
        } else {
          assert i in old(IDMap) && IDMap[i] == old(IDMap)[i];
          assert Submitted[i - 1] == old(Submitted)[i - 1];
          assert (i in Scheduled) == (i in old(Scheduled));
        }
      }
    }

    /** The /hash handler. A shut-down server, a body without a password and
        any method but POST leave the state as it was. */
    method HashPassword(req: HashRequest, now: int, elapsed: int) returns (resp: HashResponse)
      requires Valid()
      modifies this`Head, this`IDMap, this`Average, this`Scheduled, this`Submitted, this`Latencies
      ensures Valid()
      ensures old(shutdown) ==> resp == HashIgnored
      ensures !old(shutdown) && ParseBody(req.body).Failure? ==> resp == HashRejected(ParseBody(req.body).error)
      ensures !old(shutdown) && ParseBody(req.body).Success? && req.verb != "POST" ==> resp == HashRejected(NotPost)
      ensures resp.Issued? <==> !old(shutdown) && ParseBody(req.body).Success? && req.verb == "POST"
      ensures !resp.Issued? ==> unchanged(this)
      ensures resp.Issued? ==>
        var entry := IDData(ParseBody(req.body).value, now);
        && resp.id == old(Head) + 1 == Head && resp.id !in old(IDMap)
        && IDMap == old(IDMap)[resp.id := entry]
        && Scheduled == old(Scheduled)[resp.id := entry]
        && Average == Quot(old(Average) + elapsed, Head)
        && Submitted == old(Submitted) + [entry]
        && Latencies == old(Latencies) + [elapsed]
    {
      if shutdown {
        return HashIgnored;
      }
      var parsed := ParseBody(req.body);
      if parsed.Failure? {
        return HashRejected(parsed.error);
      }
      if req.verb != "POST" {
        return HashRejected(NotPost);
      }
      var id := Submit(parsed.value, now, elapsed);
      resp := Issued(id);
    }

    /** The deferred goroutine of submission `id`: replace the entry's
        password by its digest, keeping the submission time. It runs at most
        once; for an id with no pending completion nothing changes. */
    method Complete(id: int) returns (ran: bool)
      requires Valid()
      modifies this`IDMap, this`Scheduled
      ensures Valid()
      ensures ran <==> id in old(Scheduled)
      ensures ran ==>
        && IDMap == old(IDMap)[id := IDData(hashAndEncode(old(Scheduled)[id].Password), old(IDMap)[id].FirstCall)]
        && Scheduled == old(Scheduled) - {id}
      ensures !ran ==> unchanged(this)
    {
      if id in Scheduled {
        var captured := Scheduled[id];
        IDMap := IDMap[id := IDData(hashAndEncode(captured.Password), captured.FirstCall)];
        Scheduled := Scheduled - {id};
        ran := true;
      } else {
        ran := false;
      }
    }

    /** The GET branch of /hash/{id}. Readiness is decided by the age of the
        entry alone, not by whether its completion has run: from the delay on
        (exactly five seconds included) the stored password comes back, the
        digest once the completion has run and the raw password before. */
    function Poll(id: int, now: int): (r: PollResult)
      reads this
      requires Valid()
      ensures r == NotFound(id) <==> !(1 <= id <= Head)
      ensures 1 <= id <= Head ==>
        var e := Submitted[id - 1];
        && (r == NotReady(id) <==> now < e.FirstCall + Delay)
        && (now >= e.FirstCall + Delay && id !in Scheduled ==> r == Ready(hashAndEncode(e.Password)))
        && (now >= e.FirstCall + Delay && id in Scheduled ==> r == Ready(e.Password))
    {
      if id !in IDMap then NotFound(id)
      else if IDMap[id].FirstCall > now - Delay then NotReady(id)
      else Ready(IDMap[id].Password)
    }

    /** The /hash/{id} handler; `id` is None when the path segment is not a
        number. It answers only on a running server, for GET and a numeric id. */
    function CheckPassword(verb: string, id: Option<int>, now: int): (r: CheckResponse)
      reads this
      requires Valid()
      ensures r == CheckIgnored <==> shutdown
      ensures r.Answer? <==> !shutdown && verb == "GET" && id.Some?
      ensures !shutdown && verb != "GET" ==> r == CheckBadMethod
      ensures !shutdown && verb == "GET" && id.None? ==> r == BadID
      ensures r.Answer? ==> r.result == Poll(id.value, now)
    {
      if shutdown then CheckIgnored
      else if verb != "GET" then CheckBadMethod
      else if id.None? then BadID
      else Answer(Poll(id.value, now))
    }

    /** The /stats handler: on a running server, the number of accepted
        submissions and the recurrence over their latencies, in microseconds. */
    function GetAPIStats(verb: string): (r: StatsResponse)
      reads this
      requires Valid()
      ensures r == StatsIgnored <==> shutdown
      ensures r.StatsOk? <==> !shutdown && verb == "GET"
      ensures r.StatsOk? ==> r.stats == StatsData(|Submitted|, Quot(RunningAverage(Latencies), NanosPerMicro))
    {
      if shutdown then StatsIgnored
      else if verb != "GET" then StatsBadMethod
      else StatsOk(StatsData(Head, Quot(Average, NanosPerMicro)))
    }

    /** The /shutdown handler: from now on hash, check and stats do nothing. */
    method Shutdown()
      requires Valid()
      modifies this`shutdown
      ensures Valid() && shutdown
    {
      shutdown := true;
    }
  }

  /** Once poll has answered with a password it never goes back to echoing
      the id as time goes on. */
  lemma PollNeverReverts(s: ServerType, id: int, earlier: int, later: int)
    requires s.Valid() && earlier <= later && s.Poll(id, earlier).Ready?
    ensures s.Poll(id, later) == s.Poll(id, earlier)
  {
  }

  /** With non-negative latencies the reported average lies between 0 and
      the largest latency, in microseconds. */
  lemma StatsAverageBounded(s: ServerType, bound: int)
    requires s.Valid() && !s.shutdown && 0 <= bound
    requires forall i :: 0 <= i < |s.Latencies| ==> 0 <= s.Latencies[i] <= bound
    ensures s.GetAPIStats("GET").StatsOk?
    ensures 0 <= s.GetAPIStats("GET").stats.Average <= Quot(bound, NanosPerMicro)
  {
    RunningAverageNonNegative(s.Latencies);
    RunningAverageAtMost(s.Latencies, bound);
    var avg := s.Average;
    var q, b := Quot(avg, NanosPerMicro), Quot(bound, NanosPerMicro);
    QuotTruncates(avg, NanosPerMicro);
    QuotTruncates(bound, NanosPerMicro);
    assert q * NanosPerMicro <= avg <= bound < (b + 1) * NanosPerMicro;
  }
}
