/**
 Client runs of the service, one request after another, proved from the
 contracts of Service.ServerType alone. Each creates its own server.
 */
module Scenarios {
  import opened Wrappers
  import opened Types
  import opened Service

  /** A new server reports zero requests and a zero average. */
  method FreshServerStats(hashAndEncode: string -> string) returns (stats: StatsResponse)
    ensures stats == StatsOk(StatsData(0, 0))
  {
    var s := new ServerType(hashAndEncode);
    stats := s.GetAPIStats("GET");
  }

  /** Polling an id that was never issued answers "not found". */
  method PollNeverIssued(hashAndEncode: string -> string, now: int) returns (r: CheckResponse)
    ensures r == Answer(NotFound(999))
  {
    var s := new ServerType(hashAndEncode);
    r := s.CheckPassword("GET", Some(999), now);
  }

  /** Submitting "angryMonkey" issues id 1; a poll before five seconds have
      passed echoes the id; once the completion has run, which is no earlier
      than five seconds after the accept path ended, a poll answers with the
      digest. */
  method AngryMonkey(hashAndEncode: string -> string, t0: int, elapsed: int, soon: int)
    returns (id: int, early: CheckResponse, late: CheckResponse)
    requires 0 <= elapsed
    requires soon < t0 + Delay
    ensures id == 1
    ensures early == Answer(NotReady(1))
    ensures late == Answer(Ready(hashAndEncode("angryMonkey")))
  {
    var s := new ServerType(hashAndEncode);
    var resp := s.HashPassword(HashRequest("POST", FormBody(Some("angryMonkey"))), t0, elapsed);
    id := resp.id;
    early := s.CheckPassword("GET", Some(id), soon);
    var ran := s.Complete(id);
    late := s.CheckPassword("GET", Some(id), t0 + elapsed + Delay);
  }

  /** When the delay has passed but the completion has not yet run, a poll
      answers with the raw password. */
  method PollBeforeCompletion(hashAndEncode: string -> string, t0: int, elapsed: int)
    returns (late: CheckResponse)
    ensures late == Answer(Ready("angryMonkey"))
  {
    var s := new ServerType(hashAndEncode);
    var resp := s.HashPassword(HashRequest("POST", FormBody(Some("angryMonkey"))), t0, elapsed);
    late := s.CheckPassword("GET", Some(resp.id), t0 + Delay);
  }

  /** Once a poll has answered with the digest, later polls of that id keep
      answering it, whatever submissions and completions happen meanwhile. */
  method ReadyNeverReverts(hashAndEncode: string -> string, t0: int, elapsed: int, later: int)
    returns (first: CheckResponse, second: CheckResponse)
    requires 0 <= elapsed && t0 + elapsed + Delay <= later
    ensures first == Answer(Ready(hashAndEncode("angryMonkey")))
    ensures second == first
  {
    var s := new ServerType(hashAndEncode);
    var resp := s.HashPassword(HashRequest("POST", FormBody(Some("angryMonkey"))), t0, elapsed);
    var ran := s.Complete(resp.id);
    assert 1 !in s.Scheduled && s.Submitted[0] == IDData("angryMonkey", t0);
    first := s.CheckPassword("GET", Some(1), t0 + elapsed + Delay);
    assert first == Answer(Ready(hashAndEncode("angryMonkey")));
    var other := s.HashPassword(HashRequest("POST", FormBody(Some("x"))), later, elapsed);
    assert other == Issued(2);
    ran := s.Complete(1);
    ran := s.Complete(other.id);
    assert 1 !in s.Scheduled && s.Submitted[0] == IDData("angryMonkey", t0);
    second := s.CheckPassword("GET", Some(1), later);
  }

  /** N submissions in a row get the ids 1, ..., N, and stats then report N
      and the recurrence over their latencies in microseconds. */
  method SequentialSubmissions(hashAndEncode: string -> string, passwords: seq<string>,
                               times: seq<int>, latencies: seq<int>)
    returns (ids: seq<int>, stats: StatsResponse)
    requires |times| == |passwords| == |latencies|
    ensures |ids| == |passwords|
    ensures forall i :: 0 <= i < |ids| ==> ids[i] == i + 1
    ensures stats == StatsOk(StatsData(|passwords|, Quot(RunningAverage(latencies), NanosPerMicro)))
  {
    var s := new ServerType(hashAndEncode);
    ids := [];
    var k := 0;
    while k < |passwords|
      invariant 0 <= k <= |passwords|
      invariant s.Valid() && !s.shutdown
      invariant |ids| == k == s.Head
      invariant forall i :: 0 <= i < k ==> ids[i] == i + 1
      invariant s.Latencies == latencies[..k]
    {
      var resp := s.HashPassword(HashRequest("POST", FormBody(Some(passwords[k]))), times[k], latencies[k]);
      ids := ids + [resp.id];
      assert latencies[..k + 1] == latencies[..k] + [latencies[k]];
      k := k + 1;
    }
    assert latencies[..k] == latencies;
    stats := s.GetAPIStats("GET");
  }

  /** After shutdown, hash, check and stats answer nothing, and a further
      submission issues no id, when each request runs to its end before the
      next begins. */
  method ShutdownGates(hashAndEncode: string -> string, now: int, elapsed: int)
    returns (hash: HashResponse, check: CheckResponse, stats: StatsResponse, head: int)
    ensures hash == HashIgnored && check == CheckIgnored && stats == StatsIgnored
    ensures head == 1
  {
    var s := new ServerType(hashAndEncode);
    var first := s.HashPassword(HashRequest("POST", FormBody(Some("angryMonkey"))), now, elapsed);
    s.Shutdown();
    hash := s.HashPassword(HashRequest("POST", FormBody(Some("x"))), now + elapsed, elapsed);
    check := s.CheckPassword("GET", Some(1), now + Delay);
    stats := s.GetAPIStats("GET");
    head := s.Head;
  }

  /** The Go handler reads the shutdown flag under one lock and runs its POST
      region under another, so a shutdown can fall between the two: a
      request that passed the gate still gets an id after shutdown is set. */
  method ShutdownBetweenGateAndSubmit(hashAndEncode: string -> string, now: int, elapsed: int)
    returns (passedGate: bool, id: int, down: bool, head: int)
    ensures passedGate && down
    ensures id == 1 && head == 1
  {
    var s := new ServerType(hashAndEncode);
    passedGate := !s.shutdown;
    s.Shutdown();
    id := s.Submit("x", now, elapsed);
    down := s.shutdown;
    head := s.Head;
  }
}
