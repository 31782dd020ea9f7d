# Password-hashing service: a Dafny model of its state machine

The service accepts a password on `POST /hash` and answers at once with a new
id. Five seconds later a background task replaces the stored password with its
digest (SHA-512, then standard base64). `GET /hash/{id}` polls for the digest.
`GET /stats` reports the number of accepted requests and a running average of
the accept latency. `/shutdown` stops `/hash`, `/hash/{id}` and `/stats` from answering.

This project models the server object of package `service`, `ServerType`, as
the Dafny class `Service.ServerType`. It keeps the same fields: `Head` (the
last id issued), `IDMap` (id to `{Password, FirstCall}`), `Average` (the
running latency in nanoseconds) and `shutdown`. Each locked region of the Go
code is part of one atomic method or function. A handler that takes the lock
twice, once to read the shutdown flag and once for its work, becomes a single
step:

- the constructor is `NewServer`;
- `Submit` is the POST branch of `HashPassword`, and `HashPassword` is the
  whole handler with its shutdown gate and error paths;
- `Complete` is the deferred goroutine;
- `Poll` and `CheckPassword` are the `/hash/{id}` handler;
- `GetAPIStats` and `Shutdown` are the other two handlers.

The class also has three fields that the Go code does not have:

- `Scheduled` holds the deferred completions that have been started and have
  not run yet. For each id it keeps the password and time that the goroutine
  captured.
- the ghost `Submitted` records every accepted submission in id order.
- the ghost `Latencies` records every accepted submission's latency in id
  order.

`Valid()` ties all of these together:

- the ids are exactly `1..Head`;
- a pending entry holds the raw password;
- a completed entry holds the digest of the raw password and keeps its
  submission time;
- `Average` is the recurrence `(Average + elapsed) / Head` applied over
  `Latencies` in order. The division truncates, like Go's.

Time is an integer number of nanoseconds and is passed in: `now` is when a
handler runs, and `elapsed` is the accept latency the handler measured. The
digest function `hashAndEncode` is a parameter of the constructor. It is left
uninterpreted. The environment may call `Complete` for any id at any time, including earlier than Go could run it (see "## Left out").
For an id without a pending completion the call changes nothing, so each
completion runs at most once.

Shutdown gates all three request handlers, as the comment on `Shutdown` says
("Shutdown blocks API calls from use", service/service.go:242).
`HashPassword`, `CheckPassword` and `GetAPIStats` return nothing once
`shutdown` is set (service/service.go:94-101, 169-176, 216-223), and so do
the model's handlers. The flag is one-way. `Shutdown` sets it. `Submit`, `HashPassword` and
`Complete` do not have it in their `modifies` frames. The code that would
clear it again is commented out (service/service.go:255-258).

Files: `wrappers.dfy` (Option, Result), `types.dfy` (the records of
types/types.go), `service.dfy` (the model and its lemmas) and `scenarios.dfy`
(request sequences proved from the contracts alone).

## Model

| member | source | states |
|---|---|---|
| Service.QuotTruncates | service/service.go:136 | `Quot`, Go's int64 division of the running average: the remainder has the sign of the dividend and is smaller than the divisor, so the quotient is truncated toward zero |
| Service.RunningAverageStep | service/service.go:135-136 | one more accepted submission applies `(average + elapsed) / count` once more, with the new count |
| Service.RunningAverageNonNegative | service/service.go:135-136 | with non-negative latencies the running average never becomes negative |
| Service.RunningAverageAtMost | service/service.go:135-136 | with latencies between 0 and a bound the running average never exceeds the bound |
| Service.RunningAverageIsNotTheMean | service/service.go:136 | the recurrence is not the arithmetic mean: three latencies of 10 ns give 6 ns |
| Service.ParseBody | service/service.go:107-127 | a JSON body that fails to decode is rejected as a decode failure. A form without a `password` field is rejected as "no password". Otherwise the password is the decoded one or the first form value. Only these two cases are errors |
| Service.ServerType.constructor | service/service.go:46-54 | a new server has `Head = 0`, an empty `IDMap`, `Average = 0`, `shutdown = false` and no pending completion |
| Service.ServerType.Submit | service/service.go:131-137 | whether or not the server is shut down (this region does not read the flag): issues `old(Head) + 1`, an id not in use; stores `{password, now}` at it and changes no other entry; starts its completion; sets `Average = (old Average + elapsed) / Head`; keeps `Valid()` |
| Service.ServerType.HashPassword | service/service.go:92-165 | on a shut-down server it answers nothing. A failed JSON decode, a form without a password and any method but POST are rejected. All these leave the whole state unchanged. Otherwise the result is that of `Submit`. An id is issued exactly when the server is running, a password is present and the method is POST |
| Service.ServerType.Complete | service/service.go:140-146 | for an id whose completion is pending: replaces only that entry's password by the digest of the captured password, keeps its `FirstCall`, and retires the completion. `Head`, `Average`, `shutdown` and the other entries are unchanged (frame). For any other id nothing changes |
| Service.ServerType.Poll | service/service.go:189-203 | reads only. "not found" exactly for ids outside `1..Head`. The id itself exactly when less than 5 s have passed since submission. From 5 s on (5 s exactly included) the stored password: the digest if the completion has run, the raw password if it has not |
| Service.ServerType.CheckPassword | service/service.go:168-212 | answers nothing exactly when shut down. On a running server, a method other than GET is a bad request whatever the id. A GET with a non-numeric id is a bad id. A poll is answered exactly for GET with a numeric id, with the result `Poll` gives |
| Service.ServerType.GetAPIStats | service/service.go:215-240 | answers nothing exactly when shut down, and reports stats exactly for GET on a running server. The total is then the number of accepted submissions, and the average is the recurrence over their latencies divided by 1000 (microseconds, truncated) |
| Service.ServerType.Shutdown | service/service.go:243-247 | sets `shutdown` and changes nothing else (frame); calling it again changes nothing |
| Service.PollNeverReverts | service/service.go:194-200 | once poll has answered with a password, later polls of the same state answer the same and never go back to the id |
| Service.StatsAverageBounded | service/service.go:230 | with latencies between 0 and a bound, the reported average lies between 0 and the bound in microseconds |
| Scenarios.FreshServerStats | service/service.go:46-54 | stats on a new server report total 0 and average 0 |
| Scenarios.PollNeverIssued | service/service.go:201-203 | polling id 999 on a new server answers "not found" |
| Scenarios.AngryMonkey | service/service.go:129-200 | submitting "angryMonkey" issues id 1. A poll before 5 s echoes 1. After the completion, a poll at 5 s plus the accept latency (the earliest time the Go goroutine can have written the digest) answers the digest of "angryMonkey" |
| Scenarios.PollBeforeCompletion | service/service.go:193-200 | at 5 s, before the completion has run, a poll answers the raw password |
| Scenarios.ReadyNeverReverts | service/service.go:140-146 | once a poll at 5 s plus the accept latency has answered the digest, a later poll of that id answers the same digest, despite a further submission and further completions in between |
| Scenarios.SequentialSubmissions | service/service.go:131-136 | N submissions in a row get the ids 1, …, N. Stats then report N, and the recurrence over the N latencies in microseconds |
| Scenarios.ShutdownGates | testclient/testclient.go:155-163 | when requests run one after another: after shutdown, hash, check and stats answer nothing, and a further submission issues no id |
| Scenarios.ShutdownBetweenGateAndSubmit | service/service.go:94-137 | a request that read the flag as unset before a shutdown still gets an id, because the POST region does not read the flag again |

## Left out

- HTTP plumbing: JSON and form decoding, path splitting, `strconv.Atoi`, response encoding and writing (service/service.go:56-80, 105-127, 177-188). The handlers take the already-parsed password or id (`HashBody`, `Option<int>`).
- HashPassword: the JSON answer `{password, id}` and the plain-text id are both reduced to `Issued(id)`. The error texts are reduced to `HashError` values.
- The reader/writer mutex and the goroutines. Each locked region is one atomic step. The deferred completion is the environment-invoked `Complete`.
- HashPassword, CheckPassword, GetAPIStats: in Go each reads the shutdown flag under one lock and does its work under another (service/service.go:94-97 and 131-137, 169-172 and 189-191, 216-219 and 229-231). A `Shutdown` can run in between. The request then still issues an id and updates `Average`, or still answers a poll or stats. The model's handlers do the check and the work in one step, so they do not capture this check-then-act gap. `Scenarios.ShutdownBetweenGateAndSubmit` shows the hash case with `Submit` called directly.
- Complete: the model lets the completion run at any time. In Go the goroutine starts only after the locked POST region ends and then sleeps 5 s (service/service.go:137-144), so the digest is written no earlier than `FirstCall + elapsed + 5 s`. The model therefore also reaches states Go never reaches: a completed entry younger than 5 s plus its accept latency, on which a poll answers the digest where Go answers the raw password. `Poll`'s contract holds of every state, and the scenarios poll for the digest only from `FirstCall + elapsed + 5 s` on.
- `time.Sleep` and the wall clock: time is a parameter.
- SHA-512 and base64 (RFC 4648, section 4) inside `hashAndEncode`: a constructor parameter with no properties assumed. Collision freedom of the digest is therefore not stated.
- The self-signal after shutdown and what happens when it fails (service/service.go:249-260): process control. The shutdown flag stays set either way.
- Submit: does not model 64-bit wrap-around of `Head` or of `Average + elapsed`, because the integers here are unbounded.
- GetAPIStats: reports the integer quotient `Average / 1000` (service/service.go:230). The `float64` type of the `Average` field (types/types.go:22) is not modelled.
- Logging, main.go (configuration, listening, signal waiting) and the test client's concurrent goroutines and sleeps.
