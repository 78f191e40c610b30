/** The scan client of src/cloudflare.rs: submit a site to the URL scanner,
    then poll at most three times, twenty seconds apart, for the report, and
    judge the report by its transfer size and its malicious verdict.

    The two HTTP exchanges are inputs: the reply to the submission and the
    replies the three polls would receive, already decoded from JSON. Sleeps
    and requests become events of a trace. */
module Cloudflare {
  import opened Basics

  /** The largest acceptable page weight, in bytes. */
  const SIZE_LIMIT: nat := 10_240
  /** `for _ in 0..3`: the number of polls. */
  const POLL_ATTEMPTS: nat := 3
  /** Seconds slept before each poll. */
  const POLL_DELAY: nat := 20

  type U32 = x: nat | x < 0x1_0000_0000

  /** The decoded body of the submission reply. */
  datatype SubmitBody = SubmitBody(success: bool, uuid: string)

  /** The decoded body of a report: `result.scan.stats.requests.transferSizeBytes`
      and `result.scan.verdicts.overall.malicious`. */
  datatype ReportBody = ReportBody(success: bool, transferSize: U32, malicious: bool)

  /** `UrlScan`: the measured size (exact, the `u32` converted to `f64`) and the verdict. */
  datatype UrlScan = UrlScan(size: nat, acceptable: bool)

  datatype ScanError =
    | BadAuthHeader          // "Bearer {token}" is not a valid header value
    | Transport              // a request failed before a status arrived
    | SubmitStatus(status: nat)
    | MalformedBody          // a 200 body that could not be read or decoded
    | NotSuccessful          // the body says success = false
    | PollStatus(status: nat)
    | Unknown                // three 202 replies: "unknown error"

  datatype ScanEvent = Submit(url: string) | Delay(seconds: nat) | Poll(uuid: string)

  datatype ScanRun = ScanRun(result: Result<UrlScan, ScanError>, events: seq<ScanEvent>)

  /** Characters a `HeaderValue` accepts: visible ASCII, tab, and anything
      outside ASCII (whose UTF-8 bytes are all at least 0x80); no other
      control character and no DEL. */
  predicate HeaderText(s: string)
  {
    forall i :: 0 <= i < |s| ==> s[i] == '\t' || (s[i] >= ' ' && s[i] as int != 127)
  }

  /** The verdict on a completed report. */
  function Verdict(report: ReportBody): UrlScan
  {
    UrlScan(report.transferSize, report.transferSize <= SIZE_LIMIT && !report.malicious)
  }

  /** `n` poll rounds: each a 20-second delay, then a poll for `uuid`. */
  function Rounds(uuid: string, n: nat): (r: seq<ScanEvent>)
    ensures |r| == 2 * n
  {
    if n == 0 then [] else [Delay(POLL_DELAY), Poll(uuid)] + Rounds(uuid, n - 1)
  }

  /** A 202 reply: the scan has not finished. */
  predicate IsPending(reply: Reply<ReportBody>)
  {
    reply.Reply? && reply.status == 202
  }

  /** What a poll reply other than 202 ends the protocol with. */
  function Completion(reply: Reply<ReportBody>): Result<UrlScan, ScanError>
    requires !IsPending(reply)
  {
    match reply
    case TransportFailure => Err(Transport)
    case Reply(status, body) =>
      if status != 200 then Err(PollStatus(status))
      else if body.None? then Err(MalformedBody)
      else if !body.value.success then Err(NotSuccessful)
      else Ok(Verdict(body.value))
  }

  /** The polling phase over the replies the successive polls receive. */
  function PollLoop(uuid: string, polls: seq<Reply<ReportBody>>): ScanRun
  {
    if polls == [] then ScanRun(Err(Unknown), [])
    else if IsPending(polls[0]) then
      var rest := PollLoop(uuid, polls[1..]);
      ScanRun(rest.result, [Delay(POLL_DELAY), Poll(uuid)] + rest.events)
    else ScanRun(Completion(polls[0]), [Delay(POLL_DELAY), Poll(uuid)])
  }

  /** The whole protocol of `urlscan(host, …)`. */
  function ScanProtocol(host: string, token: string, submit: Reply<SubmitBody>,
                        polls: seq<Reply<ReportBody>>): ScanRun
  {
    if !HeaderText(token) then ScanRun(Err(BadAuthHeader), [])
    else match submit
      case TransportFailure => ScanRun(Err(Transport), [Submit(host)])
      case Reply(status, body) =>
        if status != 200 then ScanRun(Err(SubmitStatus(status)), [Submit(host)])
        else if body.None? then ScanRun(Err(MalformedBody), [Submit(host)])
        else if !body.value.success then ScanRun(Err(NotSuccessful), [Submit(host)])
        else
          var polled := PollLoop(body.value.uuid, polls);
          ScanRun(polled.result, [Submit(host)] + polled.events)
  }

  /** The submission was accepted: status 200 and a body with success = true. */
  predicate Submitted(submit: Reply<SubmitBody>)
  {
    submit.Reply? && submit.status == 200 && submit.body.Some? && submit.body.value.success
  }

  /** The index of the first reply that is not a 202, or |polls| if all are. */
  function FirstSettled(polls: seq<Reply<ReportBody>>): (k: nat)
    ensures k <= |polls|
    ensures forall j :: 0 <= j < k ==> IsPending(polls[j])
    ensures k < |polls| ==> !IsPending(polls[k])
  {
    if polls == [] || !IsPending(polls[0]) then 0 else 1 + FirstSettled(polls[1..])
  }

  lemma {:induction false} RoundsAppend(uuid: string, n: nat)
    ensures Rounds(uuid, n) + [Delay(POLL_DELAY), Poll(uuid)] == Rounds(uuid, n + 1)
  {
    if n > 0 {
      RoundsAppend(uuid, n - 1);
      assert Rounds(uuid, n) + [Delay(POLL_DELAY), Poll(uuid)]
          == [Delay(POLL_DELAY), Poll(uuid)] + (Rounds(uuid, n - 1) + [Delay(POLL_DELAY), Poll(uuid)]);
    }
  }

  /** The polling phase is decided by the first reply that is not a 202:
      one round per reply up to and including it, ending with that reply's
      outcome; if every reply is a 202, one round per reply and "unknown error". */
  lemma {:induction false} PollLoopOutcome(uuid: string, polls: seq<Reply<ReportBody>>)
    ensures var k := FirstSettled(polls);
      PollLoop(uuid, polls) ==
        if k == |polls| then ScanRun(Err(Unknown), Rounds(uuid, k))
        else ScanRun(Completion(polls[k]), Rounds(uuid, k + 1))
  {
    if polls != [] && IsPending(polls[0]) {
      PollLoopOutcome(uuid, polls[1..]);
    }
  }

  /** Each poll round is one delay of 20 seconds followed by one poll for `uuid`. */
  lemma {:induction false} RoundsShape(uuid: string, n: nat)
    ensures forall i :: 0 <= i < 2 * n ==>
      Rounds(uuid, n)[i] == if i % 2 == 0 then Delay(POLL_DELAY) else Poll(uuid)
  {
    if n > 0 {
      RoundsShape(uuid, n - 1);
      var r := Rounds(uuid, n);
      forall i | 2 <= i < 2 * n
        ensures r[i] == if i % 2 == 0 then Delay(POLL_DELAY) else Poll(uuid)
      {
        assert r[i] == Rounds(uuid, n - 1)[i - 2];
      }
    }
  }

  /** Acceptable exactly when the size is within the limit and the page is
      not malicious; the reported size is the report's transfer size whatever
      the verdict; 10240 bytes pass and 10241 do not. */
  lemma VerdictBoundary(report: ReportBody)
    ensures Verdict(report).size == report.transferSize
    ensures Verdict(report).acceptable <==> report.transferSize <= 10_240 && !report.malicious
    ensures Verdict(ReportBody(true, 10_240, false)).acceptable
    ensures !Verdict(ReportBody(true, 10_241, false)).acceptable
  {
  }

  /** A token that cannot form the authorization header, a failed submission,
      a non-200 submission status or a body with success = false ends in an
      error, and no delay and no poll follow. */
  lemma SubmitFailureIssuesNoPoll(host: string, token: string, submit: Reply<SubmitBody>,
                                   polls: seq<Reply<ReportBody>>)
    requires !HeaderText(token) || !Submitted(submit)
    ensures ScanProtocol(host, token, submit, polls).result.Err?
    ensures ScanProtocol(host, token, submit, polls).events ==
      if HeaderText(token) then [Submit(host)] else []
  {
  }

  /** After an accepted submission the trace is the submission followed by
      between one and three rounds of a 20-second delay and a poll with the
      submission's uuid; the rounds continue exactly while the replies are 202. */
  lemma PollBudget(host: string, token: string, submit: Reply<SubmitBody>,
                   polls: seq<Reply<ReportBody>>)
    requires |polls| == POLL_ATTEMPTS
    requires HeaderText(token) && Submitted(submit)
    ensures var run := ScanProtocol(host, token, submit, polls);
      var k := FirstSettled(polls);
      var n := if k == |polls| then k else k + 1;
      1 <= n <= POLL_ATTEMPTS && run.events == [Submit(host)] + Rounds(submit.body.value.uuid, n)
  {
    PollLoopOutcome(submit.body.value.uuid, polls);
  }

  /** Three 202 replies in a row end in an error, never in a verdict. */
  lemma ThreePendingTimesOut(host: string, token: string, submit: Reply<SubmitBody>,
                             polls: seq<Reply<ReportBody>>)
    requires |polls| == POLL_ATTEMPTS && forall j :: 0 <= j < |polls| ==> IsPending(polls[j])
    ensures ScanProtocol(host, token, submit, polls).result.Err?
  {
    if HeaderText(token) && Submitted(submit) {
      assert FirstSettled(polls) == |polls|;
      PollLoopOutcome(submit.body.value.uuid, polls);
    }
  }

  /** A poll status other than 200 or 202 ends the protocol at once with that
      status: the rounds stop at that poll. */
  lemma UnexpectedStatusStops(host: string, token: string, submit: Reply<SubmitBody>,
                              polls: seq<Reply<ReportBody>>, k: nat)
    requires HeaderText(token) && Submitted(submit)
    requires k < |polls| && forall j :: 0 <= j < k ==> IsPending(polls[j])
    requires polls[k].Reply? && polls[k].status != 200 && polls[k].status != 202
    ensures ScanProtocol(host, token, submit, polls) ==
      ScanRun(Err(PollStatus(polls[k].status)), [Submit(host)] + Rounds(submit.body.value.uuid, k + 1))
  {
    FirstSettledIs(polls, k);
    PollLoopOutcome(submit.body.value.uuid, polls);
  }

  /** The protocol yields a verdict exactly when some poll, after only 202
      replies, gets a 200 whose body decodes with success = true; the verdict
      is then that report's, carrying its transfer size. */
  lemma CompletedScan(host: string, token: string, submit: Reply<SubmitBody>,
                      polls: seq<Reply<ReportBody>>)
    ensures var run := ScanProtocol(host, token, submit, polls);
      run.result.Ok? <==>
        HeaderText(token) && Submitted(submit) &&
        exists k :: 0 <= k < |polls| && (forall j :: 0 <= j < k ==> IsPending(polls[j])) &&
          polls[k].Reply? && polls[k].status == 200 && polls[k].body.Some? && polls[k].body.value.success
    ensures var run := ScanProtocol(host, token, submit, polls);
      run.result.Ok? ==>
        var k := FirstSettled(polls);
        k < |polls| && polls[k].body.Some? && run.result.value == Verdict(polls[k].body.value)
  {
    if HeaderText(token) && Submitted(submit) {
      PollLoopOutcome(submit.body.value.uuid, polls);
      forall k | 0 <= k < |polls| && (forall j :: 0 <= j < k ==> IsPending(polls[j])) && !IsPending(polls[k])
        ensures k == FirstSettled(polls)
      {
        FirstSettledIs(polls, k);
      }
    }
  }

  /** The first non-202 reply after `k` 202 replies is at index `k`. */
  lemma {:induction false} FirstSettledIs(polls: seq<Reply<ReportBody>>, k: nat)
    requires k < |polls| && forall j :: 0 <= j < k ==> IsPending(polls[j])
    requires !IsPending(polls[k])
    ensures FirstSettled(polls) == k
  {
    if k > 0 {
      FirstSettledIs(polls[1..], k - 1);
    }
  }

  /** `urlscan`: the submission, then the poll loop with its early returns. */
  method Urlscan(host: string, token: string, submit: Reply<SubmitBody>,
                 polls: seq<Reply<ReportBody>>)
    returns (result: Result<UrlScan, ScanError>, events: seq<ScanEvent>)
    requires |polls| == POLL_ATTEMPTS
    ensures ScanRun(result, events) == ScanProtocol(host, token, submit, polls)
  {
    events := [];
    if !HeaderText(token) {
      return Err(BadAuthHeader), events;
    }
    events := events + [Submit(host)];
    if submit.TransportFailure? {
      return Err(Transport), events;
    }
    if submit.status != 200 {
      return Err(SubmitStatus(submit.status)), events;
    }
    if submit.body.None? {
      return Err(MalformedBody), events;
    }
    if !submit.body.value.success {
      return Err(NotSuccessful), events;
    }
    var scanId := submit.body.value.uuid;
    PollLoopOutcome(scanId, polls);

    for attempt := 0 to POLL_ATTEMPTS
      invariant events == [Submit(host)] + Rounds(scanId, attempt)
      invariant forall j :: 0 <= j < attempt ==> IsPending(polls[j])
    {
      RoundsAppend(scanId, attempt);
      events := events + [Delay(POLL_DELAY)];
      events := events + [Poll(scanId)];
      var reply := polls[attempt];
      if reply.TransportFailure? {
        FirstSettledIs(polls, attempt);
        return Err(Transport), events;
      }
      if reply.status == 202 {
        continue;
      }
      FirstSettledIs(polls, attempt);
      if reply.status != 200 {
        return Err(PollStatus(reply.status)), events;
      }
      if reply.body.None? {
        return Err(MalformedBody), events;
      }
      var report := reply.body.value;
      if !report.success {
        return Err(NotSuccessful), events;
      }
      var acceptableSize := report.transferSize <= SIZE_LIMIT;
      return Ok(UrlScan(report.transferSize, acceptableSize && !report.malicious)), events;
    }
    return Err(Unknown), events;
  }
}
