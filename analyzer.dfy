/** The validation workers: `analyzer` of src/analyzer.rs (the full variant,
    which also stores discussion links) and `main` of
    src/bin/tenkb_analyzer.rs (the scan-only variant).

    Both loop forever; the model runs a given number of cycles. In every
    cycle the worker reads the validation queue and handles each pending
    site in turn: a liveness GET, then the Cloudflare scan, then exactly one
    verdict write. The full variant then looks up discussion links for an
    accepted site and stores at most five from each source. Every error of a
    repository write or a link search ends the worker (`?`); only a failure
    to read the queue is logged and retried in the next cycle.

    The network is given per cycle and per site: the status of the liveness
    GET, the replies the scan and the searches would receive, and the status
    of each link probe. */
module Analyzer {
  import opened Basics
  import Cloudflare
  import RelatedLinks
  import Database

  type RelatedLink = RelatedLinks.RelatedLink

  /** The poll replies of one scan: one per attempt. */
  type PollReplies = s: seq<Reply<Cloudflare.ReportBody>> | |s| == Cloudflare.POLL_ATTEMPTS
    witness [TransportFailure, TransportFailure, TransportFailure]

  datatype Env = Env(
    token: string,
    live: (nat, string) -> Status,
    submit: (nat, string) -> Reply<Cloudflare.SubmitBody>,
    polls: (nat, string) -> PollReplies,
    hn: (nat, string) -> Reply<seq<RelatedLinks.HnHit>>,
    lobstersHost: string -> Option<string>,
    lobsters: (nat, string) -> Reply<seq<RelatedLinks.StoryRecord>>,
    linkStatus: (nat, string) -> Status)

  /** `analyzer` (Full) or the `tenkb_analyzer` binary (ScanOnly). */
  datatype Variant = Full | ScanOnly

  /** Seconds slept before every cycle but the first. */
  function SleepSeconds(v: Variant): nat
  {
    if v == Full then 60 else 1800
  }

  /** How many links of each source are kept. */
  const LINKS_PER_SOURCE: nat := 5

  /** A repository write function the worker calls. */
  datatype Call =
    | MarkBad(site: string)
    | MarkBadSize(site: string, size: nat)
    | MarkGood(site: string, size: nat)
    | UpdateRelated(site: string, links: seq<RelatedLink>)

  function Script(c: Call): seq<Database.Stmt>
  {
    match c
    case MarkBad(site) => Database.MarkBadScript(site)
    case MarkBadSize(site, size) => Database.MarkBadSizeScript(site, size)
    case MarkGood(site, size) => Database.MarkGoodScript(site, size)
    case UpdateRelated(site, links) => Database.UpdateRelatedScript(site, links)
  }

  datatype AnalyzerError = DatabaseError | LinksError(error: RelatedLinks.LinkError)

  datatype Event =
    | Slept(seconds: nat)
    | QueueFailed
    | QueueFetched(sites: seq<string>)
    | LiveChecked(site: string, live: bool)
    | Scanned(site: string, result: Result<Cloudflare.UrlScan, Cloudflare.ScanError>)
    | SearchedHn(site: string, ok: bool)
    | SearchedLobsters(site: string, ok: bool)
    | Wrote(call: Call, ok: bool)

  /** The repository, the calls made on it so far, the worker's trace, and
      the error that ended the worker, if any. */
  datatype State = State(tables: Database.Tables, executed: nat, events: seq<Event>, error: Option<AnalyzerError>)

  /** `site_live`: Ok exactly when the GET answers 200. */
  predicate SiteLive(status: Status)
  {
    status == Some(200)
  }

  function LinkStatusAt(env: Env, cycle: nat): string -> Status
  {
    url => env.linkStatus(cycle, url)
  }

  function ScanResult(env: Env, cycle: nat, site: string): Result<Cloudflare.UrlScan, Cloudflare.ScanError>
  {
    Cloudflare.ScanProtocol(site, env.token, env.submit(cycle, site), env.polls(cycle, site)).result
  }

  function HnResult(env: Env, cycle: nat, site: string): Result<seq<RelatedLink>, RelatedLinks.LinkError>
  {
    RelatedLinks.HnSearch(site, env.hn(cycle, site), LinkStatusAt(env, cycle)).result
  }

  function LobstersResult(env: Env, cycle: nat, site: string): Result<seq<RelatedLink>, RelatedLinks.LinkError>
  {
    RelatedLinks.LobstersSearch(site, env.lobstersHost(site), env.lobsters(cycle, site), LinkStatusAt(env, cycle)).result
  }

  /** The list written for an accepted site: the first five Hacker News
      links followed by the first five Lobsters links. */
  function Combined(hn: seq<RelatedLink>, lobsters: seq<RelatedLink>): (r: seq<RelatedLink>)
    ensures |r| <= 2 * LINKS_PER_SOURCE
    ensures |r| == Min(|hn|, LINKS_PER_SOURCE) + Min(|lobsters|, LINKS_PER_SOURCE)
    ensures r[..Min(|hn|, LINKS_PER_SOURCE)] == hn[..Min(|hn|, LINKS_PER_SOURCE)]
    ensures r[Min(|hn|, LINKS_PER_SOURCE)..] == lobsters[..Min(|lobsters|, LINKS_PER_SOURCE)]
  {
    Cap(hn, LINKS_PER_SOURCE) + Cap(lobsters, LINKS_PER_SOURCE)
  }

  function Min(a: nat, b: nat): nat
  {
    if a <= b then a else b
  }

  /** A repository write; a failure becomes the worker's error. */
  function Issue(st: State, faults: set<nat>, c: Call): State
  {
    var o := Database.Run(st.tables, st.executed, faults, Script(c));
    State(o.tables, o.executed, st.events + [Wrote(c, o.ok)], if o.ok then None else Some(DatabaseError))
  }

  /** What the network answers for one site in one cycle: whether the
      liveness GET saw 200, the scan's outcome, and the two searches'. */
  datatype Answers = Answers(
    live: bool,
    scan: Result<Cloudflare.UrlScan, Cloudflare.ScanError>,
    hn: Result<seq<RelatedLink>, RelatedLinks.LinkError>,
    lobsters: Result<seq<RelatedLink>, RelatedLinks.LinkError>)

  function AnswersOf(env: Env, cycle: nat, site: string): Answers
  {
    Answers(SiteLive(env.live(cycle, site)), ScanResult(env, cycle, site),
            HnResult(env, cycle, site), LobstersResult(env, cycle, site))
  }

  predicate Accepted(scan: Result<Cloudflare.UrlScan, Cloudflare.ScanError>)
  {
    scan.Ok? && scan.value.acceptable
  }

  /** The verdict written for a live site, by its scan. */
  function LiveVerdict(site: string, scan: Result<Cloudflare.UrlScan, Cloudflare.ScanError>): Call
  {
    match scan
    case Err(_) => MarkBad(site)
    case Ok(u) => if u.acceptable then MarkGood(site, u.size) else MarkBadSize(site, u.size)
  }

  /** The link lookups and the write of the combined list (full variant). */
  function Lookups(faults: set<nat>, st: State, site: string, a: Answers): State
  {
    var searched := st.(events := st.events + [SearchedHn(site, a.hn.Ok?)]);
    if a.hn.Err? then searched.(error := Some(LinksError(a.hn.error)))
    else
      var both := searched.(events := searched.events + [SearchedLobsters(site, a.lobsters.Ok?)]);
      if a.lobsters.Err? then both.(error := Some(LinksError(a.lobsters.error)))
      else Issue(both, faults, UpdateRelated(site, Combined(a.hn.value, a.lobsters.value)))
  }

  /** One pending site, from a state without error, given the answers. */
  function Dispatch(v: Variant, faults: set<nat>, st: State, site: string, a: Answers): State
  {
    var checked := st.(events := st.events + [LiveChecked(site, a.live)]);
    if !a.live then Issue(checked, faults, MarkBad(site))
    else
      var scanned := checked.(events := checked.events + [Scanned(site, a.scan)]);
      var marked := Issue(scanned, faults, LiveVerdict(site, a.scan));
      if Accepted(a.scan) && marked.error.None? && v == Full then Lookups(faults, marked, site, a)
      else marked
  }

  function SiteSteps(v: Variant, env: Env, cycle: nat, faults: set<nat>, st: State, site: string): State
  {
    Dispatch(v, faults, st, site, AnswersOf(env, cycle, site))
  }

  /** The sites of one cycle in queue order, stopping at the first error. */
  function SitesSteps(v: Variant, env: Env, cycle: nat, faults: set<nat>, st: State, sites: seq<string>): State
  {
    if sites == [] then st
    else
      var prev := SitesSteps(v, env, cycle, faults, st, sites[..|sites| - 1]);
      if prev.error.Some? then prev else SiteSteps(v, env, cycle, faults, prev, sites[|sites| - 1])
  }

  /** One cycle: the sleep (not before the first), then the queue. */
  function CycleSteps(v: Variant, env: Env, cycle: nat, faults: set<nat>, st: State): State
  {
    var rested := if cycle == 0 then st.events else st.events + [Slept(SleepSeconds(v))];
    QueueSteps(v, env, cycle, faults, st.(events := rested))
  }

  /** The queue read, then its sites; a failed read is only logged. */
  function QueueSteps(v: Variant, env: Env, cycle: nat, faults: set<nat>, st: State): State
  {
    if st.executed in faults then State(st.tables, st.executed + 1, st.events + [QueueFailed], st.error)
    else
      var sites := Database.PendingUrls(st.tables.siteIds, st.tables.queue);
      SitesSteps(v, env, cycle, faults, State(st.tables, st.executed + 1, st.events + [QueueFetched(sites)], st.error), sites)
  }

  /** The first `cycles` cycles, or fewer when an error ends the worker. */
  function Cycles(v: Variant, env: Env, faults: set<nat>, st: State, cycles: nat): State
  {
    if cycles == 0 then st
    else
      var prev := Cycles(v, env, faults, st, cycles - 1);
      if prev.error.Some? then prev else CycleSteps(v, env, cycles - 1, faults, prev)
  }

  // ----- the worker -----

  /** A repository write; a failure becomes the worker's error. */
  method IssueCall(repo: Database.Repository, c: Call, events: seq<Event>)
    returns (events': seq<Event>, error: Option<AnalyzerError>)
    modifies repo
    ensures State(repo.tables, repo.executed, events', error) ==
      Issue(State(old(repo.tables), old(repo.executed), events, None), repo.faults, c)
  {
    var r: Result<(), Database.DbError>;
    match c {
      case MarkBad(site) => r := repo.MarkBad(site);
      case MarkBadSize(site, size) => r := repo.MarkBadSize(site, size);
      case MarkGood(site, size) => r := repo.MarkGood(site, size);
      case UpdateRelated(site, links) => r := repo.UpdateRelated(site, links);
    }
    events' := events + [Wrote(c, r.Ok?)];
    error := if r.Ok? then None else Some(DatabaseError);
  }

  /** The link lookups of an accepted site and the write of at most five
      links from each source. */
  method StoreRelated(env: Env, cycle: nat, repo: Database.Repository, site: string, events: seq<Event>)
    returns (events': seq<Event>, error: Option<AnalyzerError>)
    modifies repo
    ensures State(repo.tables, repo.executed, events', error) ==
      Lookups(repo.faults, State(old(repo.tables), old(repo.executed), events, None), site, AnswersOf(env, cycle, site))
  {
    var hn, _ := RelatedLinks.Hackernews(site, env.hn(cycle, site), LinkStatusAt(env, cycle));
    events' := events + [SearchedHn(site, hn.Ok?)];
    if hn.Err? {
      return events', Some(LinksError(hn.error));
    }
    var links := hn.value;
    if |links| > LINKS_PER_SOURCE {
      links := links[..LINKS_PER_SOURCE];
    }
    var lob, _ := RelatedLinks.Lobsters(site, env.lobstersHost(site), env.lobsters(cycle, site), LinkStatusAt(env, cycle));
    events' := events' + [SearchedLobsters(site, lob.Ok?)];
    if lob.Err? {
      return events', Some(LinksError(lob.error));
    }
    var lobLinks := lob.value;
    if |lobLinks| > LINKS_PER_SOURCE {
      lobLinks := lobLinks[..LINKS_PER_SOURCE];
    }
    events', error := IssueCall(repo, UpdateRelated(site, links + lobLinks), events');
  }

  /** The body of `for site in sites`. */
  method ProcessSite(v: Variant, env: Env, cycle: nat, repo: Database.Repository, site: string, events: seq<Event>)
    returns (events': seq<Event>, error: Option<AnalyzerError>)
    modifies repo
    ensures State(repo.tables, repo.executed, events', error) ==
      SiteSteps(v, env, cycle, repo.faults, State(old(repo.tables), old(repo.executed), events, None), site)
  {
    var live := SiteLive(env.live(cycle, site));
    events' := events + [LiveChecked(site, live)];
    if !live {
      events', error := IssueCall(repo, MarkBad(site), events');
      return;
    }
    var scan, _ := Cloudflare.Urlscan(site, env.token, env.submit(cycle, site), env.polls(cycle, site));
    events' := events' + [Scanned(site, scan)];
    if scan.Err? {
      events', error := IssueCall(repo, MarkBad(site), events');
      return;
    }
    var u := scan.value;
    if !u.acceptable {
      events', error := IssueCall(repo, MarkBadSize(site, u.size), events');
      return;
    }
    events', error := IssueCall(repo, MarkGood(site, u.size), events');
    if error.Some? || v == ScanOnly {
      return;
    }
    events', error := StoreRelated(env, cycle, repo, site, events');
  }

  /** `for site in sites`, ending the worker at the first error. */
  method ProcessSites(v: Variant, env: Env, cycle: nat, repo: Database.Repository, sites: seq<string>, events: seq<Event>)
    returns (events': seq<Event>, error: Option<AnalyzerError>)
    modifies repo
    ensures State(repo.tables, repo.executed, events', error) ==
      SitesSteps(v, env, cycle, repo.faults, State(old(repo.tables), old(repo.executed), events, None), sites)
  {
    ghost var start := State(repo.tables, repo.executed, events, None);
    events' := events;
    error := None;
    for i := 0 to |sites|
      invariant State(repo.tables, repo.executed, events', error) == SitesSteps(v, env, cycle, repo.faults, start, sites[..i])
      invariant error.None?
    {
      assert sites[..i + 1][..i] == sites[..i];
      events', error := ProcessSite(v, env, cycle, repo, sites[i], events');
      if error.Some? {
        SitesStopAfterError(v, env, cycle, repo.faults, start, sites, i + 1);
        return;
      }
    }
    assert sites[..|sites|] == sites;
  }

  /** One more cycle after an error-free run; an error in it is the
      worker's final state. */
  lemma CycleAdvance(v: Variant, env: Env, faults: set<nat>, st: State, cycle: nat, cycles: nat,
                     before: State, after: State)
    requires cycle < cycles
    requires before == Cycles(v, env, faults, st, cycle) && before.error.None?
    requires after == CycleSteps(v, env, cycle, faults, before)
    ensures after == Cycles(v, env, faults, st, cycle + 1)
    ensures after.error.Some? ==> Cycles(v, env, faults, st, cycles) == after
  {
    if after.error.Some? {
      StopsAfterError(v, env, faults, st, cycle + 1, cycles);
    }
  }

  /** The worker for `cycles` turns of its endless loop. */
  method Analyze(v: Variant, env: Env, repo: Database.Repository, cycles: nat)
    returns (events: seq<Event>, error: Option<AnalyzerError>)
    modifies repo
    ensures State(repo.tables, repo.executed, events, error) ==
      Cycles(v, env, repo.faults, State(old(repo.tables), old(repo.executed), [], None), cycles)
  {
    ghost var start := State(repo.tables, repo.executed, [], None);
    events := [];
    error := None;
    var first := true;
    for cycle := 0 to cycles
      invariant first <==> cycle == 0
      invariant State(repo.tables, repo.executed, events, error) == Cycles(v, env, repo.faults, start, cycle)
      invariant error.None?
    {
      ghost var before := State(repo.tables, repo.executed, events, None);
      events, error := RunCycle(v, env, cycle, first, repo, events);
      first := false;
      CycleAdvance(v, env, repo.faults, start, cycle, cycles, before, State(repo.tables, repo.executed, events, error));
      if error.Some? {
        return;
      }
    }
  }

  /** One turn of the endless loop: the sleep (not on the first turn),
      then the queue. */
  method RunCycle(v: Variant, env: Env, cycle: nat, first: bool, repo: Database.Repository, events: seq<Event>)
    returns (events': seq<Event>, error: Option<AnalyzerError>)
    requires first <==> cycle == 0
    modifies repo
    ensures State(repo.tables, repo.executed, events', error) ==
      CycleSteps(v, env, cycle, repo.faults, State(old(repo.tables), old(repo.executed), events, None))
  {
    var rested := events;
    if !first {
      rested := events + [Slept(SleepSeconds(v))];
    }
    events', error := ValidateQueue(v, env, cycle, repo, rested);
  }

  /** The body of the endless loop after its sleep. */
  method ValidateQueue(v: Variant, env: Env, cycle: nat, repo: Database.Repository, events: seq<Event>)
    returns (events': seq<Event>, error: Option<AnalyzerError>)
    modifies repo
    ensures State(repo.tables, repo.executed, events', error) ==
      QueueSteps(v, env, cycle, repo.faults, State(old(repo.tables), old(repo.executed), events, None))
  {
    var queue := repo.GetValidationQueue();
    if queue.Err? {
      return events + [QueueFailed], None;
    }
    events', error := ProcessSites(v, env, cycle, repo, queue.value, events + [QueueFetched(queue.value)]);
  }

  lemma {:induction false} SitesStopAfterError(v: Variant, env: Env, cycle: nat, faults: set<nat>, st: State,
                                               sites: seq<string>, k: nat)
    requires k <= |sites|
    requires SitesSteps(v, env, cycle, faults, st, sites[..k]).error.Some?
    ensures SitesSteps(v, env, cycle, faults, st, sites) == SitesSteps(v, env, cycle, faults, st, sites[..k])
    decreases |sites|
  {
    if k == |sites| {
      assert sites[..k] == sites;
    } else {
      var init := sites[..|sites| - 1];
      assert init[..k] == sites[..k];
      SitesStopAfterError(v, env, cycle, faults, st, init, k);
    }
  }

  /** Once an error has ended the worker, further cycles change nothing. */
  lemma {:induction false} StopsAfterError(v: Variant, env: Env, faults: set<nat>, st: State, k: nat, m: nat)
    requires k <= m
    requires Cycles(v, env, faults, st, k).error.Some?
    ensures Cycles(v, env, faults, st, m) == Cycles(v, env, faults, st, k)
    decreases m
  {
    if m > k {
      StopsAfterError(v, env, faults, st, k, m - 1);
    }
  }


  // ----- the worker's trace -----

  predicate IsQueueRead(e: Event)
  {
    e.QueueFailed? || e.QueueFetched?
  }

  /** An event of the per-site work. */
  predicate IsSiteEvent(e: Event)
  {
    !e.Slept? && !IsQueueRead(e)
  }

  /** A repository write or a link search that failed. */
  predicate Failed(e: Event)
  {
    match e
    case Wrote(_, ok) => !ok
    case SearchedHn(_, ok) => !ok
    case SearchedLobsters(_, ok) => !ok
    case _ => false
  }

  predicate WritesRelated(e: Event)
  {
    e.Wrote? && e.call.UpdateRelated?
  }

  predicate SiteEventsOnly(x: seq<Event>)
  {
    forall i :: 0 <= i < |x| ==> IsSiteEvent(x[i])
  }

  predicate NoFailures(x: seq<Event>)
  {
    forall i :: 0 <= i < |x| ==> !Failed(x[i])
  }

  predicate NoRelatedWrites(x: seq<Event>)
  {
    forall i :: 0 <= i < |x| ==> !WritesRelated(x[i])
  }

  /** The trace holds a failure exactly when the worker stopped with an
      error, and then the failure is its last event. */
  predicate EndsAsReported(x: seq<Event>, error: Option<AnalyzerError>)
  {
    if error.None? then NoFailures(x)
    else x != [] && Failed(x[|x| - 1]) && NoFailures(x[..|x| - 1])
  }

  /** The events per-site work appends to a trace. */
  predicate SiteTail(v: Variant, x: seq<Event>, error: Option<AnalyzerError>)
  {
    SiteEventsOnly(x) && EndsAsReported(x, error) && (v == ScanOnly ==> NoRelatedWrites(x))
  }

  /** `r` continues the trace `base` with per-site events. */
  predicate Extends(v: Variant, base: seq<Event>, r: State)
  {
    |base| <= |r.events| && r.events[..|base|] == base && SiteTail(v, r.events[|base|..], r.error)
  }

  lemma SiteTailAppend(v: Variant, x: seq<Event>, y: seq<Event>, error: Option<AnalyzerError>)
    requires SiteTail(v, x, None) && SiteTail(v, y, error)
    ensures SiteTail(v, x + y, error)
  {
    var w := x + y;
    assert forall i :: 0 <= i < |w| ==> w[i] == if i < |x| then x[i] else y[i - |x|];
    if error.Some? {
      assert w[..|w| - 1] == x + y[..|y| - 1];
    }
  }

  lemma ExtendsTrans(v: Variant, base: seq<Event>, mid: State, r: State)
    requires Extends(v, base, mid) && mid.error.None? && Extends(v, mid.events, r)
    ensures Extends(v, base, r)
  {
    var x := mid.events[|base|..];
    var y := r.events[|mid.events|..];
    assert r.events == base + x + y;
    assert r.events[|base|..] == x + y;
    SiteTailAppend(v, x, y, r.error);
  }

  lemma ExtendsByEvents(v: Variant, st: State, added: seq<Event>)
    requires st.error.None? && SiteTail(v, added, None)
    ensures Extends(v, st.events, st.(events := st.events + added))
  {
    assert (st.events + added)[|st.events|..] == added;
  }

  lemma IssueExtends(v: Variant, st: State, faults: set<nat>, c: Call)
    requires st.error.None?
    requires v == ScanOnly ==> !c.UpdateRelated?
    ensures Extends(v, st.events, Issue(st, faults, c))
  {
    var r := Issue(st, faults, c);
    assert r.events[|st.events|..] == [Wrote(c, r.error.None?)];
  }

  lemma LookupsExtend(faults: set<nat>, st: State, site: string, a: Answers)
    requires st.error.None?
    ensures Extends(Full, st.events, Lookups(faults, st, site, a))
  {
    var r := Lookups(faults, st, site, a);
    var searched := st.(events := st.events + [SearchedHn(site, a.hn.Ok?)]);
    assert searched.events[|st.events|..] == [SearchedHn(site, a.hn.Ok?)];
    if a.hn.Ok? {
      var both := searched.(events := searched.events + [SearchedLobsters(site, a.lobsters.Ok?)]);
      assert both.events[|searched.events|..] == [SearchedLobsters(site, a.lobsters.Ok?)];
      if a.lobsters.Ok? {
        IssueExtends(Full, both, faults, UpdateRelated(site, Combined(a.hn.value, a.lobsters.value)));
        ExtendsTrans(Full, searched.events, both, r);
      } else {
        assert r.events[|searched.events|..] == [SearchedLobsters(site, false)];
      }
      ExtendsTrans(Full, st.events, searched, r);
    } else {
      assert r.events[|st.events|..] == [SearchedHn(site, false)];
    }
  }

  lemma DispatchExtends(v: Variant, faults: set<nat>, st: State, site: string, a: Answers)
    requires st.error.None?
    ensures Extends(v, st.events, Dispatch(v, faults, st, site, a))
  {
    var r := Dispatch(v, faults, st, site, a);
    var checked := st.(events := st.events + [LiveChecked(site, a.live)]);
    ExtendsByEvents(v, st, [LiveChecked(site, a.live)]);
    if !a.live {
      IssueExtends(v, checked, faults, MarkBad(site));
      ExtendsTrans(v, st.events, checked, r);
    } else {
      var scanned := checked.(events := checked.events + [Scanned(site, a.scan)]);
      ExtendsByEvents(v, st, [LiveChecked(site, a.live), Scanned(site, a.scan)]);
      assert st.events + [LiveChecked(site, a.live), Scanned(site, a.scan)] == scanned.events;
      var marked := Issue(scanned, faults, LiveVerdict(site, a.scan));
      IssueExtends(v, scanned, faults, LiveVerdict(site, a.scan));
      if Accepted(a.scan) && marked.error.None? && v == Full {
        LookupsExtend(faults, marked, site, a);
        ExtendsTrans(v, scanned.events, marked, r);
      }
      ExtendsTrans(v, st.events, scanned, r);
    }
  }

  lemma {:induction false} SitesStepsExtend(v: Variant, env: Env, cycle: nat, faults: set<nat>, st: State,
                                            sites: seq<string>)
    requires st.error.None?
    ensures Extends(v, st.events, SitesSteps(v, env, cycle, faults, st, sites))
    decreases |sites|
  {
    if sites == [] {
      assert st.events[|st.events|..] == [];
    } else {
      var prev := SitesSteps(v, env, cycle, faults, st, sites[..|sites| - 1]);
      SitesStepsExtend(v, env, cycle, faults, st, sites[..|sites| - 1]);
      if prev.error.None? {
        DispatchExtends(v, faults, prev, sites[|sites| - 1], AnswersOf(env, cycle, sites[|sites| - 1]));
        ExtendsTrans(v, st.events, prev, SitesSteps(v, env, cycle, faults, st, sites));
      }
    }
  }

  /** The sleeps of the outer loop: the trace opens with a queue read, every
      later queue read directly follows a sleep of the variant's length, and
      every sleep directly precedes a queue read. */
  predicate Spaced(v: Variant, ev: seq<Event>)
  {
    && (|ev| > 0 ==> IsQueueRead(ev[0]))
    && (forall i :: 0 < i < |ev| && IsQueueRead(ev[i]) ==> ev[i - 1] == Slept(SleepSeconds(v)))
    && (forall i :: 0 <= i < |ev| && ev[i].Slept? ==> i + 1 < |ev| && IsQueueRead(ev[i + 1]))
  }

  /** The number of cycles begun: one queue read per cycle. */
  function QueueReads(ev: seq<Event>): nat
  {
    if ev == [] then 0
    else QueueReads(ev[..|ev| - 1]) + (if IsQueueRead(ev[|ev| - 1]) then 1 else 0)
  }

  lemma {:induction false} QueueReadsAppend(a: seq<Event>, b: seq<Event>)
    ensures QueueReads(a + b) == QueueReads(a) + QueueReads(b)
    decreases |b|
  {
    if b == [] {
      assert a + b == a;
    } else {
      assert (a + b)[..|a + b| - 1] == a + b[..|b| - 1];
      QueueReadsAppend(a, b[..|b| - 1]);
    }
  }

  lemma {:induction false} SiteEventsNoReads(x: seq<Event>)
    requires SiteEventsOnly(x)
    ensures QueueReads(x) == 0
    decreases |x|
  {
    if x != [] {
      SiteEventsNoReads(x[..|x| - 1]);
    }
  }

  /** What is known of the trace after the first `k` cycles. */
  predicate RunShape(v: Variant, k: nat, r: State)
  {
    && Spaced(v, r.events)
    && EndsAsReported(r.events, r.error)
    && (v == ScanOnly ==> NoRelatedWrites(r.events))
    && QueueReads(r.events) <= k
    && (r.error.None? ==> QueueReads(r.events) == k)
    && (k == 0 <==> r.events == [])
  }

  /** The events one cycle opens with: its sleep (not on the first cycle)
      and its queue read. */
  predicate CycleHead(v: Variant, ev: seq<Event>, head: seq<Event>, read: Event)
  {
    head == (if ev == [] then [] else [Slept(SleepSeconds(v))]) && IsQueueRead(read)
  }

  lemma CycleSpaced(v: Variant, ev: seq<Event>, head: seq<Event>, read: Event, x: seq<Event>)
    requires Spaced(v, ev) && CycleHead(v, ev, head, read) && SiteEventsOnly(x)
    ensures Spaced(v, ev + head + [read] + x)
  {
    HeadSpaced(v, ev, head, read);
    SpacedSiteEvents(v, ev + head + [read], x);
  }

  lemma HeadSpaced(v: Variant, ev: seq<Event>, head: seq<Event>, read: Event)
    requires Spaced(v, ev) && CycleHead(v, ev, head, read)
    ensures Spaced(v, ev + head + [read])
  {
    var pre := ev + head + [read];
    if ev == [] {
      assert pre == [read];
    } else {
      var sleep := Slept(SleepSeconds(v));
      assert pre == ev + [sleep, read];
      forall i | 0 < i < |pre| && IsQueueRead(pre[i]) ensures pre[i - 1] == sleep {
        if i < |ev| {
          assert pre[i] == ev[i] && pre[i - 1] == ev[i - 1];
        }
      }
      forall i | 0 <= i < |pre| && pre[i].Slept? ensures i + 1 < |pre| && IsQueueRead(pre[i + 1]) {
        if i < |ev| {
          assert pre[i] == ev[i];
          assert i + 1 < |ev| && pre[i + 1] == ev[i + 1];
        }
      }
    }
  }

  /** Site events after a queue read keep the sleeps spaced. */
  lemma SpacedSiteEvents(v: Variant, pre: seq<Event>, x: seq<Event>)
    requires Spaced(v, pre) && |pre| > 0 && IsQueueRead(pre[|pre| - 1]) && SiteEventsOnly(x)
    ensures Spaced(v, pre + x)
  {
    var w := pre + x;
    forall i | 0 < i < |w| && IsQueueRead(w[i]) ensures w[i - 1] == Slept(SleepSeconds(v)) {
      if i < |pre| {
        assert w[i] == pre[i] && w[i - 1] == pre[i - 1];
      }
    }
    forall i | 0 <= i < |w| && w[i].Slept? ensures i + 1 < |w| && IsQueueRead(w[i + 1]) {
      if i < |pre| {
        assert w[i] == pre[i];
        assert w[i + 1] == pre[i + 1];
      }
    }
  }

  lemma CycleFailures(v: Variant, ev: seq<Event>, head: seq<Event>, read: Event, x: seq<Event>,
                      error: Option<AnalyzerError>)
    requires NoFailures(ev) && CycleHead(v, ev, head, read) && EndsAsReported(x, error)
    requires v == ScanOnly ==> NoRelatedWrites(ev) && NoRelatedWrites(x)
    ensures EndsAsReported(ev + head + [read] + x, error)
    ensures v == ScanOnly ==> NoRelatedWrites(ev + head + [read] + x)
  {
    var pre := ev + head + [read];
    var w := pre + x;
    var opening := head + [read];
    assert pre == ev + opening;
    assert NoFailures(opening) && NoRelatedWrites(opening);
    CleanAppend(ev, opening);
    if error.Some? {
      var init := x[..|x| - 1];
      assert w[..|w| - 1] == pre + init;
      CleanAppend(pre, init);
    }
    CleanAppend(pre, x);
  }

  /** A trace without failures, or without related writes, extended by
      another is still one. */
  lemma CleanAppend(a: seq<Event>, b: seq<Event>)
    ensures NoFailures(a + b) <==> NoFailures(a) && NoFailures(b)
    ensures NoRelatedWrites(a + b) <==> NoRelatedWrites(a) && NoRelatedWrites(b)
  {
    var w := a + b;
    assert forall i :: 0 <= i < |a| ==> w[i] == a[i];
    assert forall i :: 0 <= i < |b| ==> w[|a| + i] == b[i];
    if NoFailures(a) && NoFailures(b) {
      forall i | 0 <= i < |w| ensures !Failed(w[i]) {
        if i >= |a| {
          assert w[i] == b[i - |a|];
        }
      }
    }
    if NoRelatedWrites(a) && NoRelatedWrites(b) {
      forall i | 0 <= i < |w| ensures !WritesRelated(w[i]) {
        if i >= |a| {
          assert w[i] == b[i - |a|];
        }
      }
    }
  }

  lemma CycleReads(v: Variant, ev: seq<Event>, head: seq<Event>, read: Event, x: seq<Event>)
    requires CycleHead(v, ev, head, read) && SiteEventsOnly(x)
    ensures QueueReads(ev + head + [read] + x) == QueueReads(ev) + 1
  {
    QueueReadsAppend(ev + head + [read], x);
    QueueReadsAppend(ev + head, [read]);
    QueueReadsAppend(ev, head);
    SiteEventsNoReads(x);
    assert QueueReads([read]) == 1 by {
      assert [read][..0] == [];
    }
    if head != [] {
      assert QueueReads(head) == 0 by {
        assert head[..0] == [];
      }
    }
  }

  lemma CycleShape(v: Variant, k: nat, prev: State, head: seq<Event>, read: Event, r: State)
    requires RunShape(v, k, prev) && prev.error.None?
    requires CycleHead(v, prev.events, head, read)
    requires Extends(v, prev.events + head + [read], r)
    ensures RunShape(v, k + 1, r)
  {
    var x := r.events[|prev.events + head + [read]|..];
    assert r.events == prev.events + head + [read] + x;
    CycleSpaced(v, prev.events, head, read, x);
    CycleFailures(v, prev.events, head, read, x, r.error);
    CycleReads(v, prev.events, head, read, x);
  }

  lemma CycleStepsShape(v: Variant, env: Env, c: nat, faults: set<nat>, prev: State)
    requires RunShape(v, c, prev) && prev.error.None?
    ensures RunShape(v, c + 1, CycleSteps(v, env, c, faults, prev))
  {
    if prev.executed in faults {
      QueueFailedShape(v, env, c, faults, prev);
    } else {
      QueueFetchedShape(v, env, c, faults, prev);
    }
  }

  /** `CycleStepsShape` when the queue read fails. */
  lemma QueueFailedShape(v: Variant, env: Env, c: nat, faults: set<nat>, prev: State)
    requires RunShape(v, c, prev) && prev.error.None? && prev.executed in faults
    ensures RunShape(v, c + 1, CycleSteps(v, env, c, faults, prev))
  {
    var head := if c == 0 then [] else [Slept(SleepSeconds(v))];
    var r := CycleSteps(v, env, c, faults, prev);
    assert r.events == prev.events + head + [QueueFailed];
    assert r.events[|prev.events + head + [QueueFailed]|..] == [];
    CycleShape(v, c, prev, head, QueueFailed, r);
  }

  /** `CycleStepsShape` when the queue read succeeds. */
  lemma QueueFetchedShape(v: Variant, env: Env, c: nat, faults: set<nat>, prev: State)
    requires RunShape(v, c, prev) && prev.error.None? && prev.executed !in faults
    ensures RunShape(v, c + 1, CycleSteps(v, env, c, faults, prev))
  {
    var head := if c == 0 then [] else [Slept(SleepSeconds(v))];
    var r := CycleSteps(v, env, c, faults, prev);
    var sites := Database.PendingUrls(prev.tables.siteIds, prev.tables.queue);
    var fetched := State(prev.tables, prev.executed + 1, prev.events + head + [QueueFetched(sites)], None);
    assert r == SitesSteps(v, env, c, faults, fetched, sites);
    SitesStepsExtend(v, env, c, faults, fetched, sites);
    CycleShape(v, c, prev, head, QueueFetched(sites), r);
  }

  /** The outer loop: the first cycle does not sleep and every later one
      sleeps the variant's interval first, including after a failed queue
      read; an error-free run of `k` cycles read the queue `k` times; a
      failed write or search is always the last event, and the worker ends
      with an error exactly when one happened; the scan-only variant never
      writes related links. */
  lemma {:induction false} CyclesTrace(v: Variant, env: Env, faults: set<nat>, t: Database.Tables, n: nat, k: nat)
    ensures RunShape(v, k, Cycles(v, env, faults, State(t, n, [], None), k))
  {
    if k > 0 {
      var prev := Cycles(v, env, faults, State(t, n, [], None), k - 1);
      CyclesTrace(v, env, faults, t, n, k - 1);
      if prev.error.None? {
        CycleStepsShape(v, env, k - 1, faults, prev);
      }
    }
  }

  // ----- one site -----

  /** The steps of one site from a fresh trace, given the answers. */
  function SiteRun(v: Variant, faults: set<nat>, t: Database.Tables, n: nat, site: string, a: Answers): State
  {
    Dispatch(v, faults, State(t, n, [], None), site, a)
  }

  /** The verdict writes (every write but `update_related`) in a trace. */
  function Verdicts(ev: seq<Event>): seq<Call>
  {
    if ev == [] then []
    else
      var e := ev[|ev| - 1];
      Verdicts(ev[..|ev| - 1]) + (if e.Wrote? && !e.call.UpdateRelated? then [e.call] else [])
  }

  lemma {:induction false} VerdictsAppend(a: seq<Event>, b: seq<Event>)
    ensures Verdicts(a + b) == Verdicts(a) + Verdicts(b)
    decreases |b|
  {
    if b == [] {
      assert a + b == a;
    } else {
      assert (a + b)[..|a + b| - 1] == a + b[..|b| - 1];
      VerdictsAppend(a, b[..|b| - 1]);
    }
  }

  lemma VerdictsOne(e: Event)
    ensures Verdicts([e]) == if e.Wrote? && !e.call.UpdateRelated? then [e.call] else []
  {
    assert [e][..0] == [];
  }

  predicate LookupEvents(rest: seq<Event>)
  {
    |rest| <= 3 &&
    forall i :: 0 <= i < |rest| ==> rest[i].SearchedHn? || rest[i].SearchedLobsters? || WritesRelated(rest[i])
  }

  lemma LookupsNoVerdicts(rest: seq<Event>)
    requires LookupEvents(rest)
    ensures Verdicts(rest) == []
  {
    if rest != [] {
      var init := rest[..|rest| - 1];
      if init != [] {
        var init2 := init[..|init| - 1];
        if init2 != [] {
          assert init2[..|init2| - 1] == [];
        }
      }
    }
  }

  lemma LookupsEvents(faults: set<nat>, st: State, site: string, a: Answers)
    ensures |Lookups(faults, st, site, a).events| >= |st.events|
    ensures Lookups(faults, st, site, a).events[..|st.events|] == st.events
    ensures LookupEvents(Lookups(faults, st, site, a).events[|st.events|..])
  {
  }

  /** `site_live`: every site's work opens with the liveness check, which
      answers "live" exactly on status 200. */
  lemma LivenessFirst(v: Variant, env: Env, cycle: nat, faults: set<nat>, st: State, site: string)
    ensures |SiteSteps(v, env, cycle, faults, st, site).events| > |st.events|
    ensures SiteSteps(v, env, cycle, faults, st, site).events[|st.events|] ==
      LiveChecked(site, env.live(cycle, site) == Some(200))
  {
  }

  /** A dead site gets `mark_bad` and nothing else: no scan, no lookup. */
  lemma DeadSite(v: Variant, faults: set<nat>, t: Database.Tables, n: nat, site: string, a: Answers)
    requires !a.live
    ensures |SiteRun(v, faults, t, n, site, a).events| == 2
    ensures Verdicts(SiteRun(v, faults, t, n, site, a).events) == [MarkBad(site)]
  {
    var ev := SiteRun(v, faults, t, n, site, a).events;
    assert ev == [ev[0]] + [ev[1]];
    VerdictsAppend([ev[0]], [ev[1]]);
    VerdictsOne(ev[0]);
    VerdictsOne(ev[1]);
  }

  /** The events of a live site: the check, the scan, one verdict write,
      then possibly the lookups. */
  lemma LiveSiteEvents(v: Variant, faults: set<nat>, t: Database.Tables, n: nat, site: string, a: Answers)
    requires a.live
    ensures |SiteRun(v, faults, t, n, site, a).events| >= 3
    ensures SiteRun(v, faults, t, n, site, a).events[..2] == [LiveChecked(site, true), Scanned(site, a.scan)]
    ensures SiteRun(v, faults, t, n, site, a).events[2].Wrote?
    ensures SiteRun(v, faults, t, n, site, a).events[2].call == LiveVerdict(site, a.scan)
    ensures LookupEvents(SiteRun(v, faults, t, n, site, a).events[3..])
    ensures !Accepted(a.scan) ==> |SiteRun(v, faults, t, n, site, a).events| == 3
  {
    var scanned := State(t, n, [LiveChecked(site, true), Scanned(site, a.scan)], None);
    var marked := Issue(scanned, faults, LiveVerdict(site, a.scan));
    var r := SiteRun(v, faults, t, n, site, a);
    if Accepted(a.scan) && marked.error.None? && v == Full {
      LookupsEvents(faults, marked, site, a);
    } else {
      assert r.events[3..] == [];
    }
  }

  /** A live site gets exactly one verdict, chosen by its scan: `mark_bad`
      for a failed scan, `mark_bad_size` with the measured size for a scan
      over the limit, `mark_good` with the size for an acceptable one. */
  lemma LiveSiteVerdict(v: Variant, faults: set<nat>, t: Database.Tables, n: nat, site: string, a: Answers)
    requires a.live
    ensures Verdicts(SiteRun(v, faults, t, n, site, a).events) == [LiveVerdict(site, a.scan)]
    ensures a.scan.Err? ==> LiveVerdict(site, a.scan) == MarkBad(site)
    ensures a.scan.Ok? && !a.scan.value.acceptable ==> LiveVerdict(site, a.scan) == MarkBadSize(site, a.scan.value.size)
    ensures a.scan.Ok? && a.scan.value.acceptable ==> LiveVerdict(site, a.scan) == MarkGood(site, a.scan.value.size)
    ensures !Accepted(a.scan) ==> |SiteRun(v, faults, t, n, site, a).events| == 3
  {
    LiveSiteEvents(v, faults, t, n, site, a);
    OneVerdict(SiteRun(v, faults, t, n, site, a).events, LiveVerdict(site, a.scan));
  }

  /** A trace of two events that are not writes, one verdict write, then
      lookups holds exactly that verdict. */
  lemma OneVerdict(ev: seq<Event>, c: Call)
    requires |ev| >= 3 && !ev[0].Wrote? && !ev[1].Wrote?
    requires ev[2].Wrote? && ev[2].call == c && !c.UpdateRelated?
    requires LookupEvents(ev[3..])
    ensures Verdicts(ev) == [c]
  {
    var head, rest := ev[..3], ev[3..];
    assert ev == head + rest;
    assert head == [ev[0], ev[1], ev[2]];
    VerdictsThree(ev[0], ev[1], ev[2]);
    VerdictsAppend(head, rest);
    LookupsNoVerdicts(rest);
  }

  lemma VerdictsThree(a: Event, b: Event, w: Event)
    requires !a.Wrote? && !b.Wrote? && w.Wrote? && !w.call.UpdateRelated?
    ensures Verdicts([a, b, w]) == [w.call]
  {
    assert Verdicts([a]) == [] by {
      assert [a][..0] == [];
    }
    assert Verdicts([a, b]) == [] by {
      assert [a, b][..1] == [a];
    }
    assert [a, b, w][..2] == [a, b];
  }

  /** Related links are written only for a site `mark_good` accepted, as
      the last step of its work, in the full variant only, and the list is
      the combined Hacker News and Lobsters links. */
  lemma RelatedAfterGood(v: Variant, faults: set<nat>, t: Database.Tables, n: nat, site: string, a: Answers)
    ensures var ev := SiteRun(v, faults, t, n, site, a).events;
      && |ev| >= 2
      && (forall i :: 0 <= i < |ev| - 1 ==> !WritesRelated(ev[i]))
      && (WritesRelated(ev[|ev| - 1]) <==>
            && v == Full && a.live && Accepted(a.scan)
            && |ev| > 2 && ev[2] == Wrote(MarkGood(site, a.scan.value.size), true)
            && a.hn.Ok? && a.lobsters.Ok?)
      && (WritesRelated(ev[|ev| - 1]) ==>
            && a.hn.Ok? && a.lobsters.Ok?
            && ev[|ev| - 1].call == UpdateRelated(site, Combined(a.hn.value, a.lobsters.value)))
  {
    if Issue(Observed(State(t, n, [], None), site, a), faults, VerdictOf(site, a)).error.None? &&
       a.live && Accepted(a.scan) && v == Full {
      RelatedAfterLookups(v, faults, t, n, site, a);
    } else {
      RelatedWithoutLookups(v, faults, t, n, site, a);
    }
  }

  /** `RelatedAfterGood` for a site whose `mark_good` succeeded. */
  lemma RelatedAfterLookups(v: Variant, faults: set<nat>, t: Database.Tables, n: nat, site: string, a: Answers)
    requires Issue(Observed(State(t, n, [], None), site, a), faults, VerdictOf(site, a)).error.None?
    requires a.live && Accepted(a.scan) && v == Full
    ensures var ev := SiteRun(v, faults, t, n, site, a).events;
      && |ev| >= 2
      && (forall i :: 0 <= i < |ev| - 1 ==> !WritesRelated(ev[i]))
      && (WritesRelated(ev[|ev| - 1]) <==>
            |ev| > 2 && ev[2] == Wrote(MarkGood(site, a.scan.value.size), true) && a.hn.Ok? && a.lobsters.Ok?)
      && (WritesRelated(ev[|ev| - 1]) ==>
            ev[|ev| - 1].call == UpdateRelated(site, Combined(a.hn.value, a.lobsters.value)))
  {
    var st0 := State(t, n, [], None);
    DispatchShape(v, faults, st0, site, a);
    var marked := Issue(Observed(st0, site, a), faults, VerdictOf(site, a));
    var ev := SiteRun(v, faults, t, n, site, a).events;
    assert marked.events == [LiveChecked(site, true), Scanned(site, a.scan), Wrote(MarkGood(site, a.scan.value.size), true)];
    LookupsRelated(faults, marked, site, a);
    assert ev[2] == ev[..3][2];
    forall i | 0 <= i < |ev| - 1 ensures !WritesRelated(ev[i]) {
      assert ev[..|ev| - 1][i] == ev[i];
    }
  }

  /** `RelatedAfterGood` for every other site: no related links at all. */
  lemma RelatedWithoutLookups(v: Variant, faults: set<nat>, t: Database.Tables, n: nat, site: string, a: Answers)
    requires !(Issue(Observed(State(t, n, [], None), site, a), faults, VerdictOf(site, a)).error.None? &&
               a.live && Accepted(a.scan) && v == Full)
    ensures var ev := SiteRun(v, faults, t, n, site, a).events;
      && |ev| >= 2
      && NoRelatedWrites(ev)
      && !(v == Full && a.live && Accepted(a.scan) && |ev| > 2 && ev[2] == Wrote(MarkGood(site, a.scan.value.size), true))
  {
    var st0 := State(t, n, [], None);
    DispatchShape(v, faults, st0, site, a);
    IssueEvents(Observed(st0, site, a), faults, VerdictOf(site, a));
  }

  /** A write appends its one event, whose flag is whether it succeeded. */
  lemma IssueEvents(st: State, faults: set<nat>, c: Call)
    ensures Issue(st, faults, c).events == st.events + [Wrote(c, Issue(st, faults, c).error.None?)]
  {
  }

  /** The lookups write related links only as their last event, and do so
      exactly when both searches answered. */
  lemma LookupsRelated(faults: set<nat>, st: State, site: string, a: Answers)
    requires NoRelatedWrites(st.events)
    ensures var ev := Lookups(faults, st, site, a).events;
      && |ev| > |st.events|
      && ev[..|st.events|] == st.events
      && NoRelatedWrites(ev[..|ev| - 1])
      && (WritesRelated(ev[|ev| - 1]) <==> a.hn.Ok? && a.lobsters.Ok?)
      && (WritesRelated(ev[|ev| - 1]) ==> ev[|ev| - 1].call == UpdateRelated(site, Combined(a.hn.value, a.lobsters.value)))
  {
    var hn := st.events + [SearchedHn(site, a.hn.Ok?)];
    if a.hn.Ok? {
      var both := hn + [SearchedLobsters(site, a.lobsters.Ok?)];
      if a.lobsters.Ok? {
        assert Lookups(faults, st, site, a).events[..|both|] == both;
      } else {
        assert Lookups(faults, st, site, a).events[..|hn|] == hn;
      }
    } else {
      assert Lookups(faults, st, site, a).events[..|st.events|] == st.events;
    }
  }

  // ----- the repository after a site -----

  function Pending(t: Database.Tables): seq<string>
  {
    Database.PendingUrls(t.siteIds, t.queue)
  }

  /** `site` has left the validation queue and no other site's place in it
      changed. */
  ghost predicate LeftQueue(t: Database.Tables, t': Database.Tables, site: string)
  {
    site !in Pending(t') && forall u :: u != site ==> (u in Pending(t') <==> u in Pending(t))
  }

  lemma VerdictLeavesQueue(st: State, faults: set<nat>, site: string, c: Call)
    requires Database.Valid(st.tables)
    requires !c.UpdateRelated? && c.site == site
    ensures Database.Valid(Issue(st, faults, c).tables)
    ensures Issue(st, faults, c).error.None? ==> LeftQueue(st.tables, Issue(st, faults, c).tables, site)
    ensures Issue(st, faults, c).error.None? && c.MarkGood? ==> Database.Active(Issue(st, faults, c).tables, site)
  {
    Database.RunKeepsValid(st.tables, st.executed, faults, Script(c));
    match c
    case MarkBad(_) => Database.MarkBadEffect(st.tables, st.executed, faults, site);
    case MarkBadSize(_, size) => Database.MarkBadSizeEffect(st.tables, st.executed, faults, site, size);
    case MarkGood(_, size) => Database.MarkGoodEffect(st.tables, st.executed, faults, site, size);
  }

  lemma LookupsKeepQueue(faults: set<nat>, st: State, site: string, a: Answers)
    requires Database.Valid(st.tables)
    ensures Database.Valid(Lookups(faults, st, site, a).tables)
    ensures Lookups(faults, st, site, a).error.None? ==>
      Pending(Lookups(faults, st, site, a).tables) == Pending(st.tables) &&
      (Database.Active(Lookups(faults, st, site, a).tables, site) <==> Database.Active(st.tables, site))
  {
    if a.hn.Ok? && a.lobsters.Ok? {
      var links := Combined(a.hn.value, a.lobsters.value);
      Database.RunKeepsValid(st.tables, st.executed, faults, Script(UpdateRelated(site, links)));
      Database.UpdateRelatedEffect(st.tables, st.executed, faults, site, links);
    }
  }

  /** A site handled without error has left the validation queue with its
      verdict stored, nothing else in the queue moved, and an accepted site
      is now active. The repository stays consistent either way. */
  lemma SiteEffect(v: Variant, faults: set<nat>, st: State, site: string, a: Answers)
    requires Database.Valid(st.tables) && st.error.None?
    ensures Database.Valid(Dispatch(v, faults, st, site, a).tables)
    ensures Dispatch(v, faults, st, site, a).error.None? ==>
      LeftQueue(st.tables, Dispatch(v, faults, st, site, a).tables, site)
    ensures Dispatch(v, faults, st, site, a).error.None? && a.live && Accepted(a.scan) ==>
      Database.Active(Dispatch(v, faults, st, site, a).tables, site)
  {
    var before := Observed(st, site, a);
    var marked := Issue(before, faults, VerdictOf(site, a));
    DispatchShape(v, faults, st, site, a);
    VerdictLeavesQueue(before, faults, site, VerdictOf(site, a));
    if a.live && Accepted(a.scan) && marked.error.None? && v == Full {
      LookupsKeepQueue(faults, marked, site, a);
    }
  }

  /** The state after the liveness check (and the scan, for a live site). */
  function Observed(st: State, site: string, a: Answers): State
  {
    var ev := if a.live then [LiveChecked(site, true), Scanned(site, a.scan)] else [LiveChecked(site, false)];
    st.(events := st.events + ev)
  }

  /** The verdict written for a site: `mark_bad` when it is down. */
  function VerdictOf(site: string, a: Answers): Call
  {
    if a.live then LiveVerdict(site, a.scan) else MarkBad(site)
  }

  /** `Dispatch` is one verdict write after the observations, followed by
      the lookups exactly for an accepted site in the full variant. */
  lemma DispatchShape(v: Variant, faults: set<nat>, st: State, site: string, a: Answers)
    ensures var marked := Issue(Observed(st, site, a), faults, VerdictOf(site, a));
      Dispatch(v, faults, st, site, a) ==
        if a.live && Accepted(a.scan) && marked.error.None? && v == Full then Lookups(faults, marked, site, a)
        else marked
  {
    if a.live {
      assert Observed(st, site, a).events == st.events + [LiveChecked(site, true)] + [Scanned(site, a.scan)];
    }
  }

  /** Every one of `sites` is out of the validation queue. */
  ghost predicate AllLeft(sites: seq<string>, t: Database.Tables)
  {
    forall s :: s in sites ==> s !in Pending(t)
  }

  lemma {:induction false} SitesEffect(v: Variant, env: Env, cycle: nat, faults: set<nat>, st: State, sites: seq<string>)
    requires Database.Valid(st.tables) && st.error.None?
    ensures Database.Valid(SitesSteps(v, env, cycle, faults, st, sites).tables)
    ensures SitesSteps(v, env, cycle, faults, st, sites).error.None? ==>
      AllLeft(sites, SitesSteps(v, env, cycle, faults, st, sites).tables)
    decreases |sites|
  {
    if sites != [] {
      var init := sites[..|sites| - 1];
      var last := sites[|sites| - 1];
      var prev := SitesSteps(v, env, cycle, faults, st, init);
      SitesEffect(v, env, cycle, faults, st, init);
      if prev.error.None? {
        var r := SiteSteps(v, env, cycle, faults, prev, last);
        SiteEffect(v, faults, prev, last, AnswersOf(env, cycle, last));
        if r.error.None? {
          forall s | s in sites
            ensures s !in Pending(r.tables)
          {
            if s != last {
              assert s in init;
            }
          }
        }
      }
    }
  }

  /** A cycle that read the queue and finished without error has taken
      every site it read out of the queue. */
  lemma CycleClearsQueue(v: Variant, env: Env, cycle: nat, faults: set<nat>, st: State)
    requires Database.Valid(st.tables) && st.error.None? && st.executed !in faults
    ensures Database.Valid(CycleSteps(v, env, cycle, faults, st).tables)
    ensures CycleSteps(v, env, cycle, faults, st).error.None? ==>
      AllLeft(Pending(st.tables), CycleSteps(v, env, cycle, faults, st).tables)
  {
    var rested := if cycle == 0 then st.events else st.events + [Slept(SleepSeconds(v))];
    var sites := Pending(st.tables);
    var fetched := State(st.tables, st.executed + 1, rested + [QueueFetched(sites)], st.error);
    assert CycleSteps(v, env, cycle, faults, st) == SitesSteps(v, env, cycle, faults, fetched, sites);
    SitesEffect(v, env, cycle, faults, fetched, sites);
  }
}
