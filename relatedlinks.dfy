/** The two discussion sources of src/relatedlinks.rs. Each takes the
    search reply as input (the Hacker News hits decoded from JSON, or the
    Lobsters story records the page's pattern extracts), keeps the entries
    whose url contains the site, probes each one's liveness, and sorts what
    survives by upvotes, highest first, with a stable sort.

    `check_link` is an oracle: the status a GET of a url would get, None for
    a transport failure. Probes and throttling sleeps become events. */
module RelatedLinks {
  import opened Basics
  import Numeric

  const HN_ITEM_PREFIX: string := "https://news.ycombinator.com/item?id="
  const LOBSTERS_BASE: string := "https://lobste.rs"
  /** Seconds slept after a probe, to respect the platforms' rate limits. */
  const PROBE_DELAY: nat := 2

  datatype RelatedLink = RelatedLink(
    url: string,
    discussionUrl: string,
    description: string,
    upvotes: nat,
    comments: nat,
    date: string)

  /** One decoded Hacker News search hit. */
  datatype HnHit = HnHit(
    createdAt: string,
    numComments: nat,
    points: nat,
    url: string,
    title: string,
    objectId: string)

  /** The six text captures the Lobsters story pattern extracts from one story block. */
  datatype StoryRecord = StoryRecord(
    score: string,
    url: string,
    description: string,
    date: string,
    discussion: string,
    comments: string)

  datatype LinkEvent = Probe(url: string) | Sleep(seconds: nat)

  datatype LinkError =
    | Transport
    | SearchStatus(status: nat)
    | MalformedBody
    | NoHost            // the site url has no host to search Lobsters by

  datatype LinkRun = LinkRun(result: Result<seq<RelatedLink>, LinkError>, events: seq<LinkEvent>)

  /** `check_link`: true exactly when the GET returns 200; a transport error is false. */
  predicate CheckLink(status: Status)
  {
    status == Some(200)
  }

  // ----- the stable sort by upvotes, highest first -----

  predicate NonIncreasing(s: seq<RelatedLink>)
  {
    forall i, j :: 0 <= i < j < |s| ==> s[i].upvotes >= s[j].upvotes
  }

  /** Places `x` before the first element with no more upvotes than it has. */
  function InsertByUpvotes(x: RelatedLink, s: seq<RelatedLink>): seq<RelatedLink>
  {
    if s == [] || s[0].upvotes <= x.upvotes then [x] + s
    else [s[0]] + InsertByUpvotes(x, s[1..])
  }

  /** `sort_by(|x, y| y.upvotes.cmp(&x.upvotes))`. */
  function SortByUpvotes(s: seq<RelatedLink>): seq<RelatedLink>
  {
    if s == [] then [] else InsertByUpvotes(s[0], SortByUpvotes(s[1..]))
  }

  /** The elements with exactly `v` upvotes, in their order in `s`. */
  function WithUpvotes(s: seq<RelatedLink>, v: nat): seq<RelatedLink>
  {
    if s == [] then []
    else (if s[0].upvotes == v then [s[0]] else []) + WithUpvotes(s[1..], v)
  }

  lemma {:induction false} InsertMembers(x: RelatedLink, s: seq<RelatedLink>)
    ensures multiset(InsertByUpvotes(x, s)) == multiset(s) + multiset{x}
    ensures forall e :: e in InsertByUpvotes(x, s) ==> e == x || e in s
  {
    if s != [] && s[0].upvotes > x.upvotes {
      InsertMembers(x, s[1..]);
      assert s == [s[0]] + s[1..];
    }
  }

  /** The head of a sorted list has at least the upvotes of every later link. */
  lemma HeadBounds(s: seq<RelatedLink>)
    requires s != [] && NonIncreasing(s)
    ensures forall e :: e in s[1..] ==> s[0].upvotes >= e.upvotes
  {
    forall e | e in s[1..] ensures s[0].upvotes >= e.upvotes {
      var k :| 0 <= k < |s[1..]| && s[1..][k] == e;
      assert s[k + 1] == e;
    }
  }

  /** A link with at least the upvotes of every link of a sorted list can
      go in front of it. */
  lemma ConsNonIncreasing(a: RelatedLink, t: seq<RelatedLink>)
    requires NonIncreasing(t)
    requires forall e :: e in t ==> a.upvotes >= e.upvotes
    ensures NonIncreasing([a] + t)
  {
    var r := [a] + t;
    forall i, j | 0 <= i < j < |r| ensures r[i].upvotes >= r[j].upvotes {
      assert r[j] == t[j - 1];
      if i > 0 {
        assert r[i] == t[i - 1];
      } else {
        assert t[j - 1] in t;
      }
    }
  }

  lemma {:induction false} InsertKeepsOrder(x: RelatedLink, s: seq<RelatedLink>)
    requires NonIncreasing(s)
    ensures NonIncreasing(InsertByUpvotes(x, s))
    ensures multiset(InsertByUpvotes(x, s)) == multiset(s) + multiset{x}
  {
    InsertMembers(x, s);
    if s == [] || s[0].upvotes <= x.upvotes {
      if s != [] {
        HeadBounds(s);
        assert s == [s[0]] + s[1..];
      }
      ConsNonIncreasing(x, s);
    } else {
      var tail := InsertByUpvotes(x, s[1..]);
      assert NonIncreasing(s[1..]) by {
        forall i, j | 0 <= i < j < |s[1..]| ensures s[1..][i].upvotes >= s[1..][j].upvotes {
          assert s[1..][i] == s[i + 1] && s[1..][j] == s[j + 1];
        }
      }
      InsertKeepsOrder(x, s[1..]);
      InsertMembers(x, s[1..]);
      HeadBounds(s);
      ConsNonIncreasing(s[0], tail);
    }
  }

  lemma {:induction false} InsertWithUpvotes(x: RelatedLink, s: seq<RelatedLink>, v: nat)
    ensures WithUpvotes(InsertByUpvotes(x, s), v) ==
      (if x.upvotes == v then [x] else []) + WithUpvotes(s, v)
  {
    if s == [] || s[0].upvotes <= x.upvotes {
      assert ([x] + s)[0] == x;
      assert ([x] + s)[1..] == s;
    } else {
      var tail := InsertByUpvotes(x, s[1..]);
      InsertWithUpvotes(x, s[1..], v);
      assert ([s[0]] + tail)[0] == s[0];
      assert ([s[0]] + tail)[1..] == tail;
      var head := if s[0].upvotes == v then [s[0]] else [];
      var mine := if x.upvotes == v then [x] else [];
      assert WithUpvotes(InsertByUpvotes(x, s), v) == head + (mine + WithUpvotes(s[1..], v));
      assert WithUpvotes(s, v) == head + WithUpvotes(s[1..], v);
      assert head == [] || mine == [];
    }
  }

  /** The sort orders by upvotes, highest first, and only reorders. */
  lemma {:induction false} SortOrdersAndPermutes(s: seq<RelatedLink>)
    ensures NonIncreasing(SortByUpvotes(s))
    ensures multiset(SortByUpvotes(s)) == multiset(s)
    ensures |SortByUpvotes(s)| == |s|
  {
    if s != [] {
      SortOrdersAndPermutes(s[1..]);
      InsertKeepsOrder(s[0], SortByUpvotes(s[1..]));
      assert s == [s[0]] + s[1..];
    }
    SortLength(s);
  }

  lemma {:induction false} SortLength(s: seq<RelatedLink>)
    ensures |SortByUpvotes(s)| == |s|
  {
    if s != [] {
      SortLength(s[1..]);
      InsertLength(s[0], SortByUpvotes(s[1..]));
    }
  }

  lemma {:induction false} InsertLength(x: RelatedLink, s: seq<RelatedLink>)
    ensures |InsertByUpvotes(x, s)| == |s| + 1
  {
    if s != [] && s[0].upvotes > x.upvotes {
      InsertLength(x, s[1..]);
    }
  }

  /** The sort is stable: links with equal upvotes keep their search order. */
  lemma {:induction false} SortIsStable(s: seq<RelatedLink>, v: nat)
    ensures WithUpvotes(SortByUpvotes(s), v) == WithUpvotes(s, v)
  {
    if s != [] {
      SortIsStable(s[1..], v);
      InsertWithUpvotes(s[0], SortByUpvotes(s[1..]), v);
    }
  }

  // ----- Hacker News -----

  function HnLink(hit: HnHit): RelatedLink
  {
    RelatedLink(hit.url, HN_ITEM_PREFIX + hit.objectId, hit.title, hit.points,
                hit.numComments, hit.createdAt)
  }

  /** A hit survives: its url contains the site and the url is live.
      The comment count plays no part (a hit without comments is only logged). */
  predicate HnKeeps(site: string, hit: HnHit, linkStatus: string -> Status)
  {
    Contains(hit.url, site) && CheckLink(linkStatus(hit.url))
  }

  /** The links pushed onto `related`, in search order. */
  function HnKept(site: string, hits: seq<HnHit>, linkStatus: string -> Status): seq<RelatedLink>
  {
    if hits == [] then []
    else
      var hit := hits[|hits| - 1];
      HnKept(site, hits[..|hits| - 1], linkStatus) +
        (if HnKeeps(site, hit, linkStatus) then [HnLink(hit)] else [])
  }

  /** The probes and sleeps: every hit whose url contains the site is probed
      and followed by a two-second sleep, live or not. */
  function HnEvents(site: string, hits: seq<HnHit>, linkStatus: string -> Status): seq<LinkEvent>
  {
    if hits == [] then []
    else
      var hit := hits[|hits| - 1];
      HnEvents(site, hits[..|hits| - 1], linkStatus) +
        (if Contains(hit.url, site) then [Probe(hit.url), Sleep(PROBE_DELAY)] else [])
  }

  /** `hackernews(site)` over the search reply. */
  function HnSearch(site: string, reply: Reply<seq<HnHit>>, linkStatus: string -> Status): LinkRun
  {
    match reply
    case TransportFailure => LinkRun(Err(Transport), [])
    case Reply(status, body) =>
      if status != 200 then LinkRun(Err(SearchStatus(status)), [])
      else if body.None? then LinkRun(Err(MalformedBody), [])
      else LinkRun(Ok(SortByUpvotes(HnKept(site, body.value, linkStatus))),
                   HnEvents(site, body.value, linkStatus))
  }

  lemma {:induction false} HnKeptMembers(site: string, hits: seq<HnHit>, linkStatus: string -> Status)
    ensures |HnKept(site, hits, linkStatus)| <= |hits|
    ensures forall l :: l in HnKept(site, hits, linkStatus) <==>
      exists h :: h in hits && HnKeeps(site, h, linkStatus) && l == HnLink(h)
  {
    if hits != [] {
      var init := hits[..|hits| - 1];
      HnKeptMembers(site, init, linkStatus);
      assert hits == init + [hits[|hits| - 1]];
    }
  }

  /** What `hackernews` returns on a 200 reply: links sorted by upvotes,
      highest first, stable among equal scores; exactly the links of the hits
      whose url contains the site and is live, whatever their comment count;
      never more links than hits; each discussion url is the item page of the
      hit's objectID. */
  lemma HackernewsResult(site: string, hits: seq<HnHit>, linkStatus: string -> Status)
    ensures var r := HnSearch(site, Reply(200, Some(hits)), linkStatus).result;
      && r.Ok?
      && NonIncreasing(r.value)
      && |r.value| <= |hits|
      && (forall v: nat :: WithUpvotes(r.value, v) == WithUpvotes(HnKept(site, hits, linkStatus), v))
      && (forall l :: l in r.value <==>
            exists h :: h in hits && Contains(h.url, site) && CheckLink(linkStatus(h.url)) && l == HnLink(h))
      && (forall l :: l in r.value ==>
            Contains(l.url, site) && exists h :: h in hits && l.discussionUrl == HN_ITEM_PREFIX + h.objectId)
  {
    var kept := HnKept(site, hits, linkStatus);
    HnKeptMembers(site, hits, linkStatus);
    SortOrdersAndPermutes(kept);
    forall v: nat ensures WithUpvotes(SortByUpvotes(kept), v) == WithUpvotes(kept, v) {
      SortIsStable(kept, v);
    }
    forall l ensures l in SortByUpvotes(kept) <==> l in kept {
      assert l in SortByUpvotes(kept) <==> l in multiset(SortByUpvotes(kept));
    }
  }

  /** A hit without comments is kept when its url contains the site and is live. */
  lemma HnKeepsUncommented(site: string, hits: seq<HnHit>, linkStatus: string -> Status, h: HnHit)
    requires h in hits && h.numComments == 0
    requires Contains(h.url, site) && CheckLink(linkStatus(h.url))
    ensures HnLink(h) in HnSearch(site, Reply(200, Some(hits)), linkStatus).result.value
  {
    HackernewsResult(site, hits, linkStatus);
  }

  /** Every probe in `ev` is of a url that contains the site and is followed
      at once by a two-second sleep. */
  predicate ProbesThrottled(site: string, ev: seq<LinkEvent>)
  {
    forall i :: 0 <= i < |ev| && ev[i].Probe? ==>
      Contains(ev[i].url, site) && i + 1 < |ev| && ev[i + 1] == Sleep(PROBE_DELAY)
  }

  /** Appending a probe of a matching url and its sleep keeps the events throttled. */
  lemma ThrottledAppend(site: string, pre: seq<LinkEvent>, url: string)
    requires ProbesThrottled(site, pre) && Contains(url, site)
    ensures ProbesThrottled(site, pre + [Probe(url), Sleep(PROBE_DELAY)])
  {
    var ev := pre + [Probe(url), Sleep(PROBE_DELAY)];
    forall i | 0 <= i < |ev| && ev[i].Probe?
      ensures Contains(ev[i].url, site) && i + 1 < |ev| && ev[i + 1] == Sleep(PROBE_DELAY)
    {
      if i < |pre| {
        assert ev[i] == pre[i];
      }
    }
  }

  /** The Hacker News loop sleeps two seconds after every probe, and only
      probes urls that contain the site. */
  lemma {:induction false} HnThrottle(site: string, hits: seq<HnHit>, linkStatus: string -> Status)
    ensures ProbesThrottled(site, HnEvents(site, hits, linkStatus))
  {
    if hits != [] {
      var init := hits[..|hits| - 1];
      var hit := hits[|hits| - 1];
      HnThrottle(site, init, linkStatus);
      if Contains(hit.url, site) {
        ThrottledAppend(site, HnEvents(site, init, linkStatus), hit.url);
      }
    }
  }

  /** `hackernews` loop: filter, probe, push, sleep; then sort. */
  method Hackernews(site: string, reply: Reply<seq<HnHit>>, linkStatus: string -> Status)
    returns (result: Result<seq<RelatedLink>, LinkError>, events: seq<LinkEvent>)
    ensures LinkRun(result, events) == HnSearch(site, reply, linkStatus)
  {
    events := [];
    if reply.TransportFailure? {
      return Err(Transport), events;
    }
    if reply.status != 200 {
      return Err(SearchStatus(reply.status)), events;
    }
    if reply.body.None? {
      return Err(MalformedBody), events;
    }
    var hits := reply.body.value;
    var related: seq<RelatedLink> := [];
    for i := 0 to |hits|
      invariant related == HnKept(site, hits[..i], linkStatus)
      invariant events == HnEvents(site, hits[..i], linkStatus)
    {
      assert hits[..i + 1][..i] == hits[..i];
      var link := hits[i];
      if !Contains(link.url, site) {
        continue;
      }
      var discussionUrl := HN_ITEM_PREFIX + link.objectId;
      events := events + [Probe(link.url)];
      if CheckLink(linkStatus(link.url)) {
        related := related + [RelatedLink(link.url, discussionUrl, link.title, link.points,
                                          link.numComments, link.createdAt)];
      }
      events := events + [Sleep(PROBE_DELAY)];
    }
    assert hits[..|hits|] == hits;
    related := SortByUpvotes(related);
    return Ok(related), events;
  }

  // ----- Lobsters -----

  /** `text.parse().unwrap_or(0)` for a `usize`. */
  function CountOrZero(text: string): nat
  {
    match Numeric.ParseUnsigned(text, Numeric.USIZE_LIMIT)
    case Some(n) => n
    case None => 0
  }

  function StoryLink(rec: StoryRecord): RelatedLink
  {
    RelatedLink(rec.url, LOBSTERS_BASE + rec.discussion, rec.description,
                CountOrZero(rec.score), CountOrZero(rec.comments), rec.date)
  }

  /** A record survives: its url contains the site, the url is live, and its
      comment count is not zero (an unparseable count counts as zero). */
  predicate LobstersKeeps(site: string, rec: StoryRecord, linkStatus: string -> Status)
  {
    Contains(rec.url, site) && CheckLink(linkStatus(rec.url)) && CountOrZero(rec.comments) != 0
  }

  function LobstersKept(site: string, recs: seq<StoryRecord>, linkStatus: string -> Status): seq<RelatedLink>
  {
    if recs == [] then []
    else
      var rec := recs[|recs| - 1];
      LobstersKept(site, recs[..|recs| - 1], linkStatus) +
        (if LobstersKeeps(site, rec, linkStatus) then [StoryLink(rec)] else [])
  }

  /** The probes and sleeps: a record whose url contains the site is probed
      (before its comment count is looked at); the sleep after the probe is
      skipped when the url is live but the record has no comments, because
      that record's `continue` comes before the sleep. */
  function LobstersEvents(site: string, recs: seq<StoryRecord>, linkStatus: string -> Status): seq<LinkEvent>
  {
    if recs == [] then []
    else
      var rec := recs[|recs| - 1];
      LobstersEvents(site, recs[..|recs| - 1], linkStatus) +
        (if !Contains(rec.url, site) then []
         else if CheckLink(linkStatus(rec.url)) && CountOrZero(rec.comments) == 0 then [Probe(rec.url)]
         else [Probe(rec.url), Sleep(PROBE_DELAY)])
  }

  /** `lobsters(site)`: `host` is the host of the parsed site url, None when
      the url does not parse or has no host. */
  function LobstersSearch(site: string, host: Option<string>, reply: Reply<seq<StoryRecord>>,
                          linkStatus: string -> Status): LinkRun
  {
    if host.None? then LinkRun(Err(NoHost), [])
    else match reply
      case TransportFailure => LinkRun(Err(Transport), [])
      case Reply(status, body) =>
        if status != 200 then LinkRun(Err(SearchStatus(status)), [])
        else if body.None? then LinkRun(Err(MalformedBody), [])
        else LinkRun(Ok(SortByUpvotes(LobstersKept(site, body.value, linkStatus))),
                     LobstersEvents(site, body.value, linkStatus))
  }

  lemma {:induction false} LobstersKeptMembers(site: string, recs: seq<StoryRecord>,
                                               linkStatus: string -> Status)
    ensures |LobstersKept(site, recs, linkStatus)| <= |recs|
    ensures forall l :: l in LobstersKept(site, recs, linkStatus) <==>
      exists r :: r in recs && LobstersKeeps(site, r, linkStatus) && l == StoryLink(r)
  {
    if recs != [] {
      var init := recs[..|recs| - 1];
      LobstersKeptMembers(site, init, linkStatus);
      assert recs == init + [recs[|recs| - 1]];
    }
  }

  /** What `lobsters` returns on a 200 reply: links sorted by upvotes, highest
      first, stable among equal scores; exactly the links of the records whose
      url contains the site, is live and whose comment count parses to a
      non-zero number; so every link has comments; never more links than
      records; each discussion url is the Lobsters base followed by the
      record's path. */
  lemma LobstersResult(site: string, host: string, recs: seq<StoryRecord>, linkStatus: string -> Status)
    ensures var r := LobstersSearch(site, Some(host), Reply(200, Some(recs)), linkStatus).result;
      && r.Ok?
      && NonIncreasing(r.value)
      && |r.value| <= |recs|
      && (forall v: nat :: WithUpvotes(r.value, v) == WithUpvotes(LobstersKept(site, recs, linkStatus), v))
      && (forall l :: l in r.value <==>
            exists rec :: rec in recs && LobstersKeeps(site, rec, linkStatus) && l == StoryLink(rec))
      && (forall l :: l in r.value ==>
            Contains(l.url, site) && l.comments != 0 &&
            exists rec :: rec in recs && l.discussionUrl == LOBSTERS_BASE + rec.discussion)
  {
    var kept := LobstersKept(site, recs, linkStatus);
    LobstersKeptMembers(site, recs, linkStatus);
    SortOrdersAndPermutes(kept);
    forall v: nat ensures WithUpvotes(SortByUpvotes(kept), v) == WithUpvotes(kept, v) {
      SortIsStable(kept, v);
    }
    forall l ensures l in SortByUpvotes(kept) <==> l in kept {
      assert l in SortByUpvotes(kept) <==> l in multiset(SortByUpvotes(kept));
    }
  }

  /** A record whose comment text does not parse as a `usize` is dropped,
      however live its url. */
  lemma UnparseableCommentsDropped(site: string, rec: StoryRecord, linkStatus: string -> Status)
    requires Numeric.ParseUnsigned(rec.comments, Numeric.USIZE_LIMIT).None?
    ensures !LobstersKeeps(site, rec, linkStatus)
  {
  }

  /** Every probe in `ev` is of a url that contains the site, and every sleep
      lasts two seconds and comes right after a probe. */
  predicate SleepsFollowProbes(site: string, ev: seq<LinkEvent>)
  {
    && (forall i :: 0 <= i < |ev| && ev[i].Probe? ==> Contains(ev[i].url, site))
    && (forall i :: 0 <= i < |ev| && ev[i].Sleep? ==> i > 0 && ev[i - 1].Probe? && ev[i].seconds == PROBE_DELAY)
  }

  lemma SleepsFollowProbesAppend(site: string, pre: seq<LinkEvent>, url: string, tail: seq<LinkEvent>)
    requires SleepsFollowProbes(site, pre) && Contains(url, site)
    requires tail == [] || tail == [Sleep(PROBE_DELAY)]
    ensures SleepsFollowProbes(site, pre + ([Probe(url)] + tail))
  {
    var ev := pre + ([Probe(url)] + tail);
    forall i | 0 <= i < |ev| && ev[i].Probe? ensures Contains(ev[i].url, site) {
      if i < |pre| {
        assert ev[i] == pre[i];
      }
    }
    forall i | 0 <= i < |ev| && ev[i].Sleep?
      ensures i > 0 && ev[i - 1].Probe? && ev[i].seconds == PROBE_DELAY
    {
      if i < |pre| {
        assert ev[i] == pre[i];
        assert ev[i - 1] == pre[i - 1];
      } else if i > |pre| {
        assert ev[i] == tail[i - |pre| - 1];
      }
    }
  }

  /** The Lobsters loop only probes urls that contain the site, and every
      two-second sleep comes right after a probe; a live record without
      comments is probed but not followed by a sleep. */
  lemma {:induction false} LobstersThrottle(site: string, recs: seq<StoryRecord>, linkStatus: string -> Status)
    ensures SleepsFollowProbes(site, LobstersEvents(site, recs, linkStatus))
  {
    if recs != [] {
      var init := recs[..|recs| - 1];
      var rec := recs[|recs| - 1];
      var pre := LobstersEvents(site, init, linkStatus);
      LobstersThrottle(site, init, linkStatus);
      if Contains(rec.url, site) {
        var tail := if CheckLink(linkStatus(rec.url)) && CountOrZero(rec.comments) == 0 then []
                    else [Sleep(PROBE_DELAY)];
        assert LobstersEvents(site, recs, linkStatus) == pre + ([Probe(rec.url)] + tail);
        SleepsFollowProbesAppend(site, pre, rec.url, tail);
      } else {
        assert LobstersEvents(site, recs, linkStatus) == pre + [];
        assert pre + [] == pre;
      }
    }
  }

  /** A search failure is an error for both sources, and so is a site url
      without a host for Lobsters; none of them probes anything. */
  lemma SearchFailures(site: string, host: Option<string>, hn: Reply<seq<HnHit>>,
                       lob: Reply<seq<StoryRecord>>, linkStatus: string -> Status)
    ensures (hn.TransportFailure? || hn.status != 200) ==>
      HnSearch(site, hn, linkStatus) == LinkRun(Err(if hn.TransportFailure? then Transport else SearchStatus(hn.status)), [])
    ensures host.None? ==> LobstersSearch(site, host, lob, linkStatus) == LinkRun(Err(NoHost), [])
    ensures host.Some? && (lob.TransportFailure? || lob.status != 200) ==>
      LobstersSearch(site, host, lob, linkStatus).result.Err? &&
      LobstersSearch(site, host, lob, linkStatus).events == []
  {
  }

  /** `lobsters` loop: filter, probe, parse, drop uncommented, push, sleep; then sort. */
  method Lobsters(site: string, host: Option<string>, reply: Reply<seq<StoryRecord>>,
                  linkStatus: string -> Status)
    returns (result: Result<seq<RelatedLink>, LinkError>, events: seq<LinkEvent>)
    ensures LinkRun(result, events) == LobstersSearch(site, host, reply, linkStatus)
  {
    events := [];
    if host.None? {
      return Err(NoHost), events;
    }
    if reply.TransportFailure? {
      return Err(Transport), events;
    }
    if reply.status != 200 {
      return Err(SearchStatus(reply.status)), events;
    }
    if reply.body.None? {
      return Err(MalformedBody), events;
    }
    var recs := reply.body.value;
    var related: seq<RelatedLink> := [];
    for i := 0 to |recs|
      invariant related == LobstersKept(site, recs[..i], linkStatus)
      invariant events == LobstersEvents(site, recs[..i], linkStatus)
    {
      assert recs[..i + 1][..i] == recs[..i];
      var rec := recs[i];
      if !Contains(rec.url, site) {
        continue;
      }
      events := events + [Probe(rec.url)];
      if CheckLink(linkStatus(rec.url)) {
        var score := CountOrZero(rec.score);
        var comments := CountOrZero(rec.comments);
        if comments == 0 {
          continue;
        }
        related := related + [RelatedLink(rec.url, LOBSTERS_BASE + rec.discussion, rec.description,
                                          score, comments, rec.date)];
      }
      events := events + [Sleep(PROBE_DELAY)];
    }
    assert recs[..|recs|] == recs;
    related := SortByUpvotes(related);
    return Ok(related), events;
  }
}
