/** The SQLite repository of src/database.rs, as tables of rows.

    Every write function is a script of statements run one after the other
    on one connection; each statement either applies in full or fails, and
    a failure ends the script (`?`) without undoing the statements before it
    (there is no transaction). Whether a given database call fails for a
    reason outside the tables (pool exhausted, disk error) is an oracle: the
    repository counts the calls it has made, and call number `n` fails
    exactly when `n` is in `faults`.

    The schema itself is not part of the source; the model takes the
    constraints the code relies on: `site_ids.id` is assigned by the
    database and `site_ids.url` is unique; `validation_queue.id` and
    `sites.id` are keys; `(id, voter_id)` is unique in `votes` (the
    `ON CONFLICT` clause names it); every id column of the other tables
    refers to `site_ids` (and `voter_id` to `voter_ids`).

    An insert whose id sub-query finds no row is refused. That holds only
    if two things are true, and the source guarantees neither of them:
    - those id columns are NOT NULL, because SQLite does not check a NULL
      foreign key, and a sub-query that finds no row gives NULL;
    - foreign keys are enforced on every connection, whereas `init_db`
      turns them on for only one pooled connection
      (src/database.rs:46-53).
    These members depend on the refusal:
    - `Apply`, for `InsertVote`, `InsertSite`, `AppendLog` and
      `InsertRelated`;
    - `CastVoteEffect` and `CastVoteOutcome`;
    - `MarkBadSizeEffect` and `MarkGoodEffect`;
    - `UpdateRelatedEffect`. */
module Database {
  import opened Basics
  import RelatedLinks

  type RelatedLink = RelatedLinks.RelatedLink

  datatype SiteId = SiteId(id: nat, url: string)
  /** A validation-queue entry; `scan` is cleared when the site is rejected. */
  datatype QueueEntry = QueueEntry(id: nat, scan: bool)
  /** A validated site with its measured size in bytes. */
  datatype SiteRow = SiteRow(id: nat, size: nat, valid: bool)
  datatype RelatedRow = RelatedRow(id: nat, link: RelatedLink)
  datatype VoterId = VoterId(id: nat, uuid: string)
  datatype VoteRow = VoteRow(site: nat, voter: nat)
  /** A `validation_log` row: the site and the size its message reports. */
  datatype LogRow = LogRow(id: nat, size: nat)

  datatype Tables = Tables(
    siteIds: seq<SiteId>,
    nextSiteId: nat,
    queue: seq<QueueEntry>,
    sites: seq<SiteRow>,
    related: seq<RelatedRow>,
    voterIds: seq<VoterId>,
    nextVoterId: nat,
    votes: seq<VoteRow>,
    log: seq<LogRow>,
    blocked: seq<string>)

  /** One SQL statement the write functions execute. */
  datatype Stmt =
    | InsertSiteId(url: string)                 // INSERT INTO site_ids (url)
    | InsertQueued(url: string)                 // INSERT INTO validation_queue, scan = true
    | ClearScan(url: string)                    // UPDATE validation_queue SET scan = false
    | AppendLog(url: string, size: nat)         // INSERT INTO validation_log
    | DeleteQueued(url: string)                 // DELETE FROM validation_queue
    | InsertSite(url: string, size: nat)        // INSERT INTO sites, valid = true
    | DeleteRelated(url: string)                // DELETE FROM related
    | InsertRelated(url: string, link: RelatedLink)  // INSERT INTO related
    | InsertVoter(uuid: string)                 // INSERT INTO voter_ids
    | InsertVote(site: nat, uuid: string)       // INSERT INTO votes ... ON CONFLICT DO NOTHING
    | DeleteVote(site: nat, uuid: string)       // DELETE FROM votes

  // ----- lookups -----

  /** `(SELECT id FROM site_ids WHERE url = ?)`: None stands for NULL. */
  function IdOf(rows: seq<SiteId>, url: string): (r: Option<nat>)
    ensures r.Some? ==> SiteId(r.value, url) in rows
    ensures r.None? ==> forall e :: e in rows ==> e.url != url
  {
    if rows == [] then None
    else if rows[0].url == url then Some(rows[0].id)
    else IdOf(rows[1..], url)
  }

  /** `(SELECT id FROM voter_ids WHERE uuid = ?)`. */
  function VoterOf(rows: seq<VoterId>, uuid: string): (r: Option<nat>)
    ensures r.Some? ==> VoterId(r.value, uuid) in rows
    ensures r.None? ==> forall e :: e in rows ==> e.uuid != uuid
  {
    if rows == [] then None
    else if rows[0].uuid == uuid then Some(rows[0].id)
    else VoterOf(rows[1..], uuid)
  }

  function SiteIdSet(t: Tables): set<nat>
  {
    set e | e in t.siteIds :: e.id
  }

  function VoterIdSet(t: Tables): set<nat>
  {
    set e | e in t.voterIds :: e.id
  }

  predicate InQueue(queue: seq<QueueEntry>, id: nat)
  {
    QueueEntry(id, true) in queue || QueueEntry(id, false) in queue
  }

  predicate HasSiteRow(sites: seq<SiteRow>, id: nat)
  {
    exists r :: r in sites && r.id == id
  }

  // ----- row filters -----

  function RemoveQueued(queue: seq<QueueEntry>, id: nat): (r: seq<QueueEntry>)
    ensures forall e :: e in r <==> e in queue && e.id != id
  {
    if queue == [] then []
    else (if queue[0].id == id then [] else [queue[0]]) + RemoveQueued(queue[1..], id)
  }

  function RemoveRelated(rows: seq<RelatedRow>, id: nat): seq<RelatedRow>
  {
    if rows == [] then []
    else (if rows[0].id == id then [] else [rows[0]]) + RemoveRelated(rows[1..], id)
  }

  /** The delete keeps exactly the rows of other sites. */
  lemma {:induction false} RemoveRelatedMembers(rows: seq<RelatedRow>, id: nat)
    ensures forall e :: e in RemoveRelated(rows, id) <==> e in rows && e.id != id
  {
    if rows != [] {
      RemoveRelatedMembers(rows[1..], id);
      assert rows == [rows[0]] + rows[1..];
    }
  }

  function RemoveVote(votes: seq<VoteRow>, v: VoteRow): (r: seq<VoteRow>)
    ensures forall e :: e in r <==> e in votes && e != v
  {
    if votes == [] then []
    else (if votes[0] == v then [] else [votes[0]]) + RemoveVote(votes[1..], v)
  }

  /** Every entry for `id` with its scan flag cleared; the order is kept. */
  function ClearScanOf(queue: seq<QueueEntry>, id: nat): (r: seq<QueueEntry>)
    ensures |r| == |queue|
    ensures forall i :: 0 <= i < |r| ==> r[i].id == queue[i].id
    ensures forall i :: 0 <= i < |r| ==> r[i].scan == (queue[i].scan && queue[i].id != id)
  {
    seq(|queue|, i requires 0 <= i < |queue| =>
      if queue[i].id == id then QueueEntry(id, false) else queue[i])
  }

  // ----- statements -----

  /** The effect of one statement, or None when the database refuses it. */
  function Apply(t: Tables, s: Stmt): Option<Tables>
  {
    match s
    case InsertSiteId(url) =>
      if IdOf(t.siteIds, url).Some? then None
      else Some(t.(siteIds := t.siteIds + [SiteId(t.nextSiteId, url)], nextSiteId := t.nextSiteId + 1))
    case InsertQueued(url) =>
      (match IdOf(t.siteIds, url)
       case None => None
       case Some(id) =>
         if InQueue(t.queue, id) then None
         else Some(t.(queue := t.queue + [QueueEntry(id, true)])))
    case ClearScan(url) =>
      (match IdOf(t.siteIds, url)
       case None => Some(t)
       case Some(id) => Some(t.(queue := ClearScanOf(t.queue, id))))
    case AppendLog(url, size) =>
      (match IdOf(t.siteIds, url)
       case None => None
       case Some(id) => Some(t.(log := t.log + [LogRow(id, size)])))
    case DeleteQueued(url) =>
      (match IdOf(t.siteIds, url)
       case None => Some(t)
       case Some(id) => Some(t.(queue := RemoveQueued(t.queue, id))))
    case InsertSite(url, size) =>
      (match IdOf(t.siteIds, url)
       case None => None
       case Some(id) =>
         if HasSiteRow(t.sites, id) then None
         else Some(t.(sites := t.sites + [SiteRow(id, size, true)])))
    case DeleteRelated(url) =>
      (match IdOf(t.siteIds, url)
       case None => Some(t)
       case Some(id) => Some(t.(related := RemoveRelated(t.related, id))))
    case InsertRelated(url, link) =>
      (match IdOf(t.siteIds, url)
       case None => None
       case Some(id) => Some(t.(related := t.related + [RelatedRow(id, link)])))
    case InsertVoter(uuid) =>
      Some(t.(voterIds := t.voterIds + [VoterId(t.nextVoterId, uuid)], nextVoterId := t.nextVoterId + 1))
    case InsertVote(site, uuid) =>
      (match VoterOf(t.voterIds, uuid)
       case None => None
       case Some(voter) =>
         if site !in SiteIdSet(t) then None
         else if VoteRow(site, voter) in t.votes then Some(t)
         else Some(t.(votes := t.votes + [VoteRow(site, voter)])))
    case DeleteVote(site, uuid) =>
      (match VoterOf(t.voterIds, uuid)
       case None => Some(t)
       case Some(voter) => Some(t.(votes := RemoveVote(t.votes, VoteRow(site, voter)))))
  }

  /** Where a script has got to: the tables, the number of database calls
      made so far, and whether every statement so far succeeded. */
  datatype Outcome = Outcome(tables: Tables, executed: nat, ok: bool)

  /** One more statement: skipped after a failure, refused when the call
      faults or the database refuses it. */
  function Step(o: Outcome, faults: set<nat>, s: Stmt): Outcome
  {
    if !o.ok then o
    else if o.executed in faults then Outcome(o.tables, o.executed + 1, false)
    else match Apply(o.tables, s)
      case None => Outcome(o.tables, o.executed + 1, false)
      case Some(next) => Outcome(next, o.executed + 1, true)
  }

  /** A script run from call number `n`, stopping at the first failure. */
  function Run(t: Tables, n: nat, faults: set<nat>, script: seq<Stmt>): Outcome
  {
    if script == [] then Outcome(t, n, true)
    else Step(Run(t, n, faults, script[..|script| - 1]), faults, script[|script| - 1])
  }

  lemma RunAppend(t: Tables, n: nat, faults: set<nat>, script: seq<Stmt>, s: Stmt)
    ensures Run(t, n, faults, script + [s]) == Step(Run(t, n, faults, script), faults, s)
  {
    assert (script + [s])[..|script|] == script;
  }

  /** Once a statement has failed, nothing after it runs. */
  lemma {:induction false} RunStopsAtFailure(t: Tables, n: nat, faults: set<nat>, script: seq<Stmt>, rest: seq<Stmt>)
    requires !Run(t, n, faults, script).ok
    ensures Run(t, n, faults, script + rest) == Run(t, n, faults, script)
    decreases |rest|
  {
    if rest == [] {
      assert script + rest == script;
    } else {
      var init := rest[..|rest| - 1];
      assert script + rest == (script + init) + [rest[|rest| - 1]];
      RunStopsAtFailure(t, n, faults, script, init);
      RunAppend(t, n, faults, script + init, rest[|rest| - 1]);
    }
  }

  // ----- the invariant the constraints keep -----

  /** Keys: site and voter ids are distinct and below the next id, urls are
      distinct, one queue entry and one sites row per id, no vote twice. */
  predicate UniqueKeys(t: Tables)
  {
    && (forall i, j :: 0 <= i < j < |t.siteIds| ==>
          t.siteIds[i].id != t.siteIds[j].id && t.siteIds[i].url != t.siteIds[j].url)
    && (forall e :: e in t.siteIds ==> e.id < t.nextSiteId)
    && (forall i, j :: 0 <= i < j < |t.voterIds| ==> t.voterIds[i].id != t.voterIds[j].id)
    && (forall e :: e in t.voterIds ==> e.id < t.nextVoterId)
    && QueueKeys(t.queue)
    && (forall i, j :: 0 <= i < j < |t.sites| ==> t.sites[i].id != t.sites[j].id)
    && VoteKeys(t.votes)
  }

  /** At most one queue entry per site. */
  predicate QueueKeys(queue: seq<QueueEntry>)
  {
    forall i, j :: 0 <= i < j < |queue| ==> queue[i].id != queue[j].id
  }

  /** No (site, voter) pair twice. */
  predicate VoteKeys(votes: seq<VoteRow>)
  {
    forall i, j :: 0 <= i < j < |votes| ==> votes[i] != votes[j]
  }

  /** References: every id column names an existing site (or voter). */
  predicate References(t: Tables)
  {
    && (forall e :: e in t.queue ==> e.id in SiteIdSet(t))
    && (forall e :: e in t.sites ==> e.id in SiteIdSet(t))
    && (forall e :: e in t.related ==> e.id in SiteIdSet(t))
    && (forall e :: e in t.log ==> e.id in SiteIdSet(t))
    && (forall e :: e in t.votes ==> e.site in SiteIdSet(t) && e.voter in VoterIdSet(t))
  }

  predicate Valid(t: Tables)
  {
    UniqueKeys(t) && References(t)
  }

  lemma {:induction false} RemoveQueuedKeepsKeys(queue: seq<QueueEntry>, id: nat)
    requires QueueKeys(queue)
    ensures QueueKeys(RemoveQueued(queue, id))
  {
    if queue != [] {
      var rest := RemoveQueued(queue[1..], id);
      RemoveQueuedKeepsKeys(queue[1..], id);
      if queue[0].id != id {
        var r := [queue[0]] + rest;
        forall i, j | 0 <= i < j < |r| ensures r[i].id != r[j].id {
          if i == 0 {
            assert r[j] == rest[j - 1] && rest[j - 1] in queue[1..];
            var k :| 0 <= k < |queue[1..]| && queue[1..][k] == r[j];
            assert queue[k + 1] == r[j];
          } else {
            assert r[i] == rest[i - 1] && r[j] == rest[j - 1];
          }
        }
      }
    }
  }

  lemma {:induction false} RemoveVoteKeepsKeys(votes: seq<VoteRow>, v: VoteRow)
    requires VoteKeys(votes)
    ensures VoteKeys(RemoveVote(votes, v))
  {
    if votes != [] {
      var rest := RemoveVote(votes[1..], v);
      RemoveVoteKeepsKeys(votes[1..], v);
      if votes[0] != v {
        var r := [votes[0]] + rest;
        forall i, j | 0 <= i < j < |r| ensures r[i] != r[j] {
          if i == 0 {
            assert r[j] == rest[j - 1] && rest[j - 1] in votes[1..];
            var k :| 0 <= k < |votes[1..]| && votes[1..][k] == r[j];
            assert votes[k + 1] == r[j];
          } else {
            assert r[i] == rest[i - 1] && r[j] == rest[j - 1];
          }
        }
      }
    }
  }

  lemma InsertSiteIdKeepsValid(t: Tables, url: string)
    requires Valid(t) && IdOf(t.siteIds, url).None?
    ensures Valid(t.(siteIds := t.siteIds + [SiteId(t.nextSiteId, url)], nextSiteId := t.nextSiteId + 1))
  {
    var t' := t.(siteIds := t.siteIds + [SiteId(t.nextSiteId, url)], nextSiteId := t.nextSiteId + 1);
    assert SiteIdSet(t) <= SiteIdSet(t');
    forall i | 0 <= i < |t.siteIds|
      ensures t.siteIds[i].id != t.nextSiteId && t.siteIds[i].url != url
    {
      assert t.siteIds[i] in t.siteIds;
    }
  }

  lemma InsertQueuedKeepsValid(t: Tables, id: nat)
    requires Valid(t) && id in SiteIdSet(t) && !InQueue(t.queue, id)
    ensures Valid(t.(queue := t.queue + [QueueEntry(id, true)]))
  {
    forall i | 0 <= i < |t.queue| ensures t.queue[i].id != id {
      assert t.queue[i] in t.queue;
    }
  }

  lemma ClearScanKeepsValid(t: Tables, id: nat)
    requires Valid(t)
    ensures Valid(t.(queue := ClearScanOf(t.queue, id)))
  {
    var q := ClearScanOf(t.queue, id);
    forall e | e in q ensures e.id in SiteIdSet(t) {
      var i :| 0 <= i < |q| && q[i] == e;
      assert t.queue[i] in t.queue;
    }
  }

  lemma DeleteQueuedKeepsValid(t: Tables, id: nat)
    requires Valid(t)
    ensures Valid(t.(queue := RemoveQueued(t.queue, id)))
  {
    RemoveQueuedKeepsKeys(t.queue, id);
  }

  lemma InsertSiteKeepsValid(t: Tables, id: nat, size: nat)
    requires Valid(t) && id in SiteIdSet(t) && !HasSiteRow(t.sites, id)
    ensures Valid(t.(sites := t.sites + [SiteRow(id, size, true)]))
  {
    forall i | 0 <= i < |t.sites| ensures t.sites[i].id != id {
      assert t.sites[i] in t.sites;
    }
  }

  lemma InsertVoterKeepsValid(t: Tables, uuid: string)
    requires Valid(t)
    ensures Valid(t.(voterIds := t.voterIds + [VoterId(t.nextVoterId, uuid)], nextVoterId := t.nextVoterId + 1))
  {
    var t' := t.(voterIds := t.voterIds + [VoterId(t.nextVoterId, uuid)], nextVoterId := t.nextVoterId + 1);
    assert VoterIdSet(t) <= VoterIdSet(t');
    forall i | 0 <= i < |t.voterIds| ensures t.voterIds[i].id != t.nextVoterId {
      assert t.voterIds[i] in t.voterIds;
    }
  }

  lemma InsertVoteKeepsValid(t: Tables, v: VoteRow)
    requires Valid(t) && v.site in SiteIdSet(t) && v.voter in VoterIdSet(t) && v !in t.votes
    ensures Valid(t.(votes := t.votes + [v]))
  {
    forall i | 0 <= i < |t.votes| ensures t.votes[i] != v {
      assert t.votes[i] in t.votes;
    }
  }

  lemma DeleteVoteKeepsValid(t: Tables, v: VoteRow)
    requires Valid(t)
    ensures Valid(t.(votes := RemoveVote(t.votes, v)))
  {
    RemoveVoteKeepsKeys(t.votes, v);
  }

  lemma AppendLogKeepsValid(t: Tables, id: nat, size: nat)
    requires Valid(t) && id in SiteIdSet(t)
    ensures Valid(t.(log := t.log + [LogRow(id, size)]))
  {
  }

  lemma DeleteRelatedKeepsValid(t: Tables, id: nat)
    requires Valid(t)
    ensures Valid(t.(related := RemoveRelated(t.related, id)))
  {
    RemoveRelatedMembers(t.related, id);
  }

  lemma InsertRelatedKeepsValid(t: Tables, id: nat, link: RelatedLink)
    requires Valid(t) && id in SiteIdSet(t)
    ensures Valid(t.(related := t.related + [RelatedRow(id, link)]))
  {
  }

  lemma VoterOfKnown(t: Tables, uuid: string)
    requires VoterOf(t.voterIds, uuid).Some?
    ensures VoterOf(t.voterIds, uuid).value in VoterIdSet(t)
  {
    assert VoterId(VoterOf(t.voterIds, uuid).value, uuid) in t.voterIds;
  }

  lemma IdOfKnown(t: Tables, url: string)
    requires IdOf(t.siteIds, url).Some?
    ensures IdOf(t.siteIds, url).value in SiteIdSet(t)
  {
    assert SiteId(IdOf(t.siteIds, url).value, url) in t.siteIds;
  }

  lemma SiteStmtKeepsValid(t: Tables, s: Stmt)
    requires Valid(t) && Apply(t, s).Some?
    requires s.InsertSiteId? || s.InsertQueued? || s.ClearScan? || s.DeleteQueued?
    ensures Valid(Apply(t, s).value)
  {
    match s
    case InsertSiteId(url) => InsertSiteIdKeepsValid(t, url);
    case InsertQueued(url) =>
      IdOfKnown(t, url);
      InsertQueuedKeepsValid(t, IdOf(t.siteIds, url).value);
    case ClearScan(url) =>
      if IdOf(t.siteIds, url).Some? {
        ClearScanKeepsValid(t, IdOf(t.siteIds, url).value);
      }
    case DeleteQueued(url) =>
      if IdOf(t.siteIds, url).Some? {
        DeleteQueuedKeepsValid(t, IdOf(t.siteIds, url).value);
      }
  }

  lemma VerdictStmtKeepsValid(t: Tables, s: Stmt)
    requires Valid(t) && Apply(t, s).Some?
    requires s.AppendLog? || s.InsertSite? || s.DeleteRelated? || s.InsertRelated?
    ensures Valid(Apply(t, s).value)
  {
    match s
    case AppendLog(url, size) =>
      IdOfKnown(t, url);
      AppendLogKeepsValid(t, IdOf(t.siteIds, url).value, size);
    case InsertSite(url, size) =>
      IdOfKnown(t, url);
      InsertSiteKeepsValid(t, IdOf(t.siteIds, url).value, size);
    case DeleteRelated(url) =>
      if IdOf(t.siteIds, url).Some? {
        DeleteRelatedKeepsValid(t, IdOf(t.siteIds, url).value);
      }
    case InsertRelated(url, link) =>
      IdOfKnown(t, url);
      InsertRelatedKeepsValid(t, IdOf(t.siteIds, url).value, link);
  }

  lemma VoteStmtKeepsValid(t: Tables, s: Stmt)
    requires Valid(t) && Apply(t, s).Some?
    requires s.InsertVoter? || s.InsertVote? || s.DeleteVote?
    ensures Valid(Apply(t, s).value)
  {
    match s
    case InsertVoter(uuid) => InsertVoterKeepsValid(t, uuid);
    case InsertVote(site, uuid) =>
      VoterOfKnown(t, uuid);
      var v := VoteRow(site, VoterOf(t.voterIds, uuid).value);
      if v !in t.votes {
        InsertVoteKeepsValid(t, v);
      }
    case DeleteVote(site, uuid) =>
      if VoterOf(t.voterIds, uuid).Some? {
        DeleteVoteKeepsValid(t, VoteRow(site, VoterOf(t.voterIds, uuid).value));
      }
  }

  /** Every statement the database accepts keeps the keys unique and the
      references resolved. */
  /** `ApplyKeepsValid` for a table that may or may not be consistent. */
  lemma ApplyPreservesValid(t: Tables, s: Stmt)
    ensures Valid(t) && Apply(t, s).Some? ==> Valid(Apply(t, s).value)
  {
    if Valid(t) && Apply(t, s).Some? {
      ApplyKeepsValid(t, s);
    }
  }

  lemma ApplyKeepsValid(t: Tables, s: Stmt)
    requires Valid(t) && Apply(t, s).Some?
    ensures Valid(Apply(t, s).value)
  {
    if s.InsertSiteId? || s.InsertQueued? || s.ClearScan? || s.DeleteQueued? {
      SiteStmtKeepsValid(t, s);
    } else if s.AppendLog? || s.InsertSite? || s.DeleteRelated? || s.InsertRelated? {
      VerdictStmtKeepsValid(t, s);
    } else {
      VoteStmtKeepsValid(t, s);
    }
  }

  lemma {:induction false} RunKeepsValid(t: Tables, n: nat, faults: set<nat>, script: seq<Stmt>)
    requires Valid(t)
    ensures Valid(Run(t, n, faults, script).tables)
  {
    if script != [] {
      var o := Run(t, n, faults, script[..|script| - 1]);
      RunKeepsValid(t, n, faults, script[..|script| - 1]);
      if o.ok && o.executed !in faults && Apply(o.tables, script[|script| - 1]).Some? {
        ApplyKeepsValid(o.tables, script[|script| - 1]);
      }
    }
  }

  lemma IdOfUnique(t: Tables, url: string, id: nat)
    requires Valid(t) && SiteId(id, url) in t.siteIds
    ensures IdOf(t.siteIds, url) == Some(id)
  {
    var other := IdOf(t.siteIds, url).value;
    var i :| 0 <= i < |t.siteIds| && t.siteIds[i] == SiteId(id, url);
    var j :| 0 <= j < |t.siteIds| && t.siteIds[j] == SiteId(other, url);
    assert i == j;
  }

  // ----- read queries -----

  /** `check_site_active`: the url joins a valid `sites` row. */
  predicate Active(t: Tables, url: string)
  {
    exists e, r :: e in t.siteIds && r in t.sites && e.url == url && r.id == e.id && r.valid
  }

  /** `check_site_queued`: the url has a queue entry, whatever its scan flag. */
  predicate Queued(t: Tables, url: string)
  {
    exists e :: e in t.siteIds && e.url == url && InQueue(t.queue, e.id)
  }

  /** `check_site_blocked` over the stored patterns: some pattern compiles
      and matches the site. The regex engine is the pair of oracles. */
  predicate Blocked(patterns: seq<string>, site: string,
                    compiles: string -> bool, isMatch: (string, string) -> bool)
  {
    exists i :: 0 <= i < |patterns| && compiles(patterns[i]) && isMatch(patterns[i], site)
  }

  /** `get_validation_queue`: the url of every site whose queue entry still
      asks for a scan, in `site_ids` order. */
  function PendingUrls(rows: seq<SiteId>, queue: seq<QueueEntry>): seq<string>
  {
    if rows == [] then []
    else (if QueueEntry(rows[0].id, true) in queue then [rows[0].url] else []) + PendingUrls(rows[1..], queue)
  }

  /** The site ids `voter` has voted for, in table order. */
  function SitesVotedBy(votes: seq<VoteRow>, voter: nat): (r: seq<nat>)
    ensures forall site :: site in r <==> VoteRow(site, voter) in votes
  {
    if votes == [] then []
    else (if votes[0].voter == voter then [votes[0].site] else []) + SitesVotedBy(votes[1..], voter)
  }

  /** `get_votes`: the sites the voter with this uuid has voted for; none
      when the uuid is unknown. */
  function VotesOf(t: Tables, uuid: string): seq<nat>
  {
    match VoterOf(t.voterIds, uuid)
    case None => []
    case Some(voter) => SitesVotedBy(t.votes, voter)
  }

  /** `get_site_count`: the number of `sites` rows marked valid. */
  function ValidCount(sites: seq<SiteRow>): (r: nat)
    ensures r <= |sites|
    ensures r == 0 <==> forall i :: 0 <= i < |sites| ==> !sites[i].valid
    ensures r == |sites| <==> forall i :: 0 <= i < |sites| ==> sites[i].valid
  {
    if sites == [] then 0
    else ValidCount(sites[..|sites| - 1]) + (if sites[|sites| - 1].valid then 1 else 0)
  }

  /** A site that `mark_good` accepts is counted: the count grows by one. */
  lemma MarkGoodCounts(t: Tables, n: nat, faults: set<nat>, url: string, size: nat)
    requires Valid(t)
    ensures Run(t, n, faults, MarkGoodScript(url, size)).ok ==>
      ValidCount(Run(t, n, faults, MarkGoodScript(url, size)).tables.sites) == ValidCount(t.sites) + 1
  {
    MarkGoodEffect(t, n, faults, url, size);
    if Run(t, n, faults, MarkGoodScript(url, size)).ok {
      var row := SiteRow(IdOf(t.siteIds, url).value, size, true);
      assert (t.sites + [row])[..|t.sites|] == t.sites;
    }
  }

  /** `get_related` for one site id: its links in table order. */
  function RelatedOf(rows: seq<RelatedRow>, id: nat): seq<RelatedLink>
  {
    if rows == [] then []
    else (if rows[0].id == id then [rows[0].link] else []) + RelatedOf(rows[1..], id)
  }

  lemma {:induction false} PendingMeaning(rows: seq<SiteId>, queue: seq<QueueEntry>, url: string)
    ensures url in PendingUrls(rows, queue) <==>
      exists id :: SiteId(id, url) in rows && QueueEntry(id, true) in queue
  {
    if rows != [] {
      PendingMeaning(rows[1..], queue, url);
      assert rows == [rows[0]] + rows[1..];
    }
  }

  /** Clearing the flag of `id` leaves every entry in place. */
  lemma ClearScanMembers(queue: seq<QueueEntry>, id: nat)
    ensures forall e :: e in ClearScanOf(queue, id) && e.id != id <==> e in queue && e.id != id
    ensures QueueEntry(id, true) !in ClearScanOf(queue, id)
    ensures InQueue(ClearScanOf(queue, id), id) <==> InQueue(queue, id)
  {
    var r := ClearScanOf(queue, id);
    forall e | e in queue && e.id != id ensures e in r {
      var i :| 0 <= i < |queue| && queue[i] == e;
      assert r[i] == e;
    }
    if InQueue(queue, id) {
      var i :| 0 <= i < |queue| && queue[i].id == id;
      assert r[i] == QueueEntry(id, false);
    }
    if InQueue(r, id) {
      var i :| 0 <= i < |r| && r[i].id == id;
      assert queue[i].id == id;
      assert queue[i] == QueueEntry(id, true) || queue[i] == QueueEntry(id, false);
    }
  }

  // ----- write scripts -----

  function MarkBadScript(url: string): seq<Stmt>
  {
    [ClearScan(url)]
  }

  /** `mark_bad_size` logs the failure first (`log_validation_failure`), then
      clears the flag. */
  function MarkBadSizeScript(url: string, size: nat): seq<Stmt>
  {
    [AppendLog(url, size), ClearScan(url)]
  }

  function MarkGoodScript(url: string, size: nat): seq<Stmt>
  {
    [DeleteQueued(url), InsertSite(url, size)]
  }

  function RelatedInserts(url: string, links: seq<RelatedLink>): seq<Stmt>
  {
    if links == [] then []
    else RelatedInserts(url, links[..|links| - 1]) + [InsertRelated(url, links[|links| - 1])]
  }

  function UpdateRelatedScript(url: string, links: seq<RelatedLink>): seq<Stmt>
  {
    [DeleteRelated(url)] + RelatedInserts(url, links)
  }

  function CastVoteScript(uuid: string, site: nat, vote: int): seq<Stmt>
  {
    [if vote == 0 then DeleteVote(site, uuid) else InsertVote(site, uuid)]
  }

  function SubmitScript(url: string): seq<Stmt>
  {
    [InsertSiteId(url), InsertQueued(url)]
  }

  lemma RunOne(t: Tables, n: nat, faults: set<nat>, s: Stmt)
    ensures Run(t, n, faults, [s]) == Step(Outcome(t, n, true), faults, s)
  {
    assert [s][..0] == [];
  }

  lemma RunTwo(t: Tables, n: nat, faults: set<nat>, s1: Stmt, s2: Stmt)
    ensures Run(t, n, faults, [s1, s2]) == Step(Step(Outcome(t, n, true), faults, s1), faults, s2)
  {
    assert [s1, s2][..1] == [s1];
    RunOne(t, n, faults, s1);
  }

  // ----- what each write does -----

  /** Only the scan flag of `id` changes, so the pending state of every other
      site id is as before, `id` is no longer pending, and its entry stays. */
  lemma ClearScanPending(t: Tables, t': Tables, id: nat, url: string)
    requires DistinctSiteIds(t.siteIds) && SiteId(id, url) in t.siteIds
    requires t'.siteIds == t.siteIds && t'.queue == ClearScanOf(t.queue, id)
    ensures url !in PendingUrls(t'.siteIds, t'.queue)
    ensures Queued(t', url) <==> Queued(t, url)
    ensures forall u :: u != url ==> (u in PendingUrls(t'.siteIds, t'.queue) <==> u in PendingUrls(t.siteIds, t.queue))
  {
    ClearScanMembers(t.queue, id);
    PendingMeaning(t.siteIds, t'.queue, url);
    forall e | e in t.siteIds && e.url == url ensures e.id == id {
      SameSiteId(t.siteIds, e, SiteId(id, url));
    }
    forall u | u != url
      ensures u in PendingUrls(t'.siteIds, t'.queue) <==> u in PendingUrls(t.siteIds, t.queue)
    {
      PendingMeaning(t'.siteIds, t'.queue, u);
      PendingMeaning(t.siteIds, t.queue, u);
      forall e | e in t.siteIds && e.url == u ensures e.id != id {
        if e.id == id {
          SameSiteId(t.siteIds, e, SiteId(id, url));
        }
      }
    }
  }

  /** `mark_bad`: one call; when it succeeds the site's queue entry stays
      but no longer asks for a scan, every other site keeps its state, and
      no other table changes. An unknown url updates nothing. */
  lemma MarkBadEffect(t: Tables, n: nat, faults: set<nat>, url: string)
    requires DistinctSiteIds(t.siteIds)
    ensures Run(t, n, faults, MarkBadScript(url)).executed == n + 1
    ensures Run(t, n, faults, MarkBadScript(url)).ok <==> n !in faults
    ensures !Run(t, n, faults, MarkBadScript(url)).ok ==> Run(t, n, faults, MarkBadScript(url)).tables == t
    ensures Run(t, n, faults, MarkBadScript(url)).ok ==>
      var t' := Run(t, n, faults, MarkBadScript(url)).tables;
      && t' == t.(queue := t'.queue)
      && url !in PendingUrls(t'.siteIds, t'.queue)
      && (Queued(t', url) <==> Queued(t, url))
      && (forall u :: u != url ==> (u in PendingUrls(t'.siteIds, t'.queue) <==> u in PendingUrls(t.siteIds, t.queue)))
  {
    RunOne(t, n, faults, ClearScan(url));
    var t' := Run(t, n, faults, MarkBadScript(url)).tables;
    match IdOf(t.siteIds, url)
    case None =>
      PendingMeaning(t.siteIds, t.queue, url);
    case Some(id) =>
      if n !in faults {
        ClearScanPending(t, t', id, url);
      }
  }

  /** `mark_bad_size`: the failure is logged first, then the flag is cleared
      as by `mark_bad`. An unknown url fails at the log insert. */
  lemma MarkBadSizeEffect(t: Tables, n: nat, faults: set<nat>, url: string, size: nat)
    requires DistinctSiteIds(t.siteIds)
    ensures Run(t, n, faults, MarkBadSizeScript(url, size)).ok <==>
      n !in faults && n + 1 !in faults && IdOf(t.siteIds, url).Some?
    ensures Run(t, n, faults, MarkBadSizeScript(url, size)).ok ==>
      var t' := Run(t, n, faults, MarkBadSizeScript(url, size)).tables;
      && Run(t, n, faults, MarkBadSizeScript(url, size)).executed == n + 2
      && t' == t.(queue := t'.queue, log := t.log + [LogRow(IdOf(t.siteIds, url).value, size)])
      && url !in PendingUrls(t'.siteIds, t'.queue)
      && (Queued(t', url) <==> Queued(t, url))
      && (forall u :: u != url ==> (u in PendingUrls(t'.siteIds, t'.queue) <==> u in PendingUrls(t.siteIds, t.queue)))
  {
    RunTwo(t, n, faults, AppendLog(url, size), ClearScan(url));
    if n !in faults && IdOf(t.siteIds, url).Some? {
      var t1 := t.(log := t.log + [LogRow(IdOf(t.siteIds, url).value, size)]);
      MarkBadEffect(t1, n + 1, faults, url);
      RunOne(t1, n + 1, faults, ClearScan(url));
    }
  }

  /** Without a transaction, a failure of the second call leaves the log
      row written and the site still waiting for a scan. */
  lemma MarkBadSizeInterrupted(t: Tables, n: nat, faults: set<nat>, url: string, size: nat)
    requires n !in faults && n + 1 in faults && IdOf(t.siteIds, url).Some?
    ensures !Run(t, n, faults, MarkBadSizeScript(url, size)).ok
    ensures Run(t, n, faults, MarkBadSizeScript(url, size)).tables ==
      t.(log := t.log + [LogRow(IdOf(t.siteIds, url).value, size)])
  {
    RunTwo(t, n, faults, AppendLog(url, size), ClearScan(url));
  }

  /** `mark_good`: the queue entry is deleted and a valid `sites` row with
      the size is added, so the site is active and no longer queued; the
      other sites keep their state. It fails when the url is unknown or the
      site already has a `sites` row. */
  lemma MarkGoodEffect(t: Tables, n: nat, faults: set<nat>, url: string, size: nat)
    requires DistinctSiteIds(t.siteIds)
    ensures Run(t, n, faults, MarkGoodScript(url, size)).ok <==>
      n !in faults && n + 1 !in faults && IdOf(t.siteIds, url).Some? &&
      !HasSiteRow(t.sites, IdOf(t.siteIds, url).value)
    ensures Run(t, n, faults, MarkGoodScript(url, size)).ok ==>
      var t' := Run(t, n, faults, MarkGoodScript(url, size)).tables;
      && Run(t, n, faults, MarkGoodScript(url, size)).executed == n + 2
      && t' == t.(queue := t'.queue, sites := t.sites + [SiteRow(IdOf(t.siteIds, url).value, size, true)])
      && Active(t', url)
      && !Queued(t', url)
      && url !in PendingUrls(t'.siteIds, t'.queue)
      && (forall u :: u != url ==> (u in PendingUrls(t'.siteIds, t'.queue) <==> u in PendingUrls(t.siteIds, t.queue)))
      && (forall u :: u != url ==> (Queued(t', u) <==> Queued(t, u)))
  {
    RunTwo(t, n, faults, DeleteQueued(url), InsertSite(url, size));
    if Run(t, n, faults, MarkGoodScript(url, size)).ok {
      var id := IdOf(t.siteIds, url).value;
      var t' := Run(t, n, faults, MarkGoodScript(url, size)).tables;
      assert t'.queue == RemoveQueued(t.queue, id);
      assert SiteId(id, url) in t'.siteIds && SiteRow(id, size, true) in t'.sites;
      RemoveQueuedEffect(t, t', id, url);
    }
  }

  /** Site ids and urls are each distinct: the first of the keys. */
  predicate DistinctSiteIds(rows: seq<SiteId>)
  {
    forall i, j :: 0 <= i < j < |rows| ==> rows[i].id != rows[j].id && rows[i].url != rows[j].url
  }

  /** Two rows of distinct site ids that share the id or the url are one row. */
  lemma SameSiteId(rows: seq<SiteId>, a: SiteId, b: SiteId)
    requires DistinctSiteIds(rows) && a in rows && b in rows
    requires a.id == b.id || a.url == b.url
    ensures a == b
  {
    var i :| 0 <= i < |rows| && rows[i] == a;
    var j :| 0 <= j < |rows| && rows[j] == b;
    assert i == j;
  }

  /** Deleting the queue entry of `url` (with id `id`) takes `url` out of the
      queue and changes nothing for any other url. */
  lemma RemoveQueuedEffect(t: Tables, t': Tables, id: nat, url: string)
    requires DistinctSiteIds(t.siteIds) && SiteId(id, url) in t.siteIds
    requires t'.siteIds == t.siteIds && t'.queue == RemoveQueued(t.queue, id)
    ensures !Queued(t', url) && url !in PendingUrls(t'.siteIds, t'.queue)
    ensures forall u :: u != url ==> (u in PendingUrls(t'.siteIds, t'.queue) <==> u in PendingUrls(t.siteIds, t.queue))
    ensures forall u :: u != url ==> (Queued(t', u) <==> Queued(t, u))
  {
    PendingMeaning(t.siteIds, t'.queue, url);
    forall e | e in t.siteIds && e.url == url ensures e.id == id {
      SameSiteId(t.siteIds, e, SiteId(id, url));
    }
    forall u | u != url
      ensures (u in PendingUrls(t'.siteIds, t'.queue) <==> u in PendingUrls(t.siteIds, t.queue))
      ensures (Queued(t', u) <==> Queued(t, u))
    {
      PendingMeaning(t.siteIds, t'.queue, u);
      PendingMeaning(t.siteIds, t.queue, u);
      forall e | e in t.siteIds && e.url == u ensures e.id != id {
        if e.id == id {
          SameSiteId(t.siteIds, e, SiteId(id, url));
        }
      }
    }
  }

  /** Without a transaction, a failure of the insert after the delete leaves
      the site neither queued nor newly active. */
  lemma MarkGoodInterrupted(t: Tables, n: nat, faults: set<nat>, url: string, size: nat)
    requires DistinctSiteIds(t.siteIds) && n !in faults && n + 1 in faults && IdOf(t.siteIds, url).Some?
    ensures !Run(t, n, faults, MarkGoodScript(url, size)).ok
    ensures !Queued(Run(t, n, faults, MarkGoodScript(url, size)).tables, url)
    ensures Run(t, n, faults, MarkGoodScript(url, size)).tables.sites == t.sites
  {
    RunTwo(t, n, faults, DeleteQueued(url), InsertSite(url, size));
    var id := IdOf(t.siteIds, url).value;
    RemoveQueuedEffect(t, Run(t, n, faults, MarkGoodScript(url, size)).tables, id, url);
  }

  /** The rows `update_related` inserts for site `id`, in list order. */
  function RelatedRows(id: nat, links: seq<RelatedLink>): seq<RelatedRow>
  {
    if links == [] then []
    else RelatedRows(id, links[..|links| - 1]) + [RelatedRow(id, links[|links| - 1])]
  }

  lemma {:induction false} UpdateRelatedRun(t: Tables, n: nat, faults: set<nat>, url: string, id: nat,
                                            links: seq<RelatedLink>)
    requires IdOf(t.siteIds, url) == Some(id)
    ensures Run(t, n, faults, UpdateRelatedScript(url, links)).ok <==> FaultFree(faults, n, 1 + |links|)
    ensures Run(t, n, faults, UpdateRelatedScript(url, links)).ok ==>
      Run(t, n, faults, UpdateRelatedScript(url, links)) ==
        Outcome(t.(related := RemoveRelated(t.related, id) + RelatedRows(id, links)), n + 1 + |links|, true)
  {
    if links == [] {
      assert UpdateRelatedScript(url, links) == [DeleteRelated(url)];
      RunOne(t, n, faults, DeleteRelated(url));
    } else {
      var init := links[..|links| - 1];
      var last := links[|links| - 1];
      UpdateRelatedRun(t, n, faults, url, id, init);
      UpdateRelatedScriptSnoc(url, links);
      RunAppend(t, n, faults, UpdateRelatedScript(url, init), InsertRelated(url, last));
      UpdateRelatedStep(Run(t, n, faults, UpdateRelatedScript(url, init)), faults, n, |init|, url, id, t,
                        RemoveRelated(t.related, id), RelatedRows(id, init), last);
      assert RelatedRows(id, links) == RelatedRows(id, init) + [RelatedRow(id, last)];
    }
  }

  /** One more link insert after `k` of them. */
  lemma UpdateRelatedStep(o: Outcome, faults: set<nat>, n: nat, k: nat, url: string, id: nat, t: Tables,
                          kept: seq<RelatedRow>, rows: seq<RelatedRow>, last: RelatedLink)
    requires IdOf(t.siteIds, url) == Some(id)
    requires o.ok <==> FaultFree(faults, n, 1 + k)
    requires o.ok ==> o == Outcome(t.(related := kept + rows), n + 1 + k, true)
    ensures Step(o, faults, InsertRelated(url, last)).ok <==> FaultFree(faults, n, 1 + (k + 1))
    ensures Step(o, faults, InsertRelated(url, last)).ok ==>
      Step(o, faults, InsertRelated(url, last)) ==
        Outcome(t.(related := kept + (rows + [RelatedRow(id, last)])), n + 1 + (k + 1), true)
  {
    StepInsertRelated(o, faults, url, id, last, t.(related := kept + rows), n + 1 + k);
    FaultFreeSnoc(faults, n, 1 + k);
    assert kept + (rows + [RelatedRow(id, last)]) == (kept + rows) + [RelatedRow(id, last)];
  }

  /** None of the `count` calls numbered from `from` on faults. */
  predicate FaultFree(faults: set<nat>, from: nat, count: nat)
  {
    forall k :: from <= k < from + count ==> k !in faults
  }

  lemma FaultFreeSnoc(faults: set<nat>, from: nat, count: nat)
    ensures FaultFree(faults, from, count + 1) <==> FaultFree(faults, from, count) && from + count !in faults
  {
  }

  lemma UpdateRelatedScriptSnoc(url: string, links: seq<RelatedLink>)
    requires links != []
    ensures UpdateRelatedScript(url, links) ==
      UpdateRelatedScript(url, links[..|links| - 1]) + [InsertRelated(url, links[|links| - 1])]
  {
  }

  lemma StepInsertRelated(o: Outcome, faults: set<nat>, url: string, id: nat, link: RelatedLink,
                          t: Tables, m: nat)
    requires o.ok ==> o == Outcome(t, m, true)
    requires IdOf(t.siteIds, url) == Some(id)
    ensures Step(o, faults, InsertRelated(url, link)).ok <==> o.ok && m !in faults
    ensures Step(o, faults, InsertRelated(url, link)).ok ==>
      Step(o, faults, InsertRelated(url, link)) ==
        Outcome(t.(related := t.related + [RelatedRow(id, link)]), m + 1, true)
  {
  }

  lemma {:induction false} RelatedOfAppend(a: seq<RelatedRow>, b: seq<RelatedRow>, id: nat)
    ensures RelatedOf(a + b, id) == RelatedOf(a, id) + RelatedOf(b, id)
  {
    if a != [] {
      RelatedOfAppend(a[1..], b, id);
      assert (a + b)[0] == a[0] && (a + b)[1..] == a[1..] + b;
      var head := if a[0].id == id then [a[0].link] else [];
      assert RelatedOf(a + b, id) == head + RelatedOf(a[1..] + b, id);
      assert RelatedOf(a, id) == head + RelatedOf(a[1..], id);
    } else {
      assert a + b == b;
    }
  }

  lemma {:induction false} RelatedOfRemoved(a: seq<RelatedRow>, id: nat, other: nat)
    ensures RelatedOf(RemoveRelated(a, id), other) == if other == id then [] else RelatedOf(a, other)
  {
    if a != [] {
      RelatedOfRemoved(a[1..], id, other);
      var head := if a[0].id == id then [] else [a[0]];
      RelatedOfAppend(head, RemoveRelated(a[1..], id), other);
    }
  }

  lemma {:induction false} RelatedOfRows(id: nat, links: seq<RelatedLink>, other: nat)
    ensures RelatedOf(RelatedRows(id, links), other) == if other == id then links else []
  {
    if links != [] {
      var init := links[..|links| - 1];
      RelatedOfRows(id, init, other);
      RelatedOfAppend(RelatedRows(id, init), [RelatedRow(id, links[|links| - 1])], other);
    }
  }

  lemma {:induction false} RemoveRelatedAppend(a: seq<RelatedRow>, b: seq<RelatedRow>, id: nat)
    ensures RemoveRelated(a + b, id) == RemoveRelated(a, id) + RemoveRelated(b, id)
  {
    if a != [] {
      RemoveRelatedAppend(a[1..], b, id);
      assert (a + b)[0] == a[0] && (a + b)[1..] == a[1..] + b;
      var head := if a[0].id == id then [] else [a[0]];
      assert RemoveRelated(a + b, id) == head + RemoveRelated(a[1..] + b, id);
      assert RemoveRelated(a, id) == head + RemoveRelated(a[1..], id);
    } else {
      assert a + b == b;
    }
  }

  lemma {:induction false} RemoveRelatedTwice(a: seq<RelatedRow>, id: nat)
    ensures RemoveRelated(RemoveRelated(a, id), id) == RemoveRelated(a, id)
  {
    if a != [] {
      RemoveRelatedTwice(a[1..], id);
      var head := if a[0].id == id then [] else [a[0]];
      RemoveRelatedAppend(head, RemoveRelated(a[1..], id), id);
    }
  }

  lemma {:induction false} RemoveRelatedRows(id: nat, links: seq<RelatedLink>)
    ensures RemoveRelated(RelatedRows(id, links), id) == []
  {
    if links != [] {
      RemoveRelatedRows(id, links[..|links| - 1]);
      RemoveRelatedAppend(RelatedRows(id, links[..|links| - 1]), [RelatedRow(id, links[|links| - 1])], id);
    }
  }

  /** `update_related(site, L)`: one delete and one insert per link. When
      every call succeeds the site's related links are exactly L, in order
      (the old ones are replaced, not merged), no other site's links change
      and no other table changes. For an unknown url only an empty L
      succeeds. */
  lemma UpdateRelatedEffect(t: Tables, n: nat, faults: set<nat>, url: string, links: seq<RelatedLink>)
    ensures IdOf(t.siteIds, url).Some? ==>
      (Run(t, n, faults, UpdateRelatedScript(url, links)).ok <==> FaultFree(faults, n, 1 + |links|))
    ensures IdOf(t.siteIds, url).None? ==>
      (Run(t, n, faults, UpdateRelatedScript(url, links)).ok <==> n !in faults && links == [])
    ensures Run(t, n, faults, UpdateRelatedScript(url, links)).ok ==>
      var t' := Run(t, n, faults, UpdateRelatedScript(url, links)).tables;
      && t' == t.(related := t'.related)
      && (IdOf(t.siteIds, url).Some? ==> RelatedOf(t'.related, IdOf(t.siteIds, url).value) == links)
      && (forall other: nat :: IdOf(t.siteIds, url) != Some(other) ==> RelatedOf(t'.related, other) == RelatedOf(t.related, other))
  {
    match IdOf(t.siteIds, url)
    case Some(id) =>
      UpdateRelatedRun(t, n, faults, url, id, links);
      if Run(t, n, faults, UpdateRelatedScript(url, links)).ok {
        forall other: nat ensures RelatedOf(RemoveRelated(t.related, id) + RelatedRows(id, links), other) ==
          if other == id then links else RelatedOf(t.related, other)
        {
          RelatedOfAppend(RemoveRelated(t.related, id), RelatedRows(id, links), other);
          RelatedOfRemoved(t.related, id, other);
          RelatedOfRows(id, links, other);
        }
      }
    case None =>
      RunOne(t, n, faults, DeleteRelated(url));
      if links != [] {
        var first := [DeleteRelated(url)] + RelatedInserts(url, links[..1]);
        assert RelatedInserts(url, links[..1]) == [InsertRelated(url, links[0])] by {
          assert links[..1][..0] == [];
        }
        RunAppend(t, n, faults, [DeleteRelated(url)], InsertRelated(url, links[0]));
        assert !Run(t, n, faults, first).ok;
        RelatedInsertsSplit(url, links);
        RunStopsAtFailure(t, n, faults, first, RelatedInserts(url, links[1..]));
        assert first + RelatedInserts(url, links[1..]) == UpdateRelatedScript(url, links);
      }
  }

  lemma {:induction false} RelatedInsertsSplit(url: string, links: seq<RelatedLink>)
    requires links != []
    ensures RelatedInserts(url, links) == RelatedInserts(url, links[..1]) + RelatedInserts(url, links[1..])
  {
    if |links| > 1 {
      var init := links[..|links| - 1];
      RelatedInsertsSplit(url, init);
      assert init[..1] == links[..1];
      assert init[1..] == links[1..][..|links[1..]| - 1];
    } else {
      assert links[..1] == links;
    }
  }

  /** Repeating `update_related` with the same list leaves the tables as the
      first call left them. */
  lemma UpdateRelatedIdempotent(t: Tables, n: nat, url: string, links: seq<RelatedLink>)
    requires IdOf(t.siteIds, url).Some?
    ensures Run(t, n, {}, UpdateRelatedScript(url, links)).ok
    ensures var o := Run(t, n, {}, UpdateRelatedScript(url, links));
      Run(o.tables, o.executed, {}, UpdateRelatedScript(url, links)) ==
        Outcome(o.tables, o.executed + 1 + |links|, true)
  {
    var id := IdOf(t.siteIds, url).value;
    UpdateRelatedRun(t, n, {}, url, id, links);
    var o := Run(t, n, {}, UpdateRelatedScript(url, links));
    var t1 := t.(related := RemoveRelated(t.related, id) + RelatedRows(id, links));
    assert o == Outcome(t1, n + 1 + |links|, true);
    UpdateRelatedRun(t1, o.executed, {}, url, id, links);
    var o2 := Run(t1, o.executed, {}, UpdateRelatedScript(url, links));
    assert o2 == Outcome(t1.(related := RemoveRelated(t1.related, id) + RelatedRows(id, links)), o.executed + 1 + |links|, true);
    RemoveRelatedAppend(RemoveRelated(t.related, id), RelatedRows(id, links), id);
    RemoveRelatedTwice(t.related, id);
    RemoveRelatedRows(id, links);
    assert RemoveRelated(t1.related, id) == RemoveRelated(t.related, id);
  }

  /** `cast_vote` with vote 0 removes the (site, voter) pair; any other
      value adds it unless it is there already, and never twice. Only the
      votes table changes, and only for this voter and site. */
  lemma CastVoteEffect(t: Tables, n: nat, faults: set<nat>, uuid: string, site: nat, vote: int)
    requires Valid(t)
    ensures vote == 0 ==> (Run(t, n, faults, CastVoteScript(uuid, site, vote)).ok <==> n !in faults)
    ensures vote != 0 ==> (Run(t, n, faults, CastVoteScript(uuid, site, vote)).ok <==>
      n !in faults && VoterOf(t.voterIds, uuid).Some? && site in SiteIdSet(t))
    ensures !Run(t, n, faults, CastVoteScript(uuid, site, vote)).ok ==>
      Run(t, n, faults, CastVoteScript(uuid, site, vote)).tables == t
    ensures Run(t, n, faults, CastVoteScript(uuid, site, vote)).ok ==>
      var t' := Run(t, n, faults, CastVoteScript(uuid, site, vote)).tables;
      && t' == t.(votes := t'.votes)
      && VoteKeys(t'.votes)
      && (vote == 0 ==> site !in VotesOf(t', uuid))
      && (vote != 0 ==> site in VotesOf(t', uuid))
      && (forall other :: other != site ==> (other in VotesOf(t', uuid) <==> other in VotesOf(t, uuid)))
      && (forall u, other :: u != uuid ==> (other in VotesOf(t', u) <==> other in VotesOf(t, u)))
  {
    CastVoteOutcome(t, n, faults, uuid, site, vote);
    RunKeepsValid(t, n, faults, CastVoteScript(uuid, site, vote));
    if Run(t, n, faults, CastVoteScript(uuid, site, vote)).ok {
      CastVoteVotes(t, Run(t, n, faults, CastVoteScript(uuid, site, vote)).tables, uuid, site, vote);
    }
  }

  /** The one statement of `cast_vote`: when it fails, and what it does to
      the votes table when it succeeds. */
  lemma CastVoteOutcome(t: Tables, n: nat, faults: set<nat>, uuid: string, site: nat, vote: int)
    ensures vote == 0 ==> (Run(t, n, faults, CastVoteScript(uuid, site, vote)).ok <==> n !in faults)
    ensures vote != 0 ==> (Run(t, n, faults, CastVoteScript(uuid, site, vote)).ok <==>
      n !in faults && VoterOf(t.voterIds, uuid).Some? && site in SiteIdSet(t))
    ensures !Run(t, n, faults, CastVoteScript(uuid, site, vote)).ok ==>
      Run(t, n, faults, CastVoteScript(uuid, site, vote)).tables == t
    ensures Run(t, n, faults, CastVoteScript(uuid, site, vote)).ok ==>
      var t' := Run(t, n, faults, CastVoteScript(uuid, site, vote)).tables;
      && t' == t.(votes := t'.votes)
      && (VoterOf(t.voterIds, uuid).None? ==> t' == t)
      && (VoterOf(t.voterIds, uuid).Some? ==>
            var v := VoteRow(site, VoterOf(t.voterIds, uuid).value);
            t'.votes == if vote == 0 then RemoveVote(t.votes, v) else if v in t.votes then t.votes else t.votes + [v])
  {
    var stmt := if vote == 0 then DeleteVote(site, uuid) else InsertVote(site, uuid);
    RunOne(t, n, faults, stmt);
  }

  /** Two different uuids of a consistent voter table name different voters. */
  lemma VoterDistinct(t: Tables, uuid: string, u: string)
    requires Valid(t) && u != uuid
    requires VoterOf(t.voterIds, uuid).Some? && VoterOf(t.voterIds, u).Some?
    ensures VoterOf(t.voterIds, uuid).value != VoterOf(t.voterIds, u).value
  {
    var voter := VoterOf(t.voterIds, uuid).value;
    var v2 := VoterOf(t.voterIds, u).value;
    var i :| 0 <= i < |t.voterIds| && t.voterIds[i] == VoterId(voter, uuid);
    var j :| 0 <= j < |t.voterIds| && t.voterIds[j] == VoterId(v2, u);
    if i < j { assert t.voterIds[i].id != t.voterIds[j].id; }
    else if j < i { assert t.voterIds[j].id != t.voterIds[i].id; }
  }

  /** The votes as seen per voter after a successful `cast_vote`. */
  lemma CastVoteVotes(t: Tables, t': Tables, uuid: string, site: nat, vote: int)
    requires Valid(t)
    requires t' == t.(votes := t'.votes)
    requires VoterOf(t.voterIds, uuid).None? ==> t' == t
    requires VoterOf(t.voterIds, uuid).Some? ==>
      var v := VoteRow(site, VoterOf(t.voterIds, uuid).value);
      t'.votes == if vote == 0 then RemoveVote(t.votes, v) else if v in t.votes then t.votes else t.votes + [v]
    requires vote != 0 ==> VoterOf(t.voterIds, uuid).Some?
    ensures vote == 0 ==> site !in VotesOf(t', uuid)
    ensures vote != 0 ==> site in VotesOf(t', uuid)
    ensures forall other :: other != site ==> (other in VotesOf(t', uuid) <==> other in VotesOf(t, uuid))
    ensures forall u, other :: u != uuid ==> (other in VotesOf(t', u) <==> other in VotesOf(t, u))
  {
    if VoterOf(t.voterIds, uuid).Some? {
      forall u | u != uuid && VoterOf(t.voterIds, u).Some?
        ensures VoterOf(t.voterIds, uuid).value != VoterOf(t.voterIds, u).value
      {
        VoterDistinct(t, uuid, u);
      }
    }
  }

  // ----- submission -----

  datatype SubmitError = AlreadyActive | IsBlocked | AlreadyQueued | SubmitFailed

  datatype SubmitRun = SubmitRun(result: Result<(), SubmitError>, tables: Tables, executed: nat)

  /** `submit_site`: three read calls (active, blocked, queued), each of
      which may fail or reject the site, then the two inserts. */
  function Submit(t: Tables, n: nat, faults: set<nat>, site: string,
                  compiles: string -> bool, isMatch: (string, string) -> bool): SubmitRun
  {
    if n in faults then SubmitRun(Err(SubmitFailed), t, n + 1)
    else if Active(t, site) then SubmitRun(Err(AlreadyActive), t, n + 1)
    else if n + 1 in faults then SubmitRun(Err(SubmitFailed), t, n + 2)
    else if Blocked(t.blocked, site, compiles, isMatch) then SubmitRun(Err(IsBlocked), t, n + 2)
    else if n + 2 in faults then SubmitRun(Err(SubmitFailed), t, n + 3)
    else if Queued(t, site) then SubmitRun(Err(AlreadyQueued), t, n + 3)
    else
      var o := Run(t, n + 3, faults, SubmitScript(site));
      SubmitRun(if o.ok then Ok(()) else Err(SubmitFailed), o.tables, o.executed)
  }

  /** The checks run in order and the first that matches decides: an active
      site is reported as such even when it is also blocked or queued, and a
      blocked one even when it is also queued. A rejection changes nothing. */
  lemma SubmitCheckOrder(t: Tables, n: nat, faults: set<nat>, site: string,
                         compiles: string -> bool, isMatch: (string, string) -> bool)
    ensures Submit(t, n, faults, site, compiles, isMatch).result == Err(AlreadyActive) <==>
      n !in faults && Active(t, site)
    ensures Submit(t, n, faults, site, compiles, isMatch).result == Err(IsBlocked) <==>
      FaultFree(faults, n, 2) && !Active(t, site) && Blocked(t.blocked, site, compiles, isMatch)
    ensures Submit(t, n, faults, site, compiles, isMatch).result == Err(AlreadyQueued) <==>
      FaultFree(faults, n, 3) && !Active(t, site) && !Blocked(t.blocked, site, compiles, isMatch) &&
      Queued(t, site)
    ensures Submit(t, n, faults, site, compiles, isMatch).result in {Err(AlreadyActive), Err(IsBlocked), Err(AlreadyQueued)} ==>
      Submit(t, n, faults, site, compiles, isMatch).tables == t
  {
    RunTwo(t, n + 3, faults, InsertSiteId(site), InsertQueued(site));
    assert FaultFree(faults, n, 2) <==> n !in faults && n + 1 !in faults;
    assert FaultFree(faults, n, 3) <==> n !in faults && n + 1 !in faults && n + 2 !in faults;
  }

  /** The two inserts of `submit_site` on a url not yet in `site_ids`. */
  lemma SubmitInserts(t: Tables, m: nat, faults: set<nat>, site: string)
    requires Valid(t) && IdOf(t.siteIds, site).None?
    ensures Run(t, m, faults, SubmitScript(site)).ok <==> m !in faults && m + 1 !in faults
    ensures Run(t, m, faults, SubmitScript(site)).ok ==>
      Run(t, m, faults, SubmitScript(site)).tables ==
        t.(siteIds := t.siteIds + [SiteId(t.nextSiteId, site)], nextSiteId := t.nextSiteId + 1,
           queue := t.queue + [QueueEntry(t.nextSiteId, true)])
  {
    RunTwo(t, m, faults, InsertSiteId(site), InsertQueued(site));
    var id := t.nextSiteId;
    var t1 := t.(siteIds := t.siteIds + [SiteId(id, site)], nextSiteId := id + 1);
    IdOfAppend(t.siteIds, site, id);
    assert id !in SiteIdSet(t);
    assert !InQueue(t.queue, id);
    assert Step(Outcome(t, m, true), faults, InsertSiteId(site)) ==
      if m in faults then Outcome(t, m + 1, false) else Outcome(t1, m + 1, true);
  }

  /** A url already in `site_ids` cannot be inserted again. */
  lemma SubmitInsertsKnown(t: Tables, m: nat, faults: set<nat>, site: string)
    requires IdOf(t.siteIds, site).Some?
    ensures !Run(t, m, faults, SubmitScript(site)).ok
  {
    RunTwo(t, m, faults, InsertSiteId(site), InsertQueued(site));
  }

  /** What a successfully submitted url looks like in the tables. */
  lemma SubmittedState(t: Tables, site: string)
    requires Valid(t) && IdOf(t.siteIds, site).None?
    ensures var t' := t.(siteIds := t.siteIds + [SiteId(t.nextSiteId, site)], nextSiteId := t.nextSiteId + 1,
                         queue := t.queue + [QueueEntry(t.nextSiteId, true)]);
      && site in PendingUrls(t'.siteIds, t'.queue)
      && Queued(t', site)
      && !Active(t', site)
      && Valid(t')
  {
    var id := t.nextSiteId;
    var t1 := t.(siteIds := t.siteIds + [SiteId(id, site)], nextSiteId := id + 1);
    var t' := t1.(queue := t.queue + [QueueEntry(id, true)]);
    SubmittedValid(t, site);
    PendingMeaning(t'.siteIds, t'.queue, site);
    assert SiteId(id, site) in t'.siteIds && QueueEntry(id, true) in t'.queue;
    assert !HasSiteRow(t'.sites, id);
  }

  /** The two inserts of a submission keep the tables consistent. */
  lemma SubmittedValid(t: Tables, site: string)
    requires Valid(t) && IdOf(t.siteIds, site).None?
    ensures Valid(t.(siteIds := t.siteIds + [SiteId(t.nextSiteId, site)], nextSiteId := t.nextSiteId + 1,
                     queue := t.queue + [QueueEntry(t.nextSiteId, true)]))
  {
    var id := t.nextSiteId;
    var t1 := t.(siteIds := t.siteIds + [SiteId(id, site)], nextSiteId := id + 1);
    InsertSiteIdKeepsValid(t, site);
    assert SiteId(id, site) in t1.siteIds;
    assert !InQueue(t1.queue, id);
    InsertQueuedKeepsValid(t1, id);
    assert t1.(queue := t1.queue + [QueueEntry(id, true)]) ==
      t.(siteIds := t.siteIds + [SiteId(t.nextSiteId, site)], nextSiteId := t.nextSiteId + 1,
         queue := t.queue + [QueueEntry(t.nextSiteId, true)]);
  }

  /** A successful submission adds the url with a fresh id and queues it for
      a scan; it succeeds exactly when all five calls go through, no check
      rejects the site and the url is not already in `site_ids`. */
  lemma SubmitEffect(t: Tables, n: nat, faults: set<nat>, site: string,
                     compiles: string -> bool, isMatch: (string, string) -> bool)
    requires Valid(t)
    ensures Submit(t, n, faults, site, compiles, isMatch).result == Ok(()) <==>
      FaultFree(faults, n, 5) && !Active(t, site) && !Blocked(t.blocked, site, compiles, isMatch) &&
      !Queued(t, site) && IdOf(t.siteIds, site).None?
    ensures Submit(t, n, faults, site, compiles, isMatch).result == Ok(()) ==>
      var t' := Submit(t, n, faults, site, compiles, isMatch).tables;
      && t' == t.(siteIds := t.siteIds + [SiteId(t.nextSiteId, site)], nextSiteId := t.nextSiteId + 1,
                  queue := t.queue + [QueueEntry(t.nextSiteId, true)])
      && site in PendingUrls(t'.siteIds, t'.queue)
      && Queued(t', site)
      && !Active(t', site)
      && Valid(t')
  {
    assert FaultFree(faults, n, 5) <==>
      n !in faults && n + 1 !in faults && n + 2 !in faults && n + 3 !in faults && n + 4 !in faults;
    if IdOf(t.siteIds, site).None? {
      SubmitInserts(t, n + 3, faults, site);
      SubmittedState(t, site);
    } else {
      SubmitInsertsKnown(t, n + 3, faults, site);
    }
  }

  lemma {:induction false} IdOfAppend(rows: seq<SiteId>, url: string, id: nat)
    requires IdOf(rows, url).None?
    ensures IdOf(rows + [SiteId(id, url)], url) == Some(id)
  {
    if rows != [] {
      IdOfAppend(rows[1..], url, id);
      assert (rows + [SiteId(id, url)])[1..] == rows[1..] + [SiteId(id, url)];
    }
  }

  /** Submitting the same url again right after a successful submission is
      refused as already queued. */
  lemma ResubmitIsQueued(t: Tables, n: nat, faults: set<nat>, site: string,
                         compiles: string -> bool, isMatch: (string, string) -> bool, m: nat)
    requires Valid(t)
    requires Submit(t, n, faults, site, compiles, isMatch).result == Ok(())
    requires FaultFree(faults, m, 3)
    ensures Submit(Submit(t, n, faults, site, compiles, isMatch).tables, m, faults, site, compiles, isMatch).result
      == Err(AlreadyQueued)
  {
    SubmitEffect(t, n, faults, site, compiles, isMatch);
    SubmitCheckOrder(t, n, faults, site, compiles, isMatch);
    SubmitCheckOrder(Submit(t, n, faults, site, compiles, isMatch).tables, m, faults, site, compiles, isMatch);
  }

  /** A rejected site keeps its queue entry, so submitting it again is
      refused (as blocked or as already queued) rather than re-queued. */
  lemma ResubmitAfterRejection(t: Tables, n: nat, faults: set<nat>, site: string, m: nat,
                               compiles: string -> bool, isMatch: (string, string) -> bool)
    requires Valid(t) && Queued(t, site) && !Active(t, site)
    requires Run(t, n, faults, MarkBadScript(site)).ok
    requires FaultFree(faults, m, 3)
    ensures Submit(Run(t, n, faults, MarkBadScript(site)).tables, m, faults, site, compiles, isMatch).result ==
      Err(if Blocked(t.blocked, site, compiles, isMatch) then IsBlocked else AlreadyQueued)
  {
    MarkBadEffect(t, n, faults, site);
    var t' := Run(t, n, faults, MarkBadScript(site)).tables;
    assert Active(t', site) == Active(t, site);
    SubmitCheckOrder(t', m, faults, site, compiles, isMatch);
  }

  // ----- the listing -----

  /** One row of the `get_sites` query. */
  datatype SiteData = SiteData(id: nat, url: string, size: nat, related: nat)

  /** A listed site with its position in the whole ranking (`offset`). */
  datatype Site = Site(offset: nat, id: nat, url: string, size: nat, related: nat)

  function SiteAt(offset: nat, row: SiteData): Site
  {
    Site(offset, row.id, row.url, row.size, row.related)
  }

  /** `get_sites` numbering: the counter starts at `skip` and advances for
      every row the query returns, before the row is read, so a row that
      fails to convert (None) is dropped but still uses up its number. */
  function Numbered(skip: nat, rows: seq<Option<SiteData>>): seq<Site>
  {
    if rows == [] then []
    else
      var last := rows[|rows| - 1];
      Numbered(skip, rows[..|rows| - 1]) +
        (if last.Some? then [SiteAt(skip + |rows|, last.value)] else [])
  }

  method NumberSites(skip: nat, rows: seq<Option<SiteData>>) returns (sites: seq<Site>)
    ensures sites == Numbered(skip, rows)
  {
    var offset := skip;
    sites := [];
    for i := 0 to |rows|
      invariant offset == skip + i
      invariant sites == Numbered(skip, rows[..i])
    {
      offset := offset + 1;
      assert rows[..i + 1][..i] == rows[..i];
      if rows[i].Some? {
        sites := sites + [SiteAt(offset, rows[i].value)];
      }
    }
    assert rows[..|rows|] == rows;
  }

  /** The listed sites are exactly the rows that converted, each numbered
      by its position after `skip`. */
  lemma {:induction false} NumberedMembers(skip: nat, rows: seq<Option<SiteData>>)
    ensures |Numbered(skip, rows)| <= |rows|
    ensures forall s :: s in Numbered(skip, rows) <==>
      exists k :: 0 <= k < |rows| && rows[k].Some? && s == SiteAt(skip + k + 1, rows[k].value)
  {
    if rows != [] {
      var init := rows[..|rows| - 1];
      NumberedMembers(skip, init);
      var p := Numbered(skip, init);
      forall s ensures s in Numbered(skip, rows) <==>
        exists k :: 0 <= k < |rows| && rows[k].Some? && s == SiteAt(skip + k + 1, rows[k].value)
      {
        if s in p {
          var k :| 0 <= k < |init| && init[k].Some? && s == SiteAt(skip + k + 1, init[k].value);
          assert rows[k] == init[k];
        }
        if exists k :: 0 <= k < |rows| && rows[k].Some? && s == SiteAt(skip + k + 1, rows[k].value) {
          var k :| 0 <= k < |rows| && rows[k].Some? && s == SiteAt(skip + k + 1, rows[k].value);
          if k < |init| {
            assert init[k] == rows[k];
          }
        }
      }
    }
  }

  /** The numbers increase strictly and lie between skip+1 and skip+|rows|. */
  lemma {:induction false} NumberedIncreasing(skip: nat, rows: seq<Option<SiteData>>)
    ensures forall i :: 0 <= i < |Numbered(skip, rows)| ==>
      skip < Numbered(skip, rows)[i].offset <= skip + |rows|
    ensures forall i, j :: 0 <= i < j < |Numbered(skip, rows)| ==>
      Numbered(skip, rows)[i].offset < Numbered(skip, rows)[j].offset
  {
    if rows != [] {
      NumberedIncreasing(skip, rows[..|rows| - 1]);
    }
  }

  /** When every row converts, the numbers are skip+1, skip+2, ... with no gap. */
  lemma {:induction false} NumberedWithoutGaps(skip: nat, rows: seq<Option<SiteData>>)
    requires forall k :: 0 <= k < |rows| ==> rows[k].Some?
    ensures |Numbered(skip, rows)| == |rows|
    ensures forall i :: 0 <= i < |rows| ==> Numbered(skip, rows)[i] == SiteAt(skip + i + 1, rows[i].value)
  {
    if rows != [] {
      NumberedWithoutGaps(skip, rows[..|rows| - 1]);
    }
  }

  /** `check_site_blocked`: the patterns in turn; one that does not compile
      is skipped, the first that matches ends the search. */
  method MatchesAnyPattern(patterns: seq<string>, site: string,
                           compiles: string -> bool, isMatch: (string, string) -> bool)
    returns (blocked: bool)
    ensures blocked == Blocked(patterns, site, compiles, isMatch)
  {
    for i := 0 to |patterns|
      invariant forall j :: 0 <= j < i ==> !(compiles(patterns[j]) && isMatch(patterns[j], site))
    {
      if !compiles(patterns[i]) {
        continue;
      }
      if isMatch(patterns[i], site) {
        return true;
      }
    }
    return false;
  }

  // ----- the repository as the program uses it -----

  datatype DbError = DbFailure

  /** The database behind the connection pool: its tables, the number of
      calls made so far, and which calls fail. */
  class Repository {
    var tables: Tables
    var executed: nat
    const faults: set<nat>

    constructor(t: Tables, faults: set<nat>)
      ensures tables == t && executed == 0 && this.faults == faults
    {
      tables := t;
      executed := 0;
      this.faults := faults;
    }

    /** `conn.execute(...)` of one statement. */
    method Execute(s: Stmt) returns (ok: bool)
      modifies this
      ensures Outcome(tables, executed, ok) == Step(Outcome(old(tables), old(executed), true), faults, s)
      ensures old(Valid(tables)) ==> Valid(tables)
    {
      var next := Apply(tables, s);
      if executed in faults || next.None? {
        executed := executed + 1;
        return false;
      }
      ApplyPreservesValid(tables, s);
      tables := next.value;
      executed := executed + 1;
      return true;
    }

    /** One read call: it may fail and changes no table. */
    method Query() returns (ok: bool)
      modifies this
      ensures tables == old(tables) && executed == old(executed) + 1
      ensures ok <==> old(executed) !in faults
    {
      ok := executed !in faults;
      executed := executed + 1;
    }

    method GetValidationQueue() returns (r: Result<seq<string>, DbError>)
      modifies this
      ensures tables == old(tables) && executed == old(executed) + 1
      ensures r == if old(executed) in faults then Err(DbFailure) else Ok(PendingUrls(tables.siteIds, tables.queue))
    {
      var ok := Query();
      if !ok {
        return Err(DbFailure);
      }
      return Ok(PendingUrls(tables.siteIds, tables.queue));
    }

    method GetVotes(uuid: string) returns (r: Result<seq<nat>, DbError>)
      modifies this
      ensures tables == old(tables) && executed == old(executed) + 1
      ensures r == if old(executed) in faults then Err(DbFailure) else Ok(VotesOf(tables, uuid))
    {
      var ok := Query();
      if !ok {
        return Err(DbFailure);
      }
      return Ok(VotesOf(tables, uuid));
    }

    method CheckSiteActive(site: string) returns (r: Result<bool, DbError>)
      modifies this
      ensures tables == old(tables) && executed == old(executed) + 1
      ensures r == if old(executed) in faults then Err(DbFailure) else Ok(Active(tables, site))
    {
      var ok := Query();
      if !ok {
        return Err(DbFailure);
      }
      return Ok(Active(tables, site));
    }

    method CheckSiteQueued(site: string) returns (r: Result<bool, DbError>)
      modifies this
      ensures tables == old(tables) && executed == old(executed) + 1
      ensures r == if old(executed) in faults then Err(DbFailure) else Ok(Queued(tables, site))
    {
      var ok := Query();
      if !ok {
        return Err(DbFailure);
      }
      return Ok(Queued(tables, site));
    }

    method CheckSiteBlocked(site: string, compiles: string -> bool, isMatch: (string, string) -> bool)
      returns (r: Result<bool, DbError>)
      modifies this
      ensures tables == old(tables) && executed == old(executed) + 1
      ensures r == if old(executed) in faults then Err(DbFailure)
                   else Ok(Blocked(tables.blocked, site, compiles, isMatch))
    {
      var ok := Query();
      if !ok {
        return Err(DbFailure);
      }
      var blocked := MatchesAnyPattern(tables.blocked, site, compiles, isMatch);
      return Ok(blocked);
    }

    method SubmitSite(site: string, compiles: string -> bool, isMatch: (string, string) -> bool)
      returns (r: Result<(), SubmitError>)
      modifies this
      ensures SubmitRun(r, tables, executed) == Submit(old(tables), old(executed), faults, site, compiles, isMatch)
    {
      ghost var t := tables;
      ghost var n := executed;
      var active := CheckSiteActive(site);
      if active.Err? {
        return Err(SubmitFailed);
      }
      if active.value {
        return Err(AlreadyActive);
      }
      var blocked := CheckSiteBlocked(site, compiles, isMatch);
      if blocked.Err? {
        return Err(SubmitFailed);
      }
      if blocked.value {
        return Err(IsBlocked);
      }
      var queued := CheckSiteQueued(site);
      if queued.Err? {
        return Err(SubmitFailed);
      }
      if queued.value {
        return Err(AlreadyQueued);
      }
      RunTwo(t, n + 3, faults, InsertSiteId(site), InsertQueued(site));
      var ok := Execute(InsertSiteId(site));
      if !ok {
        return Err(SubmitFailed);
      }
      ok := Execute(InsertQueued(site));
      if !ok {
        return Err(SubmitFailed);
      }
      return Ok(());
    }

    method GenerateId(uuid: string) returns (r: Result<(), DbError>)
      modifies this
      ensures Outcome(tables, executed, r.Ok?) == Run(old(tables), old(executed), faults, [InsertVoter(uuid)])
    {
      RunOne(tables, executed, faults, InsertVoter(uuid));
      var ok := Execute(InsertVoter(uuid));
      return if ok then Ok(()) else Err(DbFailure);
    }

    method CastVote(uuid: string, site: nat, vote: int) returns (r: Result<(), DbError>)
      modifies this
      ensures Outcome(tables, executed, r.Ok?) == Run(old(tables), old(executed), faults, CastVoteScript(uuid, site, vote))
    {
      var stmt := if vote == 0 then DeleteVote(site, uuid) else InsertVote(site, uuid);
      RunOne(tables, executed, faults, stmt);
      var ok := Execute(stmt);
      return if ok then Ok(()) else Err(DbFailure);
    }

    method MarkBad(site: string) returns (r: Result<(), DbError>)
      modifies this
      ensures Outcome(tables, executed, r.Ok?) == Run(old(tables), old(executed), faults, MarkBadScript(site))
    {
      RunOne(tables, executed, faults, ClearScan(site));
      var ok := Execute(ClearScan(site));
      return if ok then Ok(()) else Err(DbFailure);
    }

    method MarkBadSize(site: string, size: nat) returns (r: Result<(), DbError>)
      modifies this
      ensures Outcome(tables, executed, r.Ok?) == Run(old(tables), old(executed), faults, MarkBadSizeScript(site, size))
    {
      RunTwo(tables, executed, faults, AppendLog(site, size), ClearScan(site));
      var ok := Execute(AppendLog(site, size));
      if !ok {
        return Err(DbFailure);
      }
      ok := Execute(ClearScan(site));
      return if ok then Ok(()) else Err(DbFailure);
    }

    method MarkGood(site: string, size: nat) returns (r: Result<(), DbError>)
      modifies this
      ensures Outcome(tables, executed, r.Ok?) == Run(old(tables), old(executed), faults, MarkGoodScript(site, size))
    {
      RunTwo(tables, executed, faults, DeleteQueued(site), InsertSite(site, size));
      var ok := Execute(DeleteQueued(site));
      if !ok {
        return Err(DbFailure);
      }
      ok := Execute(InsertSite(site, size));
      return if ok then Ok(()) else Err(DbFailure);
    }

    /** Delete the site's links, then insert the new ones one by one. */
    method UpdateRelated(site: string, links: seq<RelatedLink>) returns (r: Result<(), DbError>)
      modifies this
      ensures Outcome(tables, executed, r.Ok?) == Run(old(tables), old(executed), faults, UpdateRelatedScript(site, links))
    {
      ghost var t := tables;
      ghost var n := executed;
      RunOne(t, n, faults, DeleteRelated(site));
      var ok := Execute(DeleteRelated(site));
      if !ok {
        RunStopsAtFailure(t, n, faults, [DeleteRelated(site)], RelatedInserts(site, links));
        return Err(DbFailure);
      }
      for i := 0 to |links|
        invariant Outcome(tables, executed, true) == Run(t, n, faults, UpdateRelatedScript(site, links[..i]))
      {
        UpdateRelatedScriptSnoc(site, links[..i + 1]);
        assert links[..i + 1][..i] == links[..i];
        RunAppend(t, n, faults, UpdateRelatedScript(site, links[..i]), InsertRelated(site, links[i]));
        ok := Execute(InsertRelated(site, links[i]));
        if !ok {
          RunStopsAtFailure(t, n, faults, UpdateRelatedScript(site, links[..i + 1]), RelatedInserts(site, links[i + 1..]) );
          RelatedInsertsSuffix(site, links, i + 1);
          return Err(DbFailure);
        }
      }
      assert links[..|links|] == links;
      return Ok(());
    }
  }

  /** The inserts of a list are those of a prefix followed by those of the rest. */
  lemma {:induction false} RelatedInsertsSuffix(url: string, links: seq<RelatedLink>, k: nat)
    requires k <= |links|
    ensures UpdateRelatedScript(url, links) ==
      UpdateRelatedScript(url, links[..k]) + RelatedInserts(url, links[k..])
    decreases |links|
  {
    if k == |links| {
      assert links[..k] == links;
      assert links[k..] == [];
    } else {
      var init := links[..|links| - 1];
      RelatedInsertsSuffix(url, init, k);
      UpdateRelatedScriptSnoc(url, links);
      assert init[..k] == links[..k];
      assert links[k..][..|links[k..]| - 1] == init[k..];
      assert links[k..][|links[k..]| - 1] == links[|links| - 1];
    }
  }
}
