# 10kbclub in Dafny

A model of the core of the 10KB Club: a site directory that only lists pages
whose total transfer weight is at most 10 240 bytes. The model covers:

- **Scan protocol** (`cloudflare.dfy`): the site is submitted to the URL
  scanner. The report is polled at most three times, twenty seconds apart.
  A site is acceptable when its transfer size is within the limit and the
  scanner's verdict is not malicious.
- **Discussion links** (`relatedlinks.dfy`): the Hacker News search and the
  Lobsters story search. Each keeps the entries whose url contains the site
  and probes each one's liveness, sleeping two seconds after each probe. The
  survivors are sorted stably by upvotes, highest first.
- **Repository** (`database.dfy`): the SQLite tables as sequences of rows,
  with every write function as a script of statements. The `Repository`
  class holds the tables and counts the calls it makes. A fault set says
  which calls fail for reasons outside the tables, so partial writes
  without a transaction are visible.
- **Validation workers** (`analyzer.dfy`): both the full worker (with
  related links) and the scan-only binary. Each sleeps, reads the queue,
  and gives each site a liveness check, a scan and one verdict write. Both
  run a given number of cycles of their endless loop.
- **Web helpers** (`web.dfy`): the sort order's text, the client address
  and the page links under the site list.
- **Request handlers** (`server.dfy`):
  - query normalisation in `/`;
  - the vote range check in `/vote/`;
  - the `site_ids` list and its intersection with the stored votes in `/votes/`;
  - the hex voter id of `/id/`.

Shared definitions live in `basics.dfy` (Option, Result, replies, substring
search, `take(n)`) and `numeric.dfy` (decimal printing, and `parse` for
unsigned integers).

All I/O is given as input:

- network replies are values, already decoded from JSON or extracted from
  HTML;
- the liveness and link probes are functions from a url to a status;
- the random bytes of a voter id are a parameter;
- the client address is the result of `get_client_ip`;
- sleeps, submissions, polls, probes and repository writes become events
  of a trace.

Two behaviours of the code that the model keeps as written:

- A failed repository write or discussion search ends the worker through
  `?` (`src/analyzer.rs:60-111`, `src/bin/tenkb_analyzer.rs:60-75`); only a
  failed queue read is logged and retried. `Analyzer.CyclesTrace` states
  this behaviour.
- A Lobsters record is probed before its comment count is checked
  (`src/relatedlinks.rs:162-170`), so a dead record is dropped whatever its
  count, and a live zero-comment record skips the two-second sleep.

## Model

| member | source | states |
|---|---|---|
| Basics.Cap | src/analyzer.rs:89-92 | `take(5)`: at most n elements, all of a short list, exactly n of a longer one, each equal to the original at its position |
| Numeric.Decimal | src/lib.rs:96 | a number's text is non-empty and made of decimal digits only |
| Numeric.ParseUnsigned | src/bin/tenkb_server.rs:231 | `parse::<u32>()` succeeds only with a value below 2^32 |
| Numeric.ParseMeaning | src/bin/tenkb_server.rs:231 | a parse succeeds exactly on an optional `+` followed by one or more digits whose value is below the limit |
| Numeric.DecimalValue | src/lib.rs:96 | the printed digits denote the number printed |
| Numeric.ParseDecimal | src/bin/tenkb_server.rs:231 | printing a number below the limit and parsing it back gives the number |
| Numeric.DecimalInjective | src/lib.rs:96 | different numbers print differently |
| Cloudflare.Urlscan | src/cloudflare.rs:87-172 | the submit-then-poll method: its result and trace are those of the protocol function, with every early return |
| Cloudflare.Rounds | src/cloudflare.rs:122-137 | n poll rounds make 2n events |
| Cloudflare.RoundsShape | src/cloudflare.rs:122-137 | each round is a 20-second delay followed by a poll for the submission's uuid |
| Cloudflare.FirstSettled | src/cloudflare.rs:139-143 | the index of the first non-202 reply: every earlier reply is 202, and the reply at that index is not |
| Cloudflare.PollLoopOutcome | src/cloudflare.rs:122-171 | the first non-202 reply decides the poll phase: one round per reply up to and including it; if every reply is 202, one round per reply and "unknown error" |
| Cloudflare.VerdictBoundary | src/cloudflare.rs:152-168 | acceptable iff size <= 10 240 and not malicious; the reported size is the transfer size whatever the verdict; 10 240 passes and 10 241 fails |
| Cloudflare.SubmitFailureIssuesNoPoll | src/cloudflare.rs:93-116 | a bad token, a transport failure, a non-200 submit status or success = false ends in an error with no delay and no poll |
| Cloudflare.PollBudget | src/cloudflare.rs:122-143 | after an accepted submission there are one to three rounds, continuing exactly while replies are 202 |
| Cloudflare.ThreePendingTimesOut | src/cloudflare.rs:122-171 | three 202 replies end in an error, never a verdict |
| Cloudflare.UnexpectedStatusStops | src/cloudflare.rs:139-143 | a poll status other than 200 and 202 ends the protocol at that poll with that status |
| Cloudflare.CompletedScan | src/cloudflare.rs:139-168 | a verdict comes exactly when a 200 report with success = true follows only 202 replies, and it is that report's verdict |
| RelatedLinks.InsertKeepsOrder | src/relatedlinks.rs:103 | inserting into a list sorted by upvotes keeps it sorted and adds exactly that element |
| RelatedLinks.InsertWithUpvotes | src/relatedlinks.rs:103 | inserting keeps the relative order of links with equal upvotes |
| RelatedLinks.SortOrdersAndPermutes | src/relatedlinks.rs:103 | `sort_by(upvotes desc)` gives a non-increasing permutation of its input |
| RelatedLinks.SortIsStable | src/relatedlinks.rs:103 | links with equal upvotes keep their search order |
| RelatedLinks.HnKeptMembers | src/relatedlinks.rs:75-98 | a link is kept exactly when it comes from a hit whose url contains the site and is live |
| RelatedLinks.HackernewsResult | src/relatedlinks.rs:67-105 | on a 200 reply the result is the kept links sorted by upvotes: a permutation of them in non-increasing order |
| RelatedLinks.HnKeepsUncommented | src/relatedlinks.rs:85-98 | a hit with zero comments is still kept when it matches and is live |
| RelatedLinks.HnThrottle | src/relatedlinks.rs:76-100 | only urls that contain the site are probed, and every probe is followed by a two-second sleep |
| RelatedLinks.Hackernews | src/relatedlinks.rs:58-106 | the filter-probe-push-sleep loop and sort return what the search function defines |
| RelatedLinks.LobstersKeptMembers | src/relatedlinks.rs:151-180 | a link is kept exactly when its record's url contains the site, is live and has a comment count that parses and is not 0 |
| RelatedLinks.LobstersResult | src/relatedlinks.rs:126-187 | on a 200 reply the result is the kept links sorted by upvotes: a permutation of them in non-increasing order |
| RelatedLinks.UnparseableCommentsDropped | src/relatedlinks.rs:165-170 | an unparseable comment count becomes 0, so the record is dropped |
| RelatedLinks.LobstersThrottle | src/relatedlinks.rs:158-182 | only urls that contain the site are probed, and every sleep follows a probe |
| RelatedLinks.SearchFailures | src/relatedlinks.rs:64-69 | a transport failure or non-200 status is an error for both sources, and so is a site url without a host for Lobsters |
| RelatedLinks.Lobsters | src/relatedlinks.rs:108-188 | the filter-probe-parse-push-sleep loop and sort return what the search function defines |
| Database.IdOf | src/database.rs:282 | a found id is the id of a row with that url; when none is found, no row has the url |
| Database.VoterOf | src/database.rs:239 | a found id is the id of a row with that uuid; when none is found, no row has the uuid |
| Database.RemoveQueued | src/database.rs:308 | the delete keeps exactly the entries of other ids |
| Database.RemoveRelatedMembers | src/database.rs:351 | the delete keeps exactly the related rows of other sites |
| Database.RemoveVote | src/database.rs:241-242 | the unvote removes exactly that (site, voter) pair |
| Database.ClearScanOf | src/database.rs:281-282 | clearing the scan flag keeps every entry in place and clears only the flag of that id |
| Database.RunStopsAtFailure | src/database.rs:355-369 | once a statement has failed, nothing after it runs |
| Database.RunKeepsValid | src/database.rs:278-384 | every write script keeps the keys unique and the references resolved, whichever calls fail |
| Database.ApplyKeepsValid | src/database.rs:278-384 | each single statement the database accepts keeps the keys unique and the references resolved |
| Database.RemoveQueuedEffect | src/database.rs:308-311 | deleting a site's queue entry takes exactly that url out of the queue and the pending list; every other url keeps its place |
| Database.IdOfUnique | src/database.rs:282 | with unique urls the sub-query's id is the only id of that url |
| Database.ValidCount | src/database.rs:109-122 | the site count is at most the number of rows; it is 0 iff no row is valid and full iff every row is |
| Database.MarkGoodCounts | src/database.rs:304-319 | an accepted site raises the site count by one |
| Database.SitesVotedBy | src/database.rs:256-265 | a site is listed exactly when the voter has a vote row for it |
| Database.PendingMeaning | src/database.rs:267-276 | a url is in the validation queue listing exactly when it has a site id whose entry still asks for a scan |
| Database.ClearScanMembers | src/database.rs:281-282 | clearing the flag keeps every other site's entries, leaves no entry of the site asking for a scan, and keeps the site in the queue |
| Database.ClearScanPending | src/database.rs:278-287 | only that site stops being pending; every other site's pending state is unchanged |
| Database.MarkBadEffect | src/database.rs:278-287 | one call; on success the entry stays but stops asking for a scan, other sites and other tables are unchanged |
| Database.MarkBadSizeEffect | src/database.rs:289-302 | the failure is logged, then the flag is cleared; an unknown url fails at the log insert |
| Database.MarkBadSizeInterrupted | src/database.rs:289-302 | without a transaction, a failed second call leaves the log row and the site still pending |
| Database.MarkGoodEffect | src/database.rs:304-319 | the entry is deleted and a valid sites row with the size is added, so the site is active and no longer queued; it fails for an unknown url or an existing sites row |
| Database.MarkGoodInterrupted | src/database.rs:304-319 | a failed insert after the delete leaves the site neither queued nor newly active |
| Database.UpdateRelatedRun | src/database.rs:343-372 | it succeeds exactly when none of its 1 + n calls faults, and then the site's rows are replaced by the list's rows |
| Database.UpdateRelatedEffect | src/database.rs:343-372 | on success the site's links are exactly the list, in order; other sites' links and other tables are unchanged; an unknown url succeeds only for an empty list |
| Database.UpdateRelatedIdempotent | src/database.rs:343-372 | repeating the update with the same list leaves the tables as they were |
| Database.CastVoteEffect | src/database.rs:232-254 | vote 0 removes the pair and any other vote adds it once; it fails on a fault, or for a non-zero vote when the voter or site is unknown; only the votes change |
| Database.CastVoteOutcome | src/database.rs:232-254 | an unvote fails only on a fault; a vote also fails for an unknown voter or site; a failure changes nothing, and success changes only the votes table as described |
| Database.CastVoteVotes | src/database.rs:232-265 | after a successful call the voter's listed sites include the site exactly for a non-zero vote; other sites and other voters' lists are unchanged |
| Database.SubmitCheckOrder | src/database.rs:139-159 | the checks run active, blocked, queued, and the first that matches decides; a rejection changes nothing |
| Database.SubmitInserts | src/database.rs:161-171 | on a new url the two inserts succeed exactly without faults, adding a fresh id and a queue entry that asks for a scan |
| Database.SubmitInsertsKnown | src/database.rs:161-165 | a url already in `site_ids` cannot be inserted again |
| Database.SubmittedState | src/database.rs:161-171 | a submitted url is queued, pending and not active, and the tables stay consistent |
| Database.SubmittedValid | src/database.rs:161-171 | the two inserts of a new url keep the tables consistent |
| Database.SubmitEffect | src/database.rs:139-174 | a submission succeeds exactly when all five calls go through, no check rejects it and the url is new |
| Database.ResubmitIsQueued | src/database.rs:154-159 | submitting the same url again right after success is refused as already queued |
| Database.ResubmitAfterRejection | src/database.rs:147-159 | a rejected site keeps its queue entry, so a resubmission is refused, not re-queued |
| Database.NumberSites | src/database.rs:89-106 | the numbering loop of `get_sites` returns what the numbering function defines |
| Database.NumberedMembers | src/database.rs:94-106 | the listed sites are exactly the rows that converted, each numbered by its position after the skip |
| Database.NumberedIncreasing | src/database.rs:94-106 | the numbers increase strictly and lie between skip+1 and skip+rows |
| Database.NumberedWithoutGaps | src/database.rs:94-106 | when every row converts, the numbers are skip+1, skip+2, … |
| Database.MatchesAnyPattern | src/database.rs:188-208 | the pattern loop skips patterns that do not compile and answers whether some pattern matches |
| Database.Repository.constructor | src/database.rs:33-56 | a repository over the given tables and faults, with no calls made yet |
| Database.Repository.Execute | src/database.rs:280-284 | one statement: the tables and the call count advance as one step of a script, and consistent tables stay consistent |
| Database.Repository.Query | src/database.rs:268-275 | one read call: it may fail and changes no table |
| Database.Repository.GetValidationQueue | src/database.rs:267-276 | the pending urls in `site_ids` order, or an error on a fault |
| Database.Repository.GetVotes | src/database.rs:256-265 | the voter's voted sites, or an error on a fault |
| Database.Repository.CheckSiteActive | src/database.rs:176-186 | whether the url joins a valid sites row |
| Database.Repository.CheckSiteQueued | src/database.rs:210-220 | whether the url has a queue entry |
| Database.Repository.CheckSiteBlocked | src/database.rs:188-208 | whether some stored pattern compiles and matches |
| Database.Repository.SubmitSite | src/database.rs:139-174 | the new state and result are those of the submission function |
| Database.Repository.GenerateId | src/database.rs:222-230 | inserts a voter row for the uuid |
| Database.Repository.CastVote | src/database.rs:232-254 | runs the vote or unvote statement as the script defines |
| Database.Repository.MarkBad | src/database.rs:278-287 | runs the flag-clearing script |
| Database.Repository.MarkBadSize | src/database.rs:289-302 | runs the log-then-clear script |
| Database.Repository.MarkGood | src/database.rs:304-319 | runs the delete-then-insert script |
| Database.Repository.UpdateRelated | src/database.rs:343-372 | the delete, then the inserts one by one, stopping at the first failure, as the script defines |
| Analyzer.Combined | src/analyzer.rs:89-106 | the stored list is at most ten links: at most five Hacker News links first, then at most five Lobsters links, each a prefix of its source |
| Analyzer.IssueCall | src/analyzer.rs:60 | one repository write follows the write function: its event, and a failure becomes the worker's error |
| Analyzer.StoreRelated | src/analyzer.rs:85-111 | the two searches and the related-links write of an accepted site follow the lookup function |
| Analyzer.ProcessSite | src/analyzer.rs:54-111 | one site's liveness check, scan, verdict and lookups follow the per-site function |
| Analyzer.ProcessSites | src/analyzer.rs:54-112 | the sites in queue order, stopping at the first error |
| Analyzer.ValidateQueue | src/analyzer.rs:44-112 | the queue read (a failure only logged), then its sites |
| Analyzer.RunCycle | src/analyzer.rs:36-112 | one turn of the loop: the sleep except on the first turn, then the queue, as one step of the cycles function |
| Analyzer.Analyze | src/analyzer.rs:33-114 | the endless loop for a given number of cycles: its state is that of the cycles function |
| Analyzer.SitesStopAfterError | src/analyzer.rs:60-111 | after an error, no further site changes anything |
| Analyzer.StopsAfterError | src/analyzer.rs:60-111 | once an error has ended the worker, further cycles change nothing |
| Analyzer.CyclesTrace | src/analyzer.rs:33-111 | no sleep before the first cycle and the variant's sleep (60 s or 1800 s) before every later queue read; k error-free cycles read the queue k times; a failure is the last event, exactly when the worker stopped; the scan-only variant never writes related links |
| Analyzer.LivenessFirst | src/analyzer.rs:56-63 | every site's work opens with the liveness check, which counts as live exactly on status 200 |
| Analyzer.DeadSite | src/analyzer.rs:56-63 | a dead site gets `mark_bad` and nothing else |
| Analyzer.LiveSiteEvents | src/analyzer.rs:65-111 | a live site: the check, the scan, one verdict write, then possibly the lookups |
| Analyzer.LiveSiteVerdict | src/analyzer.rs:65-83 | `mark_bad` for a failed scan, `mark_bad_size` with the size for an unacceptable one, `mark_good` with the size for an acceptable one |
| Analyzer.RelatedAfterGood | src/analyzer.rs:85-111 | related links are written only after `mark_good`, last, in the full variant, and they are the combined list |
| Analyzer.VerdictLeavesQueue | src/analyzer.rs:60-80 | a successful verdict write takes the site out of the pending queue and moves no other site |
| Analyzer.LookupsKeepQueue | src/analyzer.rs:85-111 | the lookups and the related-links write leave the pending queue unchanged |
| Analyzer.SiteEffect | src/analyzer.rs:54-111 | a site handled without error has left the queue with its verdict stored, an accepted site is active, and the repository stays consistent |
| Analyzer.SitesEffect | src/analyzer.rs:54-112 | every site of an error-free pass has left the queue |
| Analyzer.CycleClearsQueue | src/analyzer.rs:44-112 | an error-free cycle takes every site it read out of the queue |
| Web.SortNameRoundTrip | src/lib.rs:35-50 | a sort order's text reads back as that order, and only a variant's text reads as an order |
| Web.HeaderText | src/lib.rs:70-75 | the header converts exactly when every byte is visible ASCII or tab, and then byte for byte |
| Web.HeaderTakesPrecedence | src/lib.rs:67-76 | with the header present the answer ignores the peer address; an unreadable header is an error |
| Web.ClientIpFailure | src/lib.rs:67-79 | the address fails iff the header is unreadable, or there is neither header nor peer; otherwise the peer address is used |
| Web.PageUri | src/lib.rs:96 | a page address is never empty |
| Web.PageUriInjective | src/lib.rs:96 | different pages get different addresses |
| Web.PagesIsCeiling | src/lib.rs:90 | with a positive page size the page count is the ceiling of count / paginate, at least two |
| Web.LinksUpTo | src/lib.rs:92-104 | the links of pages 1 to k, each the link of its page |
| Web.PageLinks | src/lib.rs:82-122 | no links when every site fits; otherwise one link per page numbered from 1, empty exactly for the current page, and prev/next exactly when a page exists before/after |
| Web.GetPageLinks | src/lib.rs:82-122 | the push loop returns what the page-links function defines |
| Web.ZeroPageSizeFloods | src/lib.rs:88-92 | as written, page size 0 with one site asks for 2^64 - 1 links |
| Web.PagesAtMostCount | src/lib.rs:90 | with a positive page size there are never more pages than sites |
| Web.GuardedPageLinks | src/lib.rs:88-92 | the corrected links: never more links than sites, the same as written for a positive page size |
| Server.NormalizePage | src/bin/tenkb_server.rs:106-109 | a missing page and page 0 mean page 1; any other page is kept |
| Server.OffsetMeaning | src/bin/tenkb_server.rs:112 | the first page has offset 0; without wrap-around consecutive pages follow each other by one page size |
| Server.Normalize | src/bin/tenkb_server.rs:106-112 | page as normalised, sort by votes and 25 per page unless given, offset of that page |
| Server.NormalizeIdempotent | src/bin/tenkb_server.rs:106-112 | the normalised values sent back as a query normalise to themselves |
| Server.Index | src/bin/tenkb_server.rs:100-121 | the client address fails first, then the count read; the links never outnumber the valid sites |
| Server.IndexLinks | src/bin/tenkb_server.rs:118-121 | with sites over one page, one link per page and an empty link for the current page |
| Server.InvalidVoteFirst | src/bin/tenkb_server.rs:193-195 | a vote outside 0..=1 is refused before the address and before any database call |
| Server.VoteEffect | src/bin/tenkb_server.rs:197-203 | an accepted vote 1 records the site among the voter's votes and vote 0 removes it; a failure leaves the tables unchanged |
| Server.SplitCommas | src/bin/tenkb_server.rs:230 | at least one piece, and no piece contains a comma |
| Server.JoinSplit | src/bin/tenkb_server.rs:230 | rejoining the pieces with commas gives the text back |
| Server.SplitJoin | src/bin/tenkb_server.rs:230 | splitting comma-free pieces joined with commas gives the pieces back |
| Server.ParseIds | src/bin/tenkb_server.rs:231-232 | at most one id per piece, each below 2^32 |
| Server.ParseIdsMembers | src/bin/tenkb_server.rs:231-232 | an id is read exactly when some piece parses to it |
| Server.IdsText | src/bin/tenkb_server.rs:228-232 | the ids as a client lists them, in decimal |
| Server.SiteIdsRoundTrip | src/bin/tenkb_server.rs:228-232 | a comma-separated list of u32 ids reads back as the same ids in the same order |
| Server.RestrictCounts | src/bin/tenkb_server.rs:246-250 | each requested site keeps all its stored occurrences and every other site is dropped |
| Server.FilterVotes | src/bin/tenkb_server.rs:246-250 | the push loop returns the stored votes that were requested, in stored order |
| Server.Votes | src/bin/tenkb_server.rs:221-253 | an address failure comes first; with an address, the reply is a database error exactly on a fault |
| Server.VotesAnswer | src/bin/tenkb_server.rs:244-250 | the reply lists exactly the voter's stored votes that are among the requested ids |
| Server.HexDigit | src/bin/tenkb_server.rs:156 | a nibble prints as a lower-case hex digit |
| Server.HexValue | src/bin/tenkb_server.rs:156 | a hex digit's value is below 16 |
| Server.HexEncode | src/bin/tenkb_server.rs:156 | two lower-case hex digits per byte |
| Server.HexRoundTrip | src/bin/tenkb_server.rs:153-156 | decoding the id gives the random bytes back, so distinct seeds give distinct ids |
| Server.IdIsRegistered | src/bin/tenkb_server.rs:151-162 | an id handed out is 64 lower-case hex digits and is registered as a voter |

## Left out

- HTTP, TLS, JSON decoding, HTML templating and the `Url` parser are not modelled. Replies are given already decoded, and the host of a site url is given as an option.
- The Lobsters story regex is not modelled. Its captures are given as records, in page order.
- Sleeps do not wait. They are events in the traces.
- Logging (`info!`, `debug!`, `error!`) is not modelled. It has no effect on state.
- Configuration loading and `init_db` are not modelled: the path check, the pool and the foreign-key pragma. The repository constructor stands for a ready pool.
- The SQL schema is not part of the source. The model takes as given the constraints the queries rely on (see `database.dfy`).
- The model takes two further facts about the database as given, and the source does not guarantee either. First, the id columns that refer to `site_ids` and `voter_ids` are NOT NULL. Second, foreign keys are enforced on every pooled connection, although `init_db` runs `PRAGMA foreign_keys = ON` on only one connection (`src/database.rs:46-53`). Without them, an id sub-query that finds no row would insert NULL instead of failing. These members rely on the refusal:
  - `Database.Apply`, for the refusals of `InsertVote`, `InsertSite`, `AppendLog` and `InsertRelated`;
  - `Database.CastVoteEffect` and `Database.CastVoteOutcome`, where an unknown voter or site is refused;
  - `Database.MarkBadSizeEffect`, where an unknown url fails at the log insert;
  - `Database.MarkGoodEffect`, where an unknown url fails;
  - `Database.UpdateRelatedEffect`, where an unknown url succeeds only for an empty list.
  The model does not represent the NULL rows.
- Timestamps (`DATETIME()`) and the date columns are not modelled.
- `get_sites` ordering (`ORDER BY` votes, size or date) and the `LIMIT` window are not modelled. Only the numbering of the rows it returns (`Database.NumberSites`) is.
- `get_site_url` and `get_related` are not modelled as handlers. `get_related` appears only as `Database.RelatedOf`, the stored links of one site.
- The value of a regex block pattern is not modelled. Compilation and matching are oracles.
- Sizes are whole numbers. A `u32` converted to `f64` is exact. The `f32` casts in `get_page_links` are exact for counts below 2^24, and the model treats them as exact.
- `Web.PageUri`: a whole `f32` page size prints without a fraction, so the model prints it as a decimal integer.
- Both workers' loops never end. The model runs a given number of cycles.
- Sites in one cycle are handled one after another, as the code does.
- The random bytes of `/id/` are a parameter.
- The peer address is given as its text.
- `get_client_ip` follows the `HeaderValue::to_str` rule of the http crate as it applies to the header's bytes.
- Server.Offset: wrap-around of `paginate * (page - 1)` is modelled as a release build's `usize` multiplication. A debug build would panic instead.
- Server.Index: models `index` up to the page links and uses the corrected page links of `Web.GuardedPageLinks`. The listing of sites and the rendering are left out.
- Server.Votes: the voter id is not validated beyond the sub-query, as in the source.
- The static file handlers, the submission form handler and the server setup in `src/bin/tenkb_server.rs` are not modelled.
- Database.ValidCount: the count is unbounded. The source reads it as `usize`.

## Findings

| source | as written | input that shows it | evidently intended | confidence | as-written member | corrected member |
|---|---|---|---|---|---|---|
| src/lib.rs:88-92 with src/bin/tenkb_server.rs:111,121 | a page size of 0 passes the `count > paginate` guard; `count / 0.0` is infinity, and `ceil() as usize` saturates it to `usize::MAX`, so the loop pushes 2^64 - 1 page links | `GET /?paginate=0` with one or more valid sites | never more page links than sites | not executed | Web.ZeroPageSizeFloods | Web.GuardedPageLinks |
