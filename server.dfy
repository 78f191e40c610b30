/** The request handlers of the web server (src/bin/tenkb_server.rs): how
    `/` normalises its query, the vote range check of `/vote/`, how
    `/votes/` reads its list of site ids and answers with the stored votes
    among them, and the voter id `/id/` hands out.

    The client address is given already resolved by `get_client_ip`; the
    database is the repository of the Database module, whose calls may fail
    as given by `faults`. */
module Server {
  import opened Basics
  import opened Numeric
  import Web
  import Database

  type Usize = n: nat | n < USIZE_LIMIT

  datatype HandlerError = InvalidVote | ClientIpFailed(error: Web.IpError) | DbFailure

  // ----- `/` -----

  /** The query of `/`, as deserialised. */
  datatype ViewRequest = ViewRequest(sortby: Option<Web.SortOptions>, paginate: Option<Usize>, page: Option<Usize>)

  /** The values the index page is built from. */
  datatype ViewParams = ViewParams(page: Usize, sortby: Web.SortOptions, paginate: Usize, offset: Usize)

  const DEFAULT_PAGINATE: Usize := 25

  /** A missing page and page 0 both mean the first page. */
  function NormalizePage(page: Option<Usize>): (r: Usize)
    ensures r >= 1
    ensures page == None || page == Some(0) ==> r == 1
    ensures page.Some? && page.value != 0 ==> r == page.value
  {
    match page
    case None => 1
    case Some(p) => if p == 0 then 1 else p
  }

  /** `paginate * (page - 1)` in `usize`, which wraps around at 2^64 in a
      release build. */
  function Offset(paginate: Usize, page: Usize): Usize
    requires page >= 1
  {
    (paginate * (page - 1)) % USIZE_LIMIT
  }

  /** The first page starts at offset 0; without wrap-around the offset is
      the number of sites on the earlier pages, so consecutive pages follow
      each other without gap or overlap. */
  lemma OffsetMeaning(paginate: Usize, page: Usize)
    requires page >= 1
    ensures page == 1 ==> Offset(paginate, page) == 0
    ensures paginate * (page - 1) < USIZE_LIMIT ==> Offset(paginate, page) == paginate * (page - 1)
    ensures paginate * page < USIZE_LIMIT && page + 1 < USIZE_LIMIT ==>
      Offset(paginate, page + 1) == Offset(paginate, page) + paginate
  {
    if paginate * page < USIZE_LIMIT {
      assert paginate * (page - 1) <= paginate * page by {
        assert paginate * page == paginate * (page - 1) + paginate;
      }
    }
  }

  /** The normalisation at the start of `index`: page as above, sort by
      votes and 25 sites per page unless asked otherwise. */
  function Normalize(q: ViewRequest): (r: ViewParams)
    ensures r.page == NormalizePage(q.page)
    ensures r.sortby == (if q.sortby.Some? then q.sortby.value else Web.Votes)
    ensures r.paginate == (if q.paginate.Some? then q.paginate.value else DEFAULT_PAGINATE)
    ensures r.offset == Offset(r.paginate, r.page)
  {
    var page := NormalizePage(q.page);
    var paginate := if q.paginate.Some? then q.paginate.value else DEFAULT_PAGINATE;
    ViewParams(page, if q.sortby.Some? then q.sortby.value else Web.Votes, paginate, Offset(paginate, page))
  }

  /** Normalising is stable: the normalised values, sent back as a query,
      normalise to themselves. */
  lemma NormalizeIdempotent(q: ViewRequest)
    ensures var p := Normalize(q);
      Normalize(ViewRequest(Some(p.sortby), Some(p.paginate), Some(p.page))) == p
  {
  }

  /** The index page, without its rendering. */
  datatype IndexPage = IndexPage(params: ViewParams, links: Web.PageView)

  /** `index` up to the page links: the client address is resolved before
      the site count is read, with database call number `n`; the page links
      use a page size of 0 as if it held every site (see
      `Web.GuardedPageLinks`). */
  function Index(q: ViewRequest, clientIp: Result<string, Web.IpError>,
                 t: Database.Tables, n: nat, faults: set<nat>): (r: Result<IndexPage, HandlerError>)
    ensures clientIp.Err? ==> r == Err(ClientIpFailed(clientIp.error))
    ensures clientIp.Ok? ==> (r == Err(DbFailure) <==> n in faults)
    ensures r.Ok? ==> r.value.params == Normalize(q)
    ensures r.Ok? ==> |r.value.links.links| <= Database.ValidCount(t.sites)
  {
    var p := Normalize(q);
    if clientIp.Err? then Err(ClientIpFailed(clientIp.error))
    else if n in faults then Err(DbFailure)
    else Ok(IndexPage(p, Web.GuardedPageLinks(p.page, Database.ValidCount(t.sites), p.paginate, p.sortby)))
  }

  /** With a page size that does not fit every valid site, the index shows
      one link per page, and the link of the page shown is empty. */
  lemma IndexLinks(q: ViewRequest, ip: string, t: Database.Tables, n: nat, faults: set<nat>)
    requires n !in faults
    ensures var r := Index(q, Ok(ip), t, n, faults);
      var p := Normalize(q);
      var count := Database.ValidCount(t.sites);
      0 < p.paginate < count ==>
        && |r.value.links.links| == Web.Pages(count, p.paginate)
        && (p.page <= |r.value.links.links| ==> r.value.links.links[p.page - 1].uri == "")
  {
  }

  // ----- `/vote/` -----

  datatype VoteForm = VoteForm(voterId: string, siteId: nat, vote: int)

  datatype VoteRun = VoteRun(result: Result<(), HandlerError>, tables: Database.Tables, executed: nat)

  /** `vote`: a vote outside 0..=1 is refused first, then the client
      address is resolved, then the vote is cast. */
  function Vote(t: Database.Tables, n: nat, faults: set<nat>, form: VoteForm,
                clientIp: Result<string, Web.IpError>): VoteRun
  {
    if !(0 <= form.vote <= 1) then VoteRun(Err(InvalidVote), t, n)
    else if clientIp.Err? then VoteRun(Err(ClientIpFailed(clientIp.error)), t, n)
    else
      var o := Database.Run(t, n, faults, Database.CastVoteScript(form.voterId, form.siteId, form.vote));
      VoteRun(if o.ok then Ok(()) else Err(DbFailure), o.tables, o.executed)
  }

  /** An out-of-range vote is refused before any database call, whatever
      the client address. */
  lemma InvalidVoteFirst(t: Database.Tables, n: nat, faults: set<nat>, form: VoteForm,
                         clientIp: Result<string, Web.IpError>)
    requires form.vote < 0 || form.vote > 1
    ensures Vote(t, n, faults, form, clientIp) == VoteRun(Err(InvalidVote), t, n)
  {
  }

  /** An accepted vote of 1 records the site among the voter's votes and a
      vote of 0 takes it out; a failed vote leaves the tables as they were. */
  lemma VoteEffect(t: Database.Tables, n: nat, faults: set<nat>, form: VoteForm, ip: string)
    requires Database.Valid(t)
    ensures var r := Vote(t, n, faults, form, Ok(ip));
      && (r.result.Err? ==> r.tables == t)
      && (r.result.Ok? && form.vote == 1 ==> form.siteId in Database.VotesOf(r.tables, form.voterId))
      && (r.result.Ok? && form.vote == 0 ==> form.siteId !in Database.VotesOf(r.tables, form.voterId))
      && (r.result.Ok? ==> r.tables == t.(votes := r.tables.votes))
  {
    if 0 <= form.vote <= 1 {
      Database.CastVoteEffect(t, n, faults, form.voterId, form.siteId, form.vote);
    }
  }

  // ----- `/votes/` -----

  /** `str::split(",")`: the pieces between commas, in order. The empty
      string is one empty piece. */
  function SplitCommas(s: string): (r: seq<string>)
    ensures |r| >= 1
    ensures forall i :: 0 <= i < |r| ==> ',' !in r[i]
  {
    if s == [] then [""]
    else
      var init := SplitCommas(s[..|s| - 1]);
      var c := s[|s| - 1];
      if c == ',' then init + [""]
      else init[..|init| - 1] + [init[|init| - 1] + [c]]
  }

  /** The pieces rejoined with commas in between. */
  function JoinCommas(pieces: seq<string>): string
    requires |pieces| >= 1
  {
    if |pieces| == 1 then pieces[0]
    else JoinCommas(pieces[..|pieces| - 1]) + "," + pieces[|pieces| - 1]
  }

  /** Splitting and rejoining gives the text back. */
  lemma {:induction false} JoinSplit(s: string)
    ensures JoinCommas(SplitCommas(s)) == s
    decreases |s|
  {
    if s != [] {
      var prefix := s[..|s| - 1];
      var c := s[|s| - 1];
      var init := SplitCommas(prefix);
      JoinSplit(prefix);
      assert s == prefix + [c];
      if c == ',' {
        assert SplitCommas(s) == init + [""];
        JoinComma(init);
      } else {
        assert SplitCommas(s) == init[..|init| - 1] + [init[|init| - 1] + [c]];
        JoinLast(init, c);
      }
    }
  }

  /** An empty last piece adds a trailing comma. */
  lemma JoinComma(pieces: seq<string>)
    requires |pieces| >= 1
    ensures JoinCommas(pieces + [""]) == JoinCommas(pieces) + ","
  {
    assert (pieces + [""])[..|pieces|] == pieces;
  }

  /** Appending a character to the last piece appends it to the joined text. */
  lemma JoinLast(pieces: seq<string>, c: char)
    requires |pieces| >= 1
    ensures JoinCommas(pieces[..|pieces| - 1] + [pieces[|pieces| - 1] + [c]]) == JoinCommas(pieces) + [c]
  {
    var init := pieces[..|pieces| - 1];
    var q := init + [pieces[|pieces| - 1] + [c]];
    assert q[..|q| - 1] == init;
    if |pieces| > 1 {
      assert JoinCommas(q) == JoinCommas(init) + "," + (pieces[|pieces| - 1] + [c]);
    }
  }

  /** A piece without commas appended after a comma becomes the last piece. */
  lemma {:induction false} SplitAfterComma(s: string, p: string)
    requires ',' !in p
    ensures SplitCommas(s + "," + p) == SplitCommas(s) + [p]
    decreases |p|
  {
    if p == [] {
      assert (s + "," + p)[..|s + "," + p| - 1] == s;
    } else {
      var p' := p[..|p| - 1];
      assert (s + "," + p)[..|s + "," + p| - 1] == s + "," + p';
      SplitAfterComma(s, p');
      assert p == p' + [p[|p| - 1]];
      var r := SplitCommas(s) + [p'];
      assert r[..|r| - 1] == SplitCommas(s);
    }
  }

  lemma {:induction false} SplitPlain(p: string)
    requires ',' !in p
    ensures SplitCommas(p) == [p]
    decreases |p|
  {
    if p != [] {
      SplitPlain(p[..|p| - 1]);
      assert p == p[..|p| - 1] + [p[|p| - 1]];
    }
  }

  /** Rejoining pieces that hold no comma and splitting again gives the
      pieces back. */
  lemma {:induction false} SplitJoin(pieces: seq<string>)
    requires |pieces| >= 1
    requires forall i :: 0 <= i < |pieces| ==> ',' !in pieces[i]
    ensures SplitCommas(JoinCommas(pieces)) == pieces
    decreases |pieces|
  {
    if |pieces| == 1 {
      SplitPlain(pieces[0]);
    } else {
      var init := pieces[..|pieces| - 1];
      SplitJoin(init);
      SplitAfterComma(JoinCommas(init), pieces[|pieces| - 1]);
    }
  }

  /** `filter_map(|s| s.parse::<u32>().ok())`: the values of the pieces that
      parse as `u32`, in order; the other pieces are dropped. */
  function ParseIds(pieces: seq<string>): (r: seq<nat>)
    ensures |r| <= |pieces|
    ensures forall k :: 0 <= k < |r| ==> r[k] < U32_LIMIT
  {
    if pieces == [] then []
    else
      var last := ParseUnsigned(pieces[|pieces| - 1], U32_LIMIT);
      ParseIds(pieces[..|pieces| - 1]) + (if last.Some? then [last.value] else [])
  }

  /** An id is read exactly when some piece parses to it. */
  lemma {:induction false} ParseIdsMembers(pieces: seq<string>, x: nat)
    ensures x in ParseIds(pieces) <==> exists i :: 0 <= i < |pieces| && ParseUnsigned(pieces[i], U32_LIMIT) == Some(x)
    decreases |pieces|
  {
    if pieces != [] {
      var init, last := pieces[..|pieces| - 1], pieces[|pieces| - 1];
      var p := ParseUnsigned(last, U32_LIMIT);
      ParseIdsMembers(init, x);
      assert ParseIds(pieces) == ParseIds(init) + (if p.Some? then [p.value] else []);
      SomeSnoc(pieces, init, (piece: string) => ParseUnsigned(piece, U32_LIMIT) == Some(x));
    }
  }

  /** Some element of a non-empty sequence satisfies `P` exactly when some
      element before the last does or the last one does. */
  lemma SomeSnoc(s: seq<string>, init: seq<string>, P: string -> bool)
    requires s != [] && init == s[..|s| - 1]
    ensures (exists i :: 0 <= i < |s| && P(s[i])) <==>
      (exists i :: 0 <= i < |init| && P(init[i])) || P(s[|s| - 1])
  {
    if exists i :: 0 <= i < |s| && P(s[i]) {
      var i :| 0 <= i < |s| && P(s[i]);
      if i < |init| {
        assert init[i] == s[i];
      }
    }
    if exists i :: 0 <= i < |init| && P(init[i]) {
      var i :| 0 <= i < |init| && P(init[i]);
      assert s[i] == init[i];
    }
  }

  /** The ids printed in decimal, as a client lists them. */
  function IdsText(ids: seq<nat>): (r: seq<string>)
    ensures |r| == |ids|
    ensures forall i :: 0 <= i < |ids| ==> r[i] == Decimal(ids[i])
  {
    if ids == [] then [] else IdsText(ids[..|ids| - 1]) + [Decimal(ids[|ids| - 1])]
  }

  /** A comma-separated list of `u32` ids reads back as the same ids in the
      same order. */
  lemma {:induction false} SiteIdsRoundTrip(ids: seq<nat>)
    requires |ids| >= 1
    requires forall i :: 0 <= i < |ids| ==> ids[i] < U32_LIMIT
    ensures ParseIds(SplitCommas(JoinCommas(IdsText(ids)))) == ids
  {
    var text := IdsText(ids);
    forall i | 0 <= i < |text|
      ensures ',' !in text[i]
    {
      assert AllDigits(text[i]);
    }
    SplitJoin(text);
    ParseDecimals(ids);
  }

  lemma ParseIdsSnoc(pieces: seq<string>, piece: string, x: nat)
    requires ParseUnsigned(piece, U32_LIMIT) == Some(x)
    ensures ParseIds(pieces + [piece]) == ParseIds(pieces) + [x]
  {
    assert (pieces + [piece])[..|pieces|] == pieces;
  }

  lemma {:induction false} ParseDecimals(ids: seq<nat>)
    requires forall i :: 0 <= i < |ids| ==> ids[i] < U32_LIMIT
    ensures ParseIds(IdsText(ids)) == ids
    decreases |ids|
  {
    if ids != [] {
      var init, last := ids[..|ids| - 1], ids[|ids| - 1];
      ParseDecimals(init);
      ParseDecimal(last, U32_LIMIT);
      ParseIdsSnoc(IdsText(init), Decimal(last), last);
      assert IdsText(ids) == IdsText(init) + [Decimal(last)];
      assert ids == init + [last];
    }
  }

  /** The stored votes whose site is among the requested ids, in stored
      order. */
  function Restrict(stored: seq<nat>, requested: seq<nat>): seq<nat>
  {
    if stored == [] then []
    else
      var last := stored[|stored| - 1];
      Restrict(stored[..|stored| - 1], requested) + (if last in requested then [last] else [])
  }

  /** Each requested site keeps all its stored occurrences and every other
      site is dropped; so the answer holds only ids that are both stored and
      requested, and every such id. */
  lemma {:induction false} RestrictCounts(stored: seq<nat>, requested: seq<nat>)
    ensures forall x :: (multiset(Restrict(stored, requested))[x] ==
      (if x in requested then multiset(stored)[x] else 0))
    ensures forall x :: x in Restrict(stored, requested) <==> x in stored && x in requested
    decreases |stored|
  {
    if stored != [] {
      var init := stored[..|stored| - 1];
      RestrictCounts(init, requested);
      assert stored == init + [stored[|stored| - 1]];
      assert multiset(stored) == multiset(init) + multiset{stored[|stored| - 1]};
    }
  }

  /** The loop of `votes` that fills the answer by pushing. */
  method FilterVotes(stored: seq<nat>, requested: seq<nat>) returns (answer: seq<nat>)
    ensures answer == Restrict(stored, requested)
  {
    answer := [];
    for i := 0 to |stored|
      invariant answer == Restrict(stored[..i], requested)
    {
      assert stored[..i + 1][..i] == stored[..i];
      if stored[i] in requested {
        answer := answer + [stored[i]];
      }
    }
    assert stored[..|stored|] == stored;
  }

  /** `votes`: the voter's stored votes among the listed site ids. The
      stored votes are read with database call number `n`. */
  function Votes(t: Database.Tables, n: nat, faults: set<nat>, voterId: string, siteIds: string,
                 clientIp: Result<string, Web.IpError>): (r: Result<seq<nat>, HandlerError>)
    ensures clientIp.Err? ==> r == Err(ClientIpFailed(clientIp.error))
    ensures clientIp.Ok? ==> (r == Err(DbFailure) <==> n in faults)
  {
    var requested := ParseIds(SplitCommas(siteIds));
    if clientIp.Err? then Err(ClientIpFailed(clientIp.error))
    else if n in faults then Err(DbFailure)
    else Ok(Restrict(Database.VotesOf(t, voterId), requested))
  }

  /** The answer of `votes` lists exactly the voter's votes for the listed
      sites: a subset of both the stored votes and the request. */
  lemma VotesAnswer(t: Database.Tables, n: nat, faults: set<nat>, voterId: string, siteIds: string,
                    clientIp: Result<string, Web.IpError>, x: nat)
    requires Votes(t, n, faults, voterId, siteIds, clientIp).Ok?
    ensures x in Votes(t, n, faults, voterId, siteIds, clientIp).value <==>
      x in Database.VotesOf(t, voterId) && x in ParseIds(SplitCommas(siteIds))
  {
    RestrictCounts(Database.VotesOf(t, voterId), ParseIds(SplitCommas(siteIds)));
  }

  // ----- `/id/` -----

  /** The 32 random bytes of a new voter id. */
  type Seed = s: seq<Byte> | |s| == 32 witness seq(32, _ => 0)

  predicate IsHexDigit(c: char)
  {
    '0' <= c <= '9' || 'a' <= c <= 'f'
  }

  function HexDigit(d: nat): (c: char)
    requires d < 16
    ensures IsHexDigit(c)
  {
    if d < 10 then ('0' as int + d) as char else ('a' as int + d - 10) as char
  }

  function HexValue(c: char): (d: nat)
    requires IsHexDigit(c)
    ensures d < 16
  {
    if c <= '9' then c as int - '0' as int else c as int - 'a' as int + 10
  }

  /** `hex::encode`: two lower-case digits per byte, high nibble first. */
  function HexEncode(bytes: seq<Byte>): (r: string)
    ensures |r| == 2 * |bytes| && |r| % 2 == 0
    ensures forall i :: 0 <= i < |r| ==> IsHexDigit(r[i])
  {
    if bytes == [] then []
    else
      HexEncode(bytes[..|bytes| - 1]) + HexByte(bytes[|bytes| - 1])
  }

  /** The two digits of one byte, high nibble first. */
  function HexByte(b: Byte): (r: string)
    ensures |r| == 2 && IsHexDigit(r[0]) && IsHexDigit(r[1])
  {
    [HexDigit(b / 16), HexDigit(b % 16)]
  }

  /** The byte of a high and a low hex digit. */
  function HexPair(hi: char, lo: char): Byte
    requires IsHexDigit(hi) && IsHexDigit(lo)
  {
    HexValue(hi) * 16 + HexValue(lo)
  }

  /** Reading pairs of hex digits back as bytes. */
  function HexDecode(s: string): Option<seq<Byte>>
    requires |s| % 2 == 0
  {
    if s == [] then Some([])
    else
      var hi := s[|s| - 2];
      var lo := s[|s| - 1];
      if !IsHexDigit(hi) || !IsHexDigit(lo) then None
      else
        match HexDecode(s[..|s| - 2])
        case None => None
        case Some(init) => Some(init + [HexPair(hi, lo)])
  }

  /** The two digits of a byte read back as that byte. */
  lemma PairValue(b: Byte)
    ensures HexPair(HexByte(b)[0], HexByte(b)[1]) == b
  {
    assert HexValue(HexDigit(b / 16)) == b / 16;
    assert HexValue(HexDigit(b % 16)) == b % 16;
  }

  /** Decoding the digits of one more byte appends that byte. */
  lemma HexDecodeStep(text: string, init: seq<Byte>, b: Byte)
    requires |text| % 2 == 0 && HexDecode(text) == Some(init)
    ensures HexDecode(text + HexByte(b)) == Some(init + [b])
  {
    var s := text + HexByte(b);
    assert s[..|s| - 2] == text;
    assert s[|s| - 2] == HexByte(b)[0] && s[|s| - 1] == HexByte(b)[1];
    PairValue(b);
  }

  /** Decoding an encoded id gives its bytes back, so distinct seeds give
      distinct ids. */
  lemma {:induction false} HexRoundTrip(bytes: seq<Byte>)
    ensures HexDecode(HexEncode(bytes)) == Some(bytes)
    decreases |bytes|
  {
    if bytes != [] {
      var init := bytes[..|bytes| - 1];
      var b := bytes[|bytes| - 1];
      assert HexEncode(bytes) == HexEncode(init) + HexByte(b);
      HexRoundTrip(init);
      HexDecodeStep(HexEncode(init), init, b);
      assert init + [b] == bytes;
    }
  }

  datatype IdRun = IdRun(result: Result<string, HandlerError>, tables: Database.Tables, executed: nat)

  /** `id`: the client address is resolved, then the hex text of the seed
      is stored as a new voter and returned. */
  function Id(t: Database.Tables, n: nat, faults: set<nat>, seed: Seed, clientIp: Result<string, Web.IpError>): IdRun
  {
    if clientIp.Err? then IdRun(Err(ClientIpFailed(clientIp.error)), t, n)
    else
      var id := HexEncode(seed);
      var o := Database.Run(t, n, faults, [Database.InsertVoter(id)]);
      IdRun(if o.ok then Ok(id) else Err(DbFailure), o.tables, o.executed)
  }

  /** A voter id handed out is 64 lower-case hex digits and is registered
      as a voter. */
  lemma IdIsRegistered(t: Database.Tables, n: nat, faults: set<nat>, seed: Seed, clientIp: Result<string, Web.IpError>)
    ensures var r := Id(t, n, faults, seed, clientIp);
      r.result.Ok? ==>
        && |r.result.value| == 64
        && (forall i :: 0 <= i < 64 ==> IsHexDigit(r.result.value[i]))
        && Database.VoterOf(r.tables.voterIds, r.result.value).Some?
  {
    var r := Id(t, n, faults, seed, clientIp);
    if r.result.Ok? {
      var id := HexEncode(seed);
      Database.RunOne(t, n, faults, Database.InsertVoter(id));
      assert Database.VoterId(t.nextVoterId, id) in r.tables.voterIds;
    }
  }
}
