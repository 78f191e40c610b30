/** The helpers the web front end shares (src/lib.rs): the sort order and
    its text, the client address of a request, and the page links under
    the site list. */
module Web {
  import opened Basics
  import opened Numeric

  // ----- sort order -----

  datatype SortOptions = New | Size | Votes

  /** `Display`: the variant's name. */
  function SortName(s: SortOptions): string
  {
    match s
    case New => "New"
    case Size => "Size"
    case Votes => "Votes"
  }

  /** The derived `Deserialize` of a query parameter: the variant names
      and nothing else. */
  function ParseSort(name: string): Option<SortOptions>
  {
    if name == "New" then Some(New)
    else if name == "Size" then Some(Size)
    else if name == "Votes" then Some(Votes)
    else None
  }

  /** A sort order's text reads back as that order, and only a variant's
      text is read as an order. */
  lemma SortNameRoundTrip(s: SortOptions, name: string)
    ensures ParseSort(SortName(s)) == Some(s)
    ensures ParseSort(name) == Some(s) <==> name == SortName(s)
  {
  }

  // ----- client address -----

  datatype IpError = HeaderNotText | NoAddress

  /** `HeaderValue::to_str` accepts visible ASCII and horizontal tab. */
  predicate HeaderByte(b: Byte)
  {
    32 <= b < 127 || b == 9
  }

  function HeaderText(h: seq<Byte>): (r: Option<string>)
    ensures r.Some? <==> forall i :: 0 <= i < |h| ==> HeaderByte(h[i])
    ensures r.Some? ==> |r.value| == |h| && forall i :: 0 <= i < |h| ==> r.value[i] as int == h[i]
  {
    if forall i :: 0 <= i < |h| ==> HeaderByte(h[i]) then Some(seq(|h|, i requires 0 <= i < |h| => h[i] as char))
    else None
  }

  /** `get_client_ip`: the `x-real-ip` header when the request has one,
      otherwise the peer address (already in its text form). */
  function ClientIp(realIp: Option<seq<Byte>>, peer: Option<string>): Result<string, IpError>
  {
    match realIp
    case Some(h) => (match HeaderText(h) case Some(text) => Ok(text) case None => Err(HeaderNotText))
    case None => (match peer case Some(addr) => Ok(addr) case None => Err(NoAddress))
  }

  /** A request with the header is answered from the header alone, whatever
      its peer address; an unreadable header is an error even when a peer
      address exists. */
  lemma HeaderTakesPrecedence(h: seq<Byte>, peer: Option<string>, peer': Option<string>)
    ensures ClientIp(Some(h), peer) == ClientIp(Some(h), peer')
    ensures ClientIp(Some(h), peer).Ok? <==> forall i :: 0 <= i < |h| ==> HeaderByte(h[i])
    ensures ClientIp(Some(h), peer).Ok? ==> ClientIp(Some(h), peer) == Ok(HeaderText(h).value)
  {
  }

  /** The address fails exactly when the header is unreadable, or when
      there is neither a header nor a peer address. */
  lemma ClientIpFailure(realIp: Option<seq<Byte>>, peer: Option<string>)
    ensures ClientIp(realIp, peer).Err? <==>
      (realIp.Some? && HeaderText(realIp.value).None?) || (realIp.None? && peer.None?)
    ensures realIp.None? && peer.Some? ==> ClientIp(realIp, peer) == Ok(peer.value)
  {
  }

  // ----- page links -----

  datatype PageLink = PageLink(index: nat, uri: string)

  /** The page links, the link to the previous page and the link to the
      next page; an empty link is not shown. */
  datatype PageView = PageView(links: seq<PageLink>, prev: string, next: string)

  /** `/?paginate={paginate}&sortby={sortby}&page={i}`. The page size is an
      `f32` holding a whole number, which prints without a fraction. */
  function PageUri(paginate: nat, sortby: SortOptions, i: nat): (r: string)
    ensures |r| > 0
  {
    "/?paginate=" + Decimal(paginate) + "&sortby=" + SortName(sortby) + "&page=" + Decimal(i)
  }

  /** Different pages get different addresses. */
  lemma PageUriInjective(paginate: nat, sortby: SortOptions, i: nat, j: nat)
    requires PageUri(paginate, sortby, i) == PageUri(paginate, sortby, j)
    ensures i == j
  {
    var prefix := "/?paginate=" + Decimal(paginate) + "&sortby=" + SortName(sortby) + "&page=";
    assert PageUri(paginate, sortby, i) == prefix + Decimal(i);
    assert PageUri(paginate, sortby, j) == prefix + Decimal(j);
    assert Decimal(i) == PageUri(paginate, sortby, i)[|prefix|..];
    assert Decimal(j) == PageUri(paginate, sortby, j)[|prefix|..];
    DecimalInjective(i, j);
  }

  /** `(count / paginate).ceil() as usize` for a count above the page size.
      A page size of zero divides to infinity, which the cast saturates to
      the largest `usize`. */
  function Pages(count: nat, paginate: nat): nat
    requires count > paginate
  {
    if paginate == 0 then USIZE_LIMIT - 1 else (count + paginate - 1) / paginate
  }

  /** With a positive page size, `Pages` is the ceiling of count / paginate:
      the fewest pages that hold `count` sites, at least two. */
  lemma PagesIsCeiling(count: nat, paginate: nat)
    requires 0 < paginate < count
    ensures (Pages(count, paginate) - 1) * paginate < count <= Pages(count, paginate) * paginate
    ensures Pages(count, paginate) >= 2
  {
    var p := Pages(count, paginate);
    var q := count + paginate - 1;
    assert q == p * paginate + q % paginate;
    assert q % paginate < paginate;
  }

  /** The link of page `i`: empty for the page shown. */
  function LinkTo(page: nat, paginate: nat, sortby: SortOptions, i: nat): PageLink
  {
    PageLink(i, if i != page then PageUri(paginate, sortby, i) else "")
  }

  /** The links of pages 1 to `k`. */
  function LinksUpTo(page: nat, paginate: nat, sortby: SortOptions, k: nat): (r: seq<PageLink>)
    ensures |r| == k
    ensures forall j :: 0 <= j < k ==> r[j] == LinkTo(page, paginate, sortby, j + 1)
  {
    if k == 0 then [] else LinksUpTo(page, paginate, sortby, k - 1) + [LinkTo(page, paginate, sortby, k)]
  }

  /** `get_page_links`. With no more sites than fit on a page there are no
      links at all; otherwise there is one link per page, numbered from 1 in
      order, empty exactly for the page shown and otherwise addressed to its
      own page; the previous link exists exactly after the first page and
      the next link exactly before the last, each pointing one page away. */
  function PageLinks(page: nat, count: nat, paginate: nat, sortby: SortOptions): (r: PageView)
    ensures count <= paginate ==> r == PageView([], "", "")
    ensures count > paginate ==>
      && |r.links| == Pages(count, paginate)
      && (forall j :: 0 <= j < |r.links| ==> r.links[j].index == j + 1)
      && (forall j :: 0 <= j < |r.links| ==> (r.links[j].uri == "" <==> j + 1 == page))
      && (forall j :: 0 <= j < |r.links| && j + 1 != page ==> r.links[j].uri == PageUri(paginate, sortby, j + 1))
    ensures r.prev != "" <==> count > paginate && page > 1
    ensures r.prev != "" ==> r.prev == PageUri(paginate, sortby, page - 1)
    ensures r.next != "" <==> count > paginate && page < Pages(count, paginate)
    ensures r.next != "" ==> r.next == PageUri(paginate, sortby, page + 1)
  {
    if count > paginate then
      var pages := Pages(count, paginate);
      PageView(LinksUpTo(page, paginate, sortby, pages),
               if page > 1 then PageUri(paginate, sortby, page - 1) else "",
               if page < pages then PageUri(paginate, sortby, page + 1) else "")
    else PageView([], "", "")
  }

  /** `get_page_links` as the program runs it: the links are pushed one
      page at a time. */
  method GetPageLinks(page: nat, count: nat, paginate: nat, sortby: SortOptions)
    returns (links: seq<PageLink>, prev: string, next: string)
    ensures PageView(links, prev, next) == PageLinks(page, count, paginate, sortby)
  {
    if count > paginate {
      links := [];
      var pages := Pages(count, paginate);
      for i := 1 to pages + 1
        invariant links == LinksUpTo(page, paginate, sortby, i - 1)
      {
        ghost var before := links;
        if i != page {
          links := links + [PageLink(i, PageUri(paginate, sortby, i))];
        } else {
          links := links + [PageLink(i, "")];
        }
        assert links == before + [LinkTo(page, paginate, sortby, i)];
      }
      prev := if page > 1 then PageUri(paginate, sortby, page - 1) else "";
      next := if page < pages then PageUri(paginate, sortby, page + 1) else "";
    } else {
      links, prev, next := [], "", "";
    }
  }

  /** As written, a page size of 0 with a single site asks for 2^64 - 1 page
      links: far more links than sites, and more than memory holds. */
  lemma ZeroPageSizeFloods(page: nat, sortby: SortOptions)
    ensures |PageLinks(page, 1, 0, sortby).links| == USIZE_LIMIT - 1
    ensures |PageLinks(page, 1, 0, sortby).links| > 1
  {
  }

  lemma MulAtLeast(a: nat, b: nat)
    requires b >= 1
    ensures a * b >= a
  {
    assert a * b == a * (b - 1) + a;
  }

  /** `Pages` never exceeds the count for a positive page size. */
  lemma PagesAtMostCount(count: nat, paginate: nat)
    requires 0 < paginate
    ensures count > paginate ==> Pages(count, paginate) <= count
  {
    if count > paginate {
      PagesIsCeiling(count, paginate);
      MulAtLeast(Pages(count, paginate) - 1, paginate);
    }
  }

  /** The page links with a page size of 0 treated like a size that fits
      every site: never more page links than sites. */
  function GuardedPageLinks(page: nat, count: nat, paginate: nat, sortby: SortOptions): (r: PageView)
    ensures |r.links| <= count
    ensures paginate > 0 ==> r == PageLinks(page, count, paginate, sortby)
    ensures paginate == 0 ==> r == PageView([], "", "")
  {
    if paginate == 0 then PageView([], "", "")
    else
      PagesAtMostCount(count, paginate);
      PageLinks(page, count, paginate, sortby)
  }
}
