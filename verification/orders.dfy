/** The orders page: pagination, the list query, the summary counts and the
    shape check on the stored session token. Fetching, debouncing and the
    payload decoding are outside the model. */
module OrdersPage {
  import opened Common
  import opened Text

  const PageSize: nat := 10

  datatype OrderStatus = Pending | Processing | Shipped | Completed | Cancelled

  /** The status as it appears in a query string. */
  function StatusName(s: OrderStatus): string {
    match s
    case Pending => "pending"
    case Processing => "processing"
    case Shipped => "shipped"
    case Completed => "completed"
    case Cancelled => "cancelled"
  }

  /** The status dropdown: every status, or one. */
  datatype StatusFilter = All | Only(status: OrderStatus)

  /* ---------------------------------------------------------------------
     Pagination
     --------------------------------------------------------------------- */

  /** `Math.ceil(total / pageSize)` for a whole-number total. */
  function CeilDiv(total: int, pageSize: nat): (q: int)
    requires pageSize > 0
    ensures (q - 1) * pageSize < total <= q * pageSize
  {
    -((-total) / pageSize)
  }

  /** `Math.max(1, Math.ceil(total / pageSize))`: the smallest page count
      that holds `total` rows, and at least one page. */
  function TotalPages(total: int, pageSize: nat): (n: int)
    requires pageSize > 0
    ensures n >= 1
    ensures total > 0 ==> (n - 1) * pageSize < total <= n * pageSize
    ensures total <= pageSize ==> n == 1
  {
    var q := CeilDiv(total, pageSize);
    if q < 1 then 1 else q
  }

  /** The previous-page button: one page back, never below page 1. */
  function PrevPage(page: int): (p: int)
    ensures p >= 1
    ensures page > 1 ==> p == page - 1
    ensures page <= 1 ==> p == 1
  {
    if page - 1 < 1 then 1 else page - 1
  }

  /** The next-page button: one page on, never beyond the last page. */
  function NextPage(page: int, totalPages: int): (p: int)
    ensures p <= totalPages
    ensures page < totalPages ==> p == page + 1
    ensures page >= totalPages ==> p == totalPages
  {
    if totalPages < page + 1 then totalPages else page + 1
  }

  predicate PrevDisabled(page: int) {
    page == 1
  }

  predicate NextDisabled(page: int, totalPages: int) {
    page >= totalPages
  }

  /** An enabled button always lands on a page that exists, one step away. */
  lemma EnabledButtonsStayInRange(page: int, total: int)
    requires 1 <= page <= TotalPages(total, PageSize)
    ensures !PrevDisabled(page) ==> PrevPage(page) == page - 1 && 1 <= PrevPage(page)
    ensures !NextDisabled(page, TotalPages(total, PageSize)) ==>
              NextPage(page, TotalPages(total, PageSize)) == page + 1 <= TotalPages(total, PageSize)
    ensures PrevDisabled(page) <==> PrevPage(page) == page
    ensures NextDisabled(page, TotalPages(total, PageSize)) <==> NextPage(page, TotalPages(total, PageSize)) == page
  {
  }

  /* ---------------------------------------------------------------------
     The list query
     --------------------------------------------------------------------- */

  /** Query parameters in insertion order, before percent-encoding. */
  type Params = seq<(string, string)>

  /** The value of the first parameter named `key`. */
  function Lookup(params: Params, key: string): (v: Option<string>)
    ensures v.Some? <==> exists i :: 0 <= i < |params| && params[i].0 == key
    decreases |params|
  {
    if |params| == 0 then None
    else if params[0].0 == key then Some(params[0].1)
    else
      var rest := Lookup(params[1..], key);
      assert forall i :: 1 <= i < |params| ==> params[i] == params[1..][i - 1];
      rest
  }

  /** Looking up in a concatenation reads the first part first. */
  lemma {:induction false} LookupAppend(a: Params, b: Params, key: string)
    ensures Lookup(a + b, key) == if Lookup(a, key).Some? then Lookup(a, key) else Lookup(b, key)
    decreases |a|
  {
    if |a| > 0 {
      LookupAppend(a[1..], b, key);
      assert (a + b)[0] == a[0];
      assert (a + b)[1..] == a[1..] + b;
      if a[0].0 != key {
        assert Lookup(a + b, key) == Lookup(a[1..] + b, key);
        assert Lookup(a, key) == Lookup(a[1..], key);
      }
    } else {
      assert a + b == b;
    }
  }

  /** The status parameter, present unless all statuses are wanted. */
  function StatusPart(filter: StatusFilter): (p: Params)
    ensures Lookup(p, "status") == if filter.All? then None else Some(StatusName(filter.status))
    ensures Lookup(p, "q").None?
    ensures forall i :: 0 <= i < |p| ==> p[i].0 == "status"
  {
    if filter.All? then [] else [("status", StatusName(filter.status))]
  }

  /** The search parameter: the trimmed text, present unless it is blank. */
  function SearchPart(search: string): (p: Params)
    ensures Lookup(p, "q") == if Trim(search) == "" then None else Some(Trim(search))
    ensures Lookup(p, "status").None?
    ensures forall i :: 0 <= i < |p| ==> p[i].0 == "q"
  {
    var q := Trim(search);
    if q != "" then [("q", q)] else []
  }

  /** Page and size first, then a status part and a search part: each key is
      found in the one part that can hold it. */
  lemma ParamsLayout(page: string, pageSize: string, statusPart: Params, searchPart: Params)
    requires forall i :: 0 <= i < |statusPart| ==> statusPart[i].0 == "status"
    requires forall i :: 0 <= i < |searchPart| ==> searchPart[i].0 == "q"
    ensures var params := [("page", page), ("pageSize", pageSize)] + (statusPart + searchPart);
            && Lookup(params, "page") == Some(page)
            && Lookup(params, "pageSize") == Some(pageSize)
            && Lookup(params, "status") == Lookup(statusPart, "status")
            && Lookup(params, "q") == Lookup(searchPart, "q")
            && forall i :: 0 <= i < |params| ==> params[i].0 in {"page", "pageSize", "status", "q"}
  {
    var base: Params := [("page", page), ("pageSize", pageSize)];
    var extra := statusPart + searchPart;
    LookupAppend(base, extra, "page");
    LookupAppend(base, extra, "pageSize");
    assert Lookup(base, "status").None? && Lookup(base, "q").None?;
    assert Lookup(searchPart, "status").None?;
    assert Lookup(statusPart, "q").None?;
    LookupAppend(base, extra, "status");
    LookupAppend(statusPart, searchPart, "status");
    LookupAppend(base, extra, "q");
    LookupAppend(statusPart, searchPart, "q");
  }

  /** The parameters of the list request: page and size always, then the
      status unless all statuses are wanted, then the trimmed search text
      unless it is blank. */
  function ListParams(page: nat, pageSize: nat, filter: StatusFilter, search: string): (params: Params)
    ensures |params| >= 2 && params[0] == ("page", NatToString(page)) && params[1] == ("pageSize", NatToString(pageSize))
    ensures Lookup(params, "page") == Some(NatToString(page))
    ensures Lookup(params, "pageSize") == Some(NatToString(pageSize))
    ensures Lookup(params, "status") == if filter.All? then None else Some(StatusName(filter.status))
    ensures Lookup(params, "q") == if Trim(search) == "" then None else Some(Trim(search))
    ensures forall i :: 0 <= i < |params| ==> params[i].0 in {"page", "pageSize", "status", "q"}
  {
    ParamsLayout(NatToString(page), NatToString(pageSize), StatusPart(filter), SearchPart(search));
    [("page", NatToString(page)), ("pageSize", NatToString(pageSize))] + (StatusPart(filter) + SearchPart(search))
  }

  /** The server reads back the page and size it was sent. */
  lemma ListParamsRoundTrip(page: nat, pageSize: nat, filter: StatusFilter, search: string)
    ensures var params := ListParams(page, pageSize, filter, search);
            && Lookup(params, "page").Some? && DigitsValue(Lookup(params, "page").value) == page
            && Lookup(params, "pageSize").Some? && DigitsValue(Lookup(params, "pageSize").value) == pageSize
  {
    NatToStringValue(page);
    NatToStringValue(pageSize);
  }

  /* ---------------------------------------------------------------------
     View state
     --------------------------------------------------------------------- */

  datatype OrdersView = OrdersView(search: string, filter: StatusFilter, page: int)

  /** A change of search text or status filter sends the view back to page 1;
      setting the same values again changes nothing. */
  function SetFilters(v: OrdersView, search: string, filter: StatusFilter): (r: OrdersView)
    ensures r.search == search && r.filter == filter
    ensures (search != v.search || filter != v.filter) ==> r.page == 1
    ensures search == v.search && filter == v.filter ==> r == v
  {
    if search == v.search && filter == v.filter then v else OrdersView(search, filter, 1)
  }

  /* ---------------------------------------------------------------------
     Summary counts
     --------------------------------------------------------------------- */

  /** One answer of the summary requests: which filter, and its total. */
  datatype CountResult = CountResult(key: StatusFilter, total: int)

  datatype Counts = Counts(total: int, completed: int, processing: int, pending: int)

  /** The total of the first result for `key`, or 0 when there is none. */
  function CountFor(results: seq<CountResult>, key: StatusFilter): (n: int)
    ensures (forall i :: 0 <= i < |results| ==> results[i].key != key) ==> n == 0
    ensures forall i :: (0 <= i < |results| && results[i].key == key &&
              (forall j :: 0 <= j < i ==> results[j].key != key)) ==> n == results[i].total
    decreases |results|
  {
    if |results| == 0 then 0
    else if results[0].key == key then results[0].total
    else
      var n := CountFor(results[1..], key);
      assert forall i :: 1 <= i < |results| ==> results[i] == results[1..][i - 1];
      n
  }

  function SummaryCounts(results: seq<CountResult>): (c: Counts)
    ensures c.total == CountFor(results, All)
    ensures c.completed == CountFor(results, Only(Completed))
    ensures c.processing == CountFor(results, Only(Processing))
    ensures c.pending == CountFor(results, Only(Pending))
  {
    Counts(CountFor(results, All), CountFor(results, Only(Completed)),
           CountFor(results, Only(Processing)), CountFor(results, Only(Pending)))
  }

  /** The four requests answer in the order they were issued, so each card
      shows its own request's total. */
  lemma SummaryCountsInRequestOrder(all: int, completed: int, processing: int, pending: int)
    ensures SummaryCounts([CountResult(All, all), CountResult(Only(Completed), completed),
                           CountResult(Only(Processing), processing), CountResult(Only(Pending), pending)])
         == Counts(all, completed, processing, pending)
  {
    var rs := [CountResult(All, all), CountResult(Only(Completed), completed),
               CountResult(Only(Processing), processing), CountResult(Only(Pending), pending)];
    assert rs[0].key == All;
    assert rs[1].key == Only(Completed) && rs[0].key != Only(Completed);
    assert rs[2].key == Only(Processing) && rs[0].key != Only(Processing) && rs[1].key != Only(Processing);
    assert rs[3].key == Only(Pending) && rs[0].key != Only(Pending) && rs[1].key != Only(Pending)
        && rs[2].key != Only(Pending);
  }

  /* ---------------------------------------------------------------------
     The session token
     --------------------------------------------------------------------- */

  /** The payload segment of a token that has the three-part shape, or
      nothing when no token is stored, it is empty, or it does not split
      into exactly three `.`-separated parts. */
  function TokenPayload(token: Option<string>): (r: Option<string>)
    ensures token.None? || token.value == "" ==> r.None?
    ensures token.Some? && token.value != "" ==>
              (r.Some? <==> Occurrences(token.value, '.') == 2)
    ensures r.Some? ==> '.' !in r.value
  {
    if token.None? || token.value == "" then None
    else
      var parts := Split(token.value, '.');
      SplitCount(token.value, '.');
      SplitPiecesHaveNoSeparator(token.value, '.');
      if |parts| != 3 then None else Some(parts[1])
  }

  /** `getEmailFromToken`: the payload's email, read by `decodeEmail`
      (base64 and JSON decoding, outside the model), for a well-shaped token. */
  function EmailFromToken(token: Option<string>, decodeEmail: string -> Option<string>): (r: Option<string>)
    ensures TokenPayload(token).None? ==> r.None?
    ensures TokenPayload(token).Some? ==> r == decodeEmail(TokenPayload(token).value)
  {
    match TokenPayload(token)
    case None => None
    case Some(payload) => decodeEmail(payload)
  }

  /** A token built as `header.payload.signature` from dot-free parts yields
      its payload. */
  lemma TokenPayloadOfThreeParts(header: string, payload: string, signature: string)
    requires '.' !in header && '.' !in payload && '.' !in signature
    ensures TokenPayload(Some(header + "." + payload + "." + signature)) == Some(payload)
  {
    var t := header + "." + payload + "." + signature;
    assert t == header + ['.'] + (payload + ['.'] + signature);
    SplitAppend(header, payload + ['.'] + signature, '.');
    SplitAppend(payload, signature, '.');
    SplitNoSeparator(header, '.');
    SplitNoSeparator(payload, '.');
    SplitNoSeparator(signature, '.');
  }
}
