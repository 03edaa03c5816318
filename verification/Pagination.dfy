/** Fetching a paginated listing by following "next" links. */
module Pagination {
  import opened Collections
  import opened LinkHeader
  import opened Wrappers

  // ---------- following hops ----------

  /** What one request leads to: an error, the last page, or a page and where to go next. */
  datatype Hop<T> = Stop | Last(data: T) | More(data: T, next: string)

  /** Following the hops from here comes to an end within `n` requests. */
  predicate Ends<T>(hops: string -> Hop<T>, uri: string, n: nat)
    decreases n
  {
    n > 0 && (hops(uri).More? ==> Ends(hops, hops(uri).next, n - 1))
  }

  /** What has been accumulated, and whether the end was reached without an error. */
  datatype Fetched<T> = Fetched(pages: seq<T>, ok: bool)

  function Follow<T>(hops: string -> Hop<T>, uri: string, n: nat): Fetched<T>
    requires Ends(hops, uri, n)
    decreases n
  {
    match hops(uri)
    case Stop => Fetched([], false)
    case Last(data) => Fetched([data], true)
    case More(data, next) => var rest := Follow(hops, next, n - 1); Fetched([data] + rest.pages, rest.ok)
  }

  /** The bound plays no part in the result. */
  lemma {:induction false} FollowBound<T>(hops: string -> Hop<T>, uri: string, m: nat, n: nat)
    requires Ends(hops, uri, m) && Ends(hops, uri, n)
    ensures Follow(hops, uri, m) == Follow(hops, uri, n)
    decreases m
  {
    if hops(uri).More? {
      FollowBound(hops, hops(uri).next, m - 1, n - 1);
    }
  }

  /** The address reached after `k` hops, if there are as many. */
  function After<T>(hops: string -> Hop<T>, uri: string, k: nat): Option<string>
    decreases k
  {
    if k == 0 then Some(uri) else if hops(uri).More? then After(hops, hops(uri).next, k - 1) else None
  }

  lemma {:induction false} EndsAfter<T>(hops: string -> Hop<T>, uri: string, k: nat, n: nat)
    requires Ends(hops, uri, n) && After(hops, uri, k).Some?
    ensures k < n && Ends(hops, After(hops, uri, k).value, n - k)
    decreases k
  {
    if k > 0 {
      EndsAfter(hops, hops(uri).next, k - 1, n - 1);
    }
  }

  lemma {:induction false} AfterAdds<T>(hops: string -> Hop<T>, uri: string, i: nat, k: nat)
    requires After(hops, uri, i).Some?
    ensures After(hops, uri, i + k) == After(hops, After(hops, uri, i).value, k)
    decreases i
  {
    if i > 0 {
      AfterAdds(hops, hops(uri).next, i - 1, k);
    }
  }

  /** Hops that lead back to where they started are never followed to an end. */
  lemma {:induction false} CycleNeverEnds<T>(hops: string -> Hop<T>, uri: string, k: nat, n: nat)
    requires k > 0 && After(hops, uri, k) == Some(uri)
    ensures !Ends(hops, uri, n)
    decreases n
  {
    if Ends(hops, uri, n) {
      EndsAfter(hops, uri, k, n);
      CycleNeverEnds(hops, uri, k, n - k);
    }
  }

  /** The `i`-th and the `j`-th address met are the same. */
  predicate MetAgain<T>(hops: string -> Hop<T>, uri: string, i: nat, j: nat) {
    i < j && After(hops, uri, i).Some? && After(hops, uri, j) == After(hops, uri, i)
  }

  /** Some address is met twice. */
  ghost predicate Recurs<T>(hops: string -> Hop<T>, uri: string) {
    exists i: nat, j: nat :: MetAgain(hops, uri, i, j)
  }

  lemma RecursNeverEnds<T>(hops: string -> Hop<T>, uri: string, n: nat)
    requires Recurs(hops, uri)
    ensures !Ends(hops, uri, n)
  {
    var i: nat, j: nat :| MetAgain(hops, uri, i, j);
    AfterAdds(hops, uri, i, j - i);
    if Ends(hops, uri, n) {
      EndsAfter(hops, uri, i, n);
      CycleNeverEnds(hops, After(hops, uri, i).value, j - i, n - i);
    }
  }

  // ---------- the server ----------

  /** What the server answers: an error or a bad status, a body that does not decode, or a
      page with its "Link" header. */
  datatype Response<T> = Failure | Garbled | Page(data: T, link: string)

  type Server<T> = map<string, Response<T>>

  function HopAt<T>(server: Server<T>, uri: string): Hop<T> {
    if uri !in server || !server[uri].Page? then Stop
    else
      match First(Parse(server[uri].link), "next")
      case None => Last(server[uri].data)
      case Some(e) => More(server[uri].data, e.url)
  }

  function Hops<T>(server: Server<T>): string -> Hop<T> {
    uri => HopAt(server, uri)
  }

  // ---------- exactly when the loop ends ----------

  lemma {:induction false} GoesOn<T>(hops: string -> Hop<T>, uri: string, i: nat, n: nat)
    requires !Ends(hops, uri, n) && i < n
    ensures After(hops, uri, i).Some? && hops(After(hops, uri, i).value).More?
    decreases i
  {
    if i > 0 {
      GoesOn(hops, hops(uri).next, i - 1, n - 1);
    }
  }

  /** The address is among the first `m` met. */
  ghost predicate MetBefore<T>(hops: string -> Hop<T>, uri: string, m: nat, u: string) {
    exists i: nat :: i < m && After(hops, uri, i) == Some(u)
  }

  lemma NewlyMet<T>(hops: string -> Hop<T>, uri: string, m: nat)
    requires After(hops, uri, m).Some? && !Recurs(hops, uri)
    ensures !MetBefore(hops, uri, m, After(hops, uri, m).value)
    ensures MetBefore(hops, uri, m + 1, After(hops, uri, m).value)
  {
    forall i: nat | i < m
      ensures After(hops, uri, i) != After(hops, uri, m)
    {
      assert !MetAgain(hops, uri, i, m);
    }
  }

  lemma MetStays<T>(hops: string -> Hop<T>, uri: string, m: nat, met: set<string>)
    requires forall u | u in met :: MetBefore(hops, uri, m, u)
    ensures forall u | u in met :: MetBefore(hops, uri, m + 1, u)
  {
  }

  /** As long as no address recurs, each request asks for one not met before. */
  lemma {:induction false} MetAreMany<T>(hops: string -> Hop<T>, uri: string, m: nat, n: nat, served: set<string>)
    returns (met: set<string>)
    requires !Ends(hops, uri, n) && m <= n && !Recurs(hops, uri)
    requires forall u | hops(u).More? :: u in served
    ensures |met| == m && met <= served
    ensures forall u | u in met :: MetBefore(hops, uri, m, u)
    decreases m
  {
    if m == 0 {
      met := {};
    } else {
      var before := MetAreMany(hops, uri, m - 1, n, served);
      GoesOn(hops, uri, m - 1, n);
      NewlyMet(hops, uri, m - 1);
      MetStays(hops, uri, m - 1, before);
      met := before + {After(hops, uri, m - 1).value};
    }
  }

  /** Following the links ends exactly when no address is met twice, and then within one request
      for each page the server has and one more. */
  lemma EndsIff<T>(server: Server<T>, uri: string)
    ensures Ends(Hops(server), uri, |server| + 1) <==> !Recurs(Hops(server), uri)
    ensures (exists n: nat :: Ends(Hops(server), uri, n)) <==> !Recurs(Hops(server), uri)
  {
    var hops := Hops(server);
    if Recurs(hops, uri) {
      forall n: nat
        ensures !Ends(hops, uri, n)
      {
        RecursNeverEnds(hops, uri, n);
      }
    } else if !Ends(hops, uri, |server| + 1) {
      var met := MetAreMany(hops, uri, |server| + 1, |server| + 1, server.Keys);
      SubsetSize(met, server.Keys);
    }
  }

  /** All that following the links accumulates on a server where no address recurs. */
  ghost function FollowAll<T>(server: Server<T>, uri: string): Fetched<T>
    requires !Recurs(Hops(server), uri)
  {
    EndsIff(server, uri);
    Follow(Hops(server), uri, |server| + 1)
  }

  /** An address taken apart: what comes before the query, the query, and the fragment. */
  datatype Url = Url(front: string, query: string, fragment: string)

  function UrlString(u: Url): string {
    u.front + (if u.query == "" then "" else "?" + u.query) + (if u.fragment == "" then "" else "#" + u.fragment)
  }

  /** The first request asks for pages of a hundred. */
  function FirstUri(u: Url): string {
    UrlString(u.(query := if u.query == "" then "per_page=100" else u.query + "&per_page=100"))
  }

  /** The first request keeps the query the address has, and asks for pages of a hundred. */
  lemma FirstUriIs(u: Url)
    ensures FirstUri(u) == u.front + "?" + (if u.query == "" then "" else u.query + "&") + "per_page=100"
                           + (if u.fragment == "" then "" else "#" + u.fragment)
  {
    var query := if u.query == "" then "per_page=100" else u.query + "&per_page=100";
    assert u.front + ("?" + query)
        == u.front + "?" + (if u.query == "" then "" else u.query + "&") + "per_page=100";
  }

  /** One turn of the loop: request, decode, and look for the next link. */
  method Fetch<T>(server: Server<T>, uri: string) returns (hop: Hop<T>)
    ensures hop == Hops(server)(uri)
  {
    if uri !in server || !server[uri].Page? {
      return Stop;
    }
    var links := ParseLinkHeader(server[uri].link);
    if links == [] {
      return Last(server[uri].data);
    }
    var next := Find(links, "next");
    hop := if next.None? then Last(server[uri].data) else More(server[uri].data, next.value.url);
  }

  // ---------- what the loop brings back ----------

  predicate Served<T>(server: Server<T>, uri: string) {
    uri in server && server[uri].Page?
  }

  function NextLink<T>(server: Server<T>, uri: string): Option<Entry>
    requires Served(server, uri)
  {
    First(Parse(server[uri].link), "next")
  }

  /** The last page: served, and without a "next" link. */
  predicate LastPage<T>(server: Server<T>, uri: string) {
    Served(server, uri) && NextLink(server, uri).None?
  }

  /** The address reached by following `i` links. */
  function Met<T>(server: Server<T>, uri: string, i: nat): Option<string> {
    After(Hops(server), uri, i)
  }

  predicate LeadsOn<T>(server: Server<T>, uri: string, i: nat) {
    && Met(server, uri, i).Some? && Served(server, Met(server, uri, i).value)
    && NextLink(server, Met(server, uri, i).value).Some?
    && Met(server, uri, i + 1) == Some(NextLink(server, Met(server, uri, i).value).value.url)
  }

  ghost predicate Holds<T>(server: Server<T>, uri: string, i: nat, data: T) {
    && Met(server, uri, i).Some? && Served(server, Met(server, uri, i).value)
    && server[Met(server, uri, i).value].data == data
  }

  /** All addresses before the `k`-th lead on. */
  ghost predicate LeadTo<T>(server: Server<T>, uri: string, k: nat) {
    forall i: nat | i < k :: LeadsOn(server, uri, i)
  }

  ghost predicate HoldAll<T>(server: Server<T>, uri: string, pages: seq<T>) {
    forall i: nat | i < |pages| :: Holds(server, uri, i, pages[i])
  }

  /** Links are followed to the `k`-th address met, and what is brought back are the pages before
      it, in order, and it itself if it is the last page; if it is not served that is an error. */
  ghost predicate BringsBack<T>(server: Server<T>, uri: string, k: nat, got: Fetched<T>) {
    && LeadTo(server, uri, k)
    && Met(server, uri, k).Some?
    && (LastPage(server, Met(server, uri, k).value) || !Served(server, Met(server, uri, k).value))
    && got.ok == Served(server, Met(server, uri, k).value)
    && |got.pages| == k + (if got.ok then 1 else 0)
    && HoldAll(server, uri, got.pages)
  }

  lemma {:induction false} FollowBringsBack<T>(server: Server<T>, uri: string, n: nat) returns (k: nat)
    requires Ends(Hops(server), uri, n)
    ensures BringsBack(server, uri, k, Follow(Hops(server), uri, n))
    decreases n
  {
    var hop := Hops(server)(uri);
    k := 0;
    if hop.More? {
      var j := FollowBringsBack(server, hop.next, n - 1);
      k := j + 1;
      StepsOn(server, uri, hop, j, Follow(Hops(server), hop.next, n - 1));
    } else if hop.Last? {
      assert Holds(server, uri, 0, hop.data);
    }
  }

  lemma MetOn<T>(server: Server<T>, uri: string, hop: Hop<T>, i: nat)
    requires hop == Hops(server)(uri) && hop.More?
    ensures Met(server, uri, i + 1) == Met(server, hop.next, i)
  {
  }

  lemma LeadsAtFirst<T>(server: Server<T>, uri: string, hop: Hop<T>)
    requires hop == Hops(server)(uri) && hop.More?
    ensures LeadsOn(server, uri, 0)
  {
    MetOn(server, uri, hop, 0);
  }

  lemma LeadsOnOn<T>(server: Server<T>, uri: string, hop: Hop<T>, i: nat)
    requires hop == Hops(server)(uri) && hop.More? && LeadsOn(server, hop.next, i)
    ensures LeadsOn(server, uri, i + 1)
  {
    MetOn(server, uri, hop, i);
    MetOn(server, uri, hop, i + 1);
  }

  lemma HoldsOn<T>(server: Server<T>, uri: string, hop: Hop<T>, i: nat, data: T)
    requires hop == Hops(server)(uri) && hop.More? && Holds(server, hop.next, i, data)
    ensures Holds(server, uri, i + 1, data)
  {
    MetOn(server, uri, hop, i);
  }

  lemma LeadToOn<T>(server: Server<T>, uri: string, hop: Hop<T>, k: nat)
    requires hop == Hops(server)(uri) && hop.More? && LeadTo(server, hop.next, k)
    ensures LeadTo(server, uri, k + 1)
  {
    forall i: nat | i < k + 1
      ensures LeadsOn(server, uri, i)
    {
      if i == 0 {
        LeadsAtFirst(server, uri, hop);
      } else {
        assert LeadsOn(server, hop.next, i - 1);
        LeadsOnOn(server, uri, hop, i - 1);
      }
    }
  }

  lemma HoldAllOn<T>(server: Server<T>, uri: string, hop: Hop<T>, rest: seq<T>)
    requires hop == Hops(server)(uri) && hop.More? && HoldAll(server, hop.next, rest)
    ensures HoldAll(server, uri, [hop.data] + rest)
  {
    var pages := [hop.data] + rest;
    forall i: nat | i < |pages|
      ensures Holds(server, uri, i, pages[i])
    {
      if i > 0 {
        assert pages[i] == rest[i - 1];
        HoldsOn(server, uri, hop, i - 1, rest[i - 1]);
      }
    }
  }

  lemma StepsOn<T>(server: Server<T>, uri: string, hop: Hop<T>, j: nat, rest: Fetched<T>)
    requires hop == Hops(server)(uri) && hop.More? && BringsBack(server, hop.next, j, rest)
    ensures BringsBack(server, uri, j + 1, Fetched([hop.data] + rest.pages, rest.ok))
  {
    LeadToOn(server, uri, hop, j);
    HoldAllOn(server, uri, hop, rest.pages);
    MetOn(server, uri, hop, j);
  }

  /** Nothing is met after an address that leads no further. */
  lemma MetEnds<T>(server: Server<T>, uri: string, i: nat, j: nat)
    requires Met(server, uri, i).Some? && i < j
    requires LastPage(server, Met(server, uri, i).value) || !Served(server, Met(server, uri, i).value)
    ensures Met(server, uri, j).None?
  {
    AfterAdds(Hops(server), uri, i, j - i);
  }

  /** The loop reports success if and only if some address met is the last page. */
  lemma OkIff<T>(server: Server<T>, uri: string, k: nat, got: Fetched<T>)
    requires BringsBack(server, uri, k, got)
    ensures got.ok <==> exists i: nat :: Met(server, uri, i).Some? && LastPage(server, Met(server, uri, i).value)
  {
    if i: nat :| Met(server, uri, i).Some? && LastPage(server, Met(server, uri, i).value) {
      if i < k {
        assert LeadsOn(server, uri, i);
      } else if k < i {
        MetEnds(server, uri, k, i);
      }
    }
  }

  /** The loop has no guard of its own against links that lead back, so that none does is a
      demand on the server. An address that does not parse is an error before any request. */
  method GetPaginatedRequest<T>(server: Server<T>, parse: string -> Option<Url>, apiUrl: string)
    returns (pages: seq<T>, ok: bool)
    requires parse(apiUrl).Some? ==> !Recurs(Hops(server), FirstUri(parse(apiUrl).value))
    ensures parse(apiUrl).None? ==> pages == [] && !ok
    ensures parse(apiUrl).Some? ==> Fetched(pages, ok) == FollowAll(server, FirstUri(parse(apiUrl).value))
    ensures parse(apiUrl).Some? ==>
              exists k: nat :: BringsBack(server, FirstUri(parse(apiUrl).value), k, Fetched(pages, ok))
    ensures parse(apiUrl).Some? ==> var first := FirstUri(parse(apiUrl).value);
              ok <==> exists i: nat :: Met(server, first, i).Some? && LastPage(server, Met(server, first, i).value)
  {
    pages, ok := [], false;
    var parsed := parse(apiUrl);
    if parsed.None? {
      return;
    }
    var uri := FirstUri(parsed.value);
    EndsIff(server, uri);
    ghost var k := FollowBringsBack(server, uri, |server| + 1);
    OkIff(server, uri, k, Follow(Hops(server), uri, |server| + 1));
    ghost var hops := Hops(server);
    ghost var left: nat := |server| + 1;
    ghost var whole := Follow(hops, uri, left);
    while true
      invariant Ends(hops, uri, left)
      invariant whole.pages == pages + Follow(hops, uri, left).pages && whole.ok == Follow(hops, uri, left).ok
      decreases left
    {
      var hop := Fetch(server, uri);
      match hop
      case Stop => return pages, false;
      case Last(data) => return pages + [data], true;
      case More(data, next) =>
        ConcatAssociates(pages, [data], Follow(hops, next, left - 1).pages);
        pages := pages + [data];
        uri := next;
        left := left - 1;
    }
  }

  // ---------- chains of pages ----------

  /** A page as the server means it: its address, its content, and its links. */
  datatype Leaf<T> = Leaf(uri: string, data: T, links: seq<Entry>)

  /** The page is served with its links, all clean, printed into the header. */
  ghost predicate Serves<T>(server: Server<T>, p: Leaf<T>) {
    && p.uri in server && server[p.uri] == Page(p.data, Print(p.links))
    && forall e | e in p.links :: Clean(e)
  }

  /** The first "next" link of each page is the page that follows; the last has none. */
  predicate Linked<T>(chain: seq<Leaf<T>>) {
    forall i | 0 <= i < |chain| :: LinkedAt(chain, i)
  }

  predicate LinkedAt<T>(chain: seq<Leaf<T>>, i: nat)
    requires i < |chain|
  {
    match First(chain[i].links, "next")
    case None => i + 1 == |chain|
    case Some(e) => i + 1 < |chain| && e.url == chain[i + 1].uri
  }

  function Contents<T>(chain: seq<Leaf<T>>): seq<T> {
    seq(|chain|, i requires 0 <= i < |chain| => chain[i].data)
  }

  /** A page with clean links is left exactly as its first "next" link says. */
  lemma ServedHop<T>(server: Server<T>, p: Leaf<T>)
    requires Serves(server, p)
    ensures var next := First(p.links, "next");
            Hops(server)(p.uri) == if next.Some? then More(p.data, next.value.url) else Last(p.data)
  {
    RoundTrip(p.links);
  }

  ghost predicate Along<T>(hops: string -> Hop<T>, chain: seq<Leaf<T>>, i: nat)
    requires i < |chain|
  {
    match hops(chain[i].uri)
    case Stop => false
    case Last(data) => i + 1 == |chain| && data == chain[i].data
    case More(data, next) => i + 1 < |chain| && data == chain[i].data && next == chain[i + 1].uri
  }

  lemma ServedAlong<T>(server: Server<T>, chain: seq<Leaf<T>>, i: nat)
    requires i < |chain| && Serves(server, chain[i]) && LinkedAt(chain, i)
    ensures Along(Hops(server), chain, i)
  {
    ServedHop(server, chain[i]);
  }

  lemma {:induction false} FollowsHops<T>(hops: string -> Hop<T>, chain: seq<Leaf<T>>)
    requires chain != [] && forall i | 0 <= i < |chain| :: Along(hops, chain, i)
    ensures Ends(hops, chain[0].uri, |chain|)
    ensures !Ends(hops, chain[0].uri, |chain| - 1)
    ensures Follow(hops, chain[0].uri, |chain|) == Fetched(Contents(chain), true)
    decreases chain
  {
    assert Along(hops, chain, 0);
    if |chain| > 1 {
      forall i | 0 <= i < |chain| - 1
        ensures Along(hops, chain[1..], i)
      {
        assert Along(hops, chain, i + 1);
      }
      FollowsHops(hops, chain[1..]);
      assert Contents(chain) == [chain[0].data] + Contents(chain[1..]);
    }
  }

  lemma ChainAlong<T>(server: Server<T>, chain: seq<Leaf<T>>)
    requires Linked(chain) && forall p | p in chain :: Serves(server, p)
    ensures forall i | 0 <= i < |chain| :: Along(Hops(server), chain, i)
  {
    forall i | 0 <= i < |chain|
      ensures Along(Hops(server), chain, i)
    {
      assert chain[i] in chain && LinkedAt(chain, i);
      ServedAlong(server, chain, i);
    }
  }

  lemma FollowAllIs<T>(server: Server<T>, uri: string, n: nat)
    requires Ends(Hops(server), uri, n)
    ensures !Recurs(Hops(server), uri)
    ensures FollowAll(server, uri) == Follow(Hops(server), uri, n)
  {
    var hops := Hops(server);
    if Recurs(hops, uri) {
      RecursNeverEnds(hops, uri, n);
    }
    EndsIff(server, uri);
    FollowBound(hops, uri, |server| + 1, n);
  }

  /** Over a chain of served pages the loop makes exactly one request a page, accumulates them
      all in chain order, and stops without an error. */
  lemma FollowsChain<T>(server: Server<T>, chain: seq<Leaf<T>>)
    requires chain != [] && Linked(chain)
    requires forall p | p in chain :: Serves(server, p)
    ensures Ends(Hops(server), chain[0].uri, |chain|)
    ensures !Ends(Hops(server), chain[0].uri, |chain| - 1)
    ensures !Recurs(Hops(server), chain[0].uri)
    ensures FollowAll(server, chain[0].uri) == Fetched(Contents(chain), true)
  {
    ChainAlong(server, chain);
    FollowsHops(Hops(server), chain);
    FollowAllIs(server, chain[0].uri, |chain|);
  }
}
