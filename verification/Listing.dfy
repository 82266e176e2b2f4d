/** The admin listings: page arithmetic over a query result, and the username search pattern. */
module Listing {
  import opened Common

  // ----- pages -----

  datatype Pagination = Pagination(page: int, pageSize: int, totalItems: nat, totalPages: nat, hasPrev: bool,
      hasNext: bool)

  /** `normalizeListPage`. */
  function NormalizePage(page: int): (r: int)
    ensures r >= 1
  {
    if page < 1 then 1 else page
  }

  /** `normalizeListLimit`. */
  function NormalizeLimit(limit: int): (r: int)
    ensures 1 <= r <= 100
  {
    if limit <= 0 || limit > 100 then 100 else limit
  }

  function PageCount(totalItems: nat, limit: int): nat
    requires limit >= 1
  {
    if totalItems > 0 then (totalItems + limit - 1) / limit else 0
  }

  /** `clampPagination`, on a page and a limit that have been normalized. */
  function ClampPagination(page: int, limit: int, totalItems: nat): Pagination
    requires page >= 1 && limit >= 1
  {
    var totalPages := PageCount(totalItems, limit);
    var page := if totalItems == 0 then 1 else if page > totalPages then totalPages else page;
    Pagination(page, limit, totalItems, totalPages, totalPages > 0 && page > 1, totalPages > 0 && page < totalPages)
  }

  /** `LIMIT limit OFFSET (page - 1) * limit`. */
  function Rows<T>(items: seq<T>, page: int, limit: int): seq<T>
    requires page >= 1 && limit >= 1
  {
    Window(items, (page - 1) * limit, limit)
  }

  function Window<T>(items: seq<T>, offset: nat, limit: nat): seq<T> {
    if offset >= |items| then []
    else if offset + limit >= |items| then items[offset..]
    else items[offset..offset + limit]
  }

  /** One call of `ListTraces` or `ListAnomalies`: the page and the rows shown on it, where `items` is
      the result in the order in which this call's query delivers it. */
  function List<T>(items: seq<T>, page: int, limit: int): (r: (Pagination, seq<T>))
    ensures r.0.page >= 1 && r.0.pageSize == NormalizeLimit(limit)
  {
    var limit := NormalizeLimit(limit);
    var p := ClampPagination(NormalizePage(page), limit, |items|);
    TotalPagesBound(|items|, limit);
    (p, Rows(items, p.page, limit))
  }

  lemma TotalPagesBound(n: nat, limit: nat)
    requires limit >= 1
    ensures var k := (n + limit - 1) / limit; limit * k - limit < n + (if n == 0 then 1 else 0) && n <= limit * k
    ensures n > 0 ==> (n + limit - 1) / limit >= 1
  {
    var k := (n + limit - 1) / limit;
    var rest := (n + limit - 1) % limit;
    assert n + limit - 1 == limit * k + rest;
    if n > 0 { Quotient(n - 1, limit); }
  }

  lemma Quotient(m: nat, limit: nat)
    requires limit >= 1
    ensures (m + limit) / limit >= 1
  {
  }

  function Prefix<T>(items: seq<T>, n: nat): seq<T> {
    if n >= |items| then items else items[..n]
  }

  lemma PrefixGrows<T>(items: seq<T>, offset: nat, limit: nat)
    ensures Prefix(items, offset) + Window(items, offset, limit) == Prefix(items, offset + limit)
  {
  }

  lemma PageCountCovers(n: nat, limit: nat, pages: nat)
    requires limit >= 1 && pages == PageCount(n, limit)
    ensures n <= pages * limit
  {
    TotalPagesBound(n, limit);
  }

  /** The rows of page `page` of `pages` start inside the list, and reach its end on the last page
      alone. */
  lemma OffsetFacts(n: nat, limit: nat, page: nat, pages: nat)
    requires limit >= 1 && n > 0 && pages == (n + limit - 1) / limit && 1 <= page <= pages
    ensures var offset := (page - 1) * limit;
      offset < n && (offset > 0 <==> page > 1) && (offset + limit < n <==> page < pages)
  {
    TotalPagesBound(n, limit);
    Monotone(page - 1, pages, limit);
  }

  /** Whatever is asked for, the page shown has rows unless there are none, and the two flags say
      exactly whether rows come before and after it. */
  lemma EveryPageIsReal<T>(items: seq<T>, page: int, limit: int)
    ensures var (p, rows) := List(items, page, limit);
      var offset := (p.page - 1) * p.pageSize;
      && (rows == [] <==> items == [])
      && (p.hasPrev <==> offset > 0)
      && (p.hasNext <==> offset + |rows| < |items|)
      && (items == [] ==> p.page == 1 && p.totalPages == 0)
      && (1 <= page <= p.totalPages ==> p.page == page)
  {
    var (p, rows) := List(items, page, limit);
    if items != [] {
      TotalPagesBound(|items|, p.pageSize);
      OffsetFacts(|items|, p.pageSize, p.page, p.totalPages);
      WindowLength(items, (p.page - 1) * p.pageSize, p.pageSize);
    }
  }

  lemma WindowLength<T>(items: seq<T>, offset: nat, limit: nat)
    requires offset < |items|
    ensures |Window(items, offset, limit)| == if offset + limit >= |items| then |items| - offset else limit
  {
  }

  lemma Monotone(a: nat, b: nat, limit: nat)
    requires limit >= 1
    ensures a > 0 ==> a * limit > 0
    ensures a + 1 <= b ==> a * limit + limit <= b * limit
    ensures a + 2 <= b ==> a * limit + limit + limit <= b * limit
    ensures a + 1 == b ==> a * limit + limit == b * limit
  {
    if a + 1 <= b {
      var d := b - a - 1;
      assert b * limit == a * limit + limit + d * limit;
      if d > 0 { assert d * limit == (d - 1) * limit + limit; }
    }
  }

  // ----- each call orders the rows anew -----

  /** What a listing sorts by, both parts descending; `tie` is the same for all rows where the
      query has no tie-breaker. */
  datatype SortKey = SortKey(created: int, tie: int)

  predicate Before(a: SortKey, b: SortKey) {
    a.created > b.created || (a.created == b.created && a.tie > b.tie)
  }

  ghost predicate InOrder<T>(key: T -> SortKey, items: seq<T>) {
    forall i, j | 0 <= i < j < |items| :: !Before(key(items[j]), key(items[i]))
  }

  ghost predicate Distinct<T>(items: seq<T>) {
    forall i, j | 0 <= i < j < |items| :: items[i] != items[j]
  }

  ghost function Elements<T>(items: seq<T>): set<T> {
    set x | x in items
  }

  /** `items` is one order in which the database may deliver `rows`. */
  ghost predicate Answers<T>(key: T -> SortKey, rows: set<T>, items: seq<T>) {
    InOrder(key, items) && Distinct(items) && Elements(items) == rows
  }

  /** The query for page `p` delivers the rows in the order `orders(p)`. */
  ghost predicate AllAnswer<T>(key: T -> SortKey, rows: set<T>, orders: nat -> seq<T>) {
    forall p: nat :: Answers(key, rows, orders(p))
  }

  /** What a reader sees who walks through the first `k` pages. */
  function Shown<T>(orders: nat -> seq<T>, limit: int, k: nat): seq<T>
    requires limit >= 1
  {
    if k == 0 then [] else Shown(orders, limit, k - 1) + Rows(orders(k), k, limit)
  }

  ghost predicate OnceEach<T>(rows: set<T>, shown: seq<T>) {
    |shown| == |rows| && Elements(shown) == rows
  }

  /** No two rows with equal keys lie on either side of position `b`. */
  ghost predicate CutsClean<T>(key: T -> SortKey, items: seq<T>, b: nat) {
    0 < b < |items| ==> key(items[b - 1]) != key(items[b])
  }

  function PageEnd(p: nat, limit: nat): nat {
    p * limit
  }

  ghost predicate NoGroupCrosses<T>(key: T -> SortKey, items: seq<T>, limit: nat) {
    forall p: nat :: CutsClean(key, items, PageEnd(p, limit))
  }

  lemma {:induction false} DistinctSize<T>(items: seq<T>)
    requires Distinct(items)
    ensures |Elements(items)| == |items|
    decreases |items|
  {
    if items != [] {
      var front, last := items[..|items| - 1], items[|items| - 1];
      DistinctSize(front);
      assert items == front + [last];
      assert Elements(items) == Elements(front) + {last};
    }
  }

  /** A clean cut separates the rows by key, so every order has the same rows before it. */
  lemma SameRowsBefore<T>(key: T -> SortKey, rows: set<T>, o: seq<T>, o': seq<T>, b: nat)
    requires Answers(key, rows, o) && Answers(key, rows, o') && b < |o| && CutsClean(key, o, b)
    ensures |o'| == |o| && Elements(o'[..b]) == Elements(o[..b])
  {
    DistinctSize(o);
    DistinctSize(o');
    var low := Elements(o[..b]);
    DistinctSize(o[..b]);
    forall j | 0 <= j < b ensures o'[j] in low {
      NotBeforeItsTurn(key, rows, o, o', b, j);
    }
    assert Elements(o'[..b]) <= low;
    DistinctSize(o'[..b]);
    assert low == Elements(o'[..b]) + (low - Elements(o'[..b]));
  }

  /** A row from behind the cut cannot come first: all rows before the cut would follow it. */
  lemma NotBeforeItsTurn<T>(key: T -> SortKey, rows: set<T>, o: seq<T>, o': seq<T>, b: nat, j: nat)
    requires Answers(key, rows, o) && Answers(key, rows, o') && |o'| == |o| && b < |o| && CutsClean(key, o, b) && j < b
    ensures o'[j] in Elements(o[..b])
  {
    var low := Elements(o[..b]);
    DistinctSize(o[..b]);
    DistinctSize(o'[..j]);
    assert o'[j] in Elements(o);
    if o'[j] !in low {
      forall x | x in low ensures x in Elements(o'[..j]) {
        assert x in Elements(o');
        LowComesFirst(key, o, b, x, o'[j]);
      }
      SubsetSize(low, Elements(o'[..j]));
    }
  }

  lemma LowComesFirst<T>(key: T -> SortKey, o: seq<T>, b: nat, x: T, y: T)
    requires InOrder(key, o) && 0 < b < |o| && CutsClean(key, o, b)
    requires x in o[..b] && y in o && y !in o[..b]
    ensures Before(key(x), key(y))
  {
    var i :| 0 <= i < b && o[i] == x;
    var j :| 0 <= j < |o| && o[j] == y;
    assert j >= b;
    assert i < b - 1 ==> !Before(key(o[b - 1]), key(o[i]));
    assert !Before(key(o[b]), key(o[b - 1]));
    assert b < j ==> !Before(key(o[j]), key(o[b]));
  }

  // ----- when the pages partition the rows -----

  lemma {:induction false} SameOrderShowsPrefix<T>(orders: nat -> seq<T>, items: seq<T>, limit: int, k: nat)
    requires limit >= 1 && forall p: nat | p <= k :: orders(p) == items
    ensures Shown(orders, limit, k) == Prefix(items, PageEnd(k, limit))
    decreases k
  {
    if k > 0 {
      SameOrderShowsPrefix(orders, items, limit, k - 1);
      assert k * limit == (k - 1) * limit + limit;
      PrefixGrows(items, (k - 1) * limit, limit);
    }
  }

  /** As long as every call delivers the same order, walking from page 1 to the last page shows
      every item once, in order. */
  lemma PagesShowEverything<T>(orders: nat -> seq<T>, items: seq<T>, limit: int)
    requires limit >= 1 && forall p: nat :: orders(p) == items
    ensures Shown(orders, limit, PageCount(|items|, limit)) == items
  {
    PageCountCovers(|items|, limit, PageCount(|items|, limit));
    SameOrderShowsPrefix(orders, items, limit, PageCount(|items|, limit));
  }

  /** Between two clean cuts every order has the same rows. */
  lemma SameRowsBetween<T>(key: T -> SortKey, rows: set<T>, o: seq<T>, o': seq<T>, b: nat, limit: nat)
    requires Answers(key, rows, o) && Answers(key, rows, o')
    requires CutsClean(key, o, b) && CutsClean(key, o, b + limit)
    ensures Prefix(o, b + limit) == Prefix(o, b) + Window(o, b, limit)
    ensures |Window(o', b, limit)| == |Window(o, b, limit)|
    ensures Elements(Window(o', b, limit)) == Elements(Window(o, b, limit))
  {
    PrefixGrows(o, b, limit);
    PrefixGrows(o', b, limit);
    SamePrefix(key, rows, o, o', b);
    SamePrefix(key, rows, o, o', b + limit);
    LastPart(o, b, limit);
    LastPart(o', b, limit);
  }

  lemma SamePrefix<T>(key: T -> SortKey, rows: set<T>, o: seq<T>, o': seq<T>, b: nat)
    requires Answers(key, rows, o) && Answers(key, rows, o') && CutsClean(key, o, b)
    ensures |o'| == |o| && Elements(Prefix(o', b)) == Elements(Prefix(o, b))
  {
    DistinctSize(o);
    DistinctSize(o');
    if b < |o| { SameRowsBefore(key, rows, o, o', b); }
  }

  /** Without repetitions, what a longer prefix adds is what it holds and the shorter one does not. */
  lemma LastPart<T>(o: seq<T>, b: nat, limit: nat)
    requires Distinct(o)
    ensures Elements(Window(o, b, limit)) == Elements(Prefix(o, b + limit)) - Elements(Prefix(o, b))
  {
    PrefixGrows(o, b, limit);
    var p, w := Prefix(o, b), Window(o, b, limit);
    assert forall x :: x in p + w <==> x in p || x in w;
    forall x | x in w ensures x !in p {
      var i :| 0 <= i < |w| && w[i] == x;
      assert o[b + i] == x;
    }
  }

  lemma NextPageEnd(k: nat, limit: nat)
    requires k > 0
    ensures PageEnd(k, limit) == PageEnd(k - 1, limit) + limit
  {
  }

  lemma OnePageMore<T>(key: T -> SortKey, rows: set<T>, o: seq<T>, o': seq<T>, shown: seq<T>, b: nat, limit: nat)
    requires Answers(key, rows, o) && Answers(key, rows, o')
    requires CutsClean(key, o, b) && CutsClean(key, o, b + limit)
    requires |shown| == |Prefix(o, b)| && Elements(shown) == Elements(Prefix(o, b))
    ensures var next := shown + Window(o', b, limit);
      |next| == |Prefix(o, b + limit)| && Elements(next) == Elements(Prefix(o, b + limit))
  {
    SameRowsBetween(key, rows, o, o', b, limit);
    ElementsOfConcat(shown, Window(o', b, limit));
    ElementsOfConcat(Prefix(o, b), Window(o, b, limit));
  }

  /** With clean page ends, what is shown up to page `k` does not depend on the orders. */
  lemma {:induction false} CleanPagesAgree<T>(key: T -> SortKey, rows: set<T>, o: seq<T>, orders: nat -> seq<T>,
      limit: int, k: nat)
    requires limit >= 1 && Answers(key, rows, o) && AllAnswer(key, rows, orders) && NoGroupCrosses(key, o, limit)
    ensures var shown := Shown(orders, limit, k);
      |shown| == |Prefix(o, PageEnd(k, limit))| && Elements(shown) == Elements(Prefix(o, PageEnd(k, limit)))
    decreases k
  {
    if k > 0 {
      CleanPagesAgree(key, rows, o, orders, limit, k - 1);
      NextPageEnd(k, limit);
      assert CutsClean(key, o, PageEnd(k - 1, limit)) && CutsClean(key, o, PageEnd(k, limit));
      OnePageMore(key, rows, o, orders(k), Shown(orders, limit, k - 1), PageEnd(k - 1, limit), limit);
    }
  }

  lemma ElementsOfConcat<T>(a: seq<T>, b: seq<T>)
    ensures Elements(a + b) == Elements(a) + Elements(b)
  {
    assert forall x :: x in a + b <==> x in a || x in b;
  }

  function Swap<T>(o: seq<T>, b: nat): seq<T>
    requires 0 < b < |o|
  {
    o[b - 1 := o[b]][b := o[b - 1]]
  }

  /** Two neighbours with equal keys may as well come the other way round. */
  lemma SwapAnswers<T>(key: T -> SortKey, rows: set<T>, o: seq<T>, b: nat)
    requires Answers(key, rows, o) && 0 < b < |o| && key(o[b - 1]) == key(o[b])
    ensures Answers(key, rows, Swap(o, b))
  {
    var o' := Swap(o, b);
    assert forall i | 0 <= i < |o| :: key(o'[i]) == key(o[i]);
    forall x ensures x in o' <==> x in o {
      if x in o {
        var i :| 0 <= i < |o| && o[i] == x;
        assert o'[if i == b then b - 1 else if i == b - 1 then b else i] == x;
      }
    }
  }

  /** The order that the queries up to page `p` deliver, and the one that later queries do. */
  function Switch<T>(o: seq<T>, o': seq<T>, p: nat): nat -> seq<T> {
    q => if q <= p then o else o'
  }

  lemma MissedBefore<T>(o: seq<T>, b: nat, offset: nat, limit: nat)
    requires Distinct(o) && 0 < b < |o| && offset + limit <= b
    ensures o[b] !in Window(o, offset, limit)
  {
  }

  lemma MissedAfter<T>(o: seq<T>, b: nat, offset: nat, limit: nat)
    requires Distinct(o) && 0 < b < |o| && b <= offset
    ensures o[b] !in Window(Swap(o, b), offset, limit)
  {
  }

  lemma PageEndsGrow(j: nat, k: nat, limit: nat)
    requires j <= k
    ensures PageEnd(j, limit) <= PageEnd(k, limit)
  {
  }

  /** If neighbours across the end of page `p` change places after page `p` was read, the second of
      them is never shown. */
  lemma {:induction false} SwappedRowIsMissed<T>(o: seq<T>, limit: int, p: nat, b: nat, k: nat)
    requires limit >= 1 && Distinct(o) && 0 < b < |o| && b == PageEnd(p, limit)
    ensures o[b] !in Shown(Switch(o, Swap(o, b), p), limit, k)
    decreases k
  {
    if k > 0 {
      SwappedRowIsMissed(o, limit, p, b, k - 1);
      NextPageEnd(k, limit);
      if k <= p {
        PageEndsGrow(k, p, limit);
        MissedBefore(o, b, PageEnd(k - 1, limit), limit);
      } else {
        PageEndsGrow(p, k - 1, limit);
        MissedAfter(o, b, PageEnd(k - 1, limit), limit);
      }
    }
  }

  /** Every choice of orders shows each row once, if and only if no group of rows with equal keys
      crosses the end of a page. */
  lemma PagesPartitionExactly<T(!new)>(key: T -> SortKey, rows: set<T>, o: seq<T>, limit: int)
    requires limit >= 1 && Answers(key, rows, o)
    ensures (forall orders: nat -> seq<T> | AllAnswer(key, rows, orders) ::
               OnceEach(rows, Shown(orders, limit, PageCount(|o|, limit))))
       <==> NoGroupCrosses(key, o, limit)
  {
    var k := PageCount(|o|, limit);
    PageCountCovers(|o|, limit, k);
    DistinctSize(o);
    if NoGroupCrosses(key, o, limit) {
      forall orders: nat -> seq<T> | AllAnswer(key, rows, orders) ensures OnceEach(rows, Shown(orders, limit, k)) {
        CleanPagesAgree(key, rows, o, orders, limit, k);
      }
    } else {
      var p: nat :| !CutsClean(key, o, PageEnd(p, limit));
      var b := PageEnd(p, limit);
      var orders := Switch(o, Swap(o, b), p);
      SwapAnswers(key, rows, o, b);
      assert AllAnswer(key, rows, orders);
      SwappedRowIsMissed(o, limit, p, b, k);
      assert o[b] in rows && !OnceEach(rows, Shown(orders, limit, k));
    }
  }

  // ----- the two listings -----

  /** A row of either listing: its unique id and its creation time. */
  datatype Listed = Listed(id: string, created: int)

  /** `ORDER BY t.created_at DESC, t.trace_id DESC`; `rank` is the order of trace ids. */
  function TraceKey(rank: string -> int): Listed -> SortKey {
    (r: Listed) => SortKey(r.created, rank(r.id))
  }

  /** `ORDER BY created_at DESC`. */
  function AnomalyKey(): Listed -> SortKey {
    (r: Listed) => SortKey(r.created, 0)
  }

  /** With a key that tells all rows apart there is only one order. */
  lemma {:induction false} OneOrder<T>(key: T -> SortKey, rows: set<T>, o: seq<T>, o': seq<T>)
    requires Answers(key, rows, o) && Answers(key, rows, o')
    requires forall x, y | x in rows && y in rows && key(x) == key(y) :: x == y
    ensures o == o'
  {
    DistinctSize(o);
    DistinctSize(o');
    forall i | 0 <= i < |o| ensures o[i] == o'[i] {
      forall b: nat | b < |o| ensures CutsClean(key, o, b) {
        assert 0 < b ==> o[b - 1] in Elements(o) && o[b] in Elements(o) && o[b - 1] != o[b];
      }
      SameRowsBetween(key, rows, o, o', i, 1);
      assert Window(o, i, 1) == [o[i]] && Window(o', i, 1) == [o'[i]];
      assert o'[i] in Elements(Window(o', i, 1));
    }
  }

  /** The trace listing shows every trace once and in order, whatever each page query does. */
  lemma TracePagesShowEverything(rank: string -> int, rows: set<Listed>, o: seq<Listed>,
      orders: nat -> seq<Listed>, limit: int)
    requires limit >= 1 && forall a, b | rank(a) == rank(b) :: a == b
    requires forall x, y | x in rows && y in rows && x.id == y.id :: x == y
    requires Answers(TraceKey(rank), rows, o) && AllAnswer(TraceKey(rank), rows, orders)
    ensures Shown(orders, limit, PageCount(|o|, limit)) == o
  {
    forall p: nat ensures orders(p) == o { OneOrder(TraceKey(rank), rows, o, orders(p)); }
    PagesShowEverything(orders, o, limit);
  }

  /** The anomaly listing does so for every choice of orders if and only if no two anomalies with
      one creation time stand on either side of a page end. */
  lemma AnomalyPagesShowOnceExactly(rows: set<Listed>, o: seq<Listed>, limit: int)
    requires limit >= 1 && Answers(AnomalyKey(), rows, o)
    ensures (forall orders: nat -> seq<Listed> | AllAnswer(AnomalyKey(), rows, orders) ::
               OnceEach(rows, Shown(orders, limit, PageCount(|o|, limit))))
       <==> forall p: nat ::
              0 < PageEnd(p, limit) < |o| ==> o[PageEnd(p, limit) - 1].created != o[PageEnd(p, limit)].created
  {
    PagesPartitionExactly(AnomalyKey(), rows, o, limit);
    assert forall p: nat :: CutsClean(AnomalyKey(), o, PageEnd(p, limit)) <==>
      (0 < PageEnd(p, limit) < |o| ==> o[PageEnd(p, limit) - 1].created != o[PageEnd(p, limit)].created);
  }

  /** Two anomalies of one save, one row per page: the first may be shown twice and the second
      never. */
  lemma AnomalyPagesCanRepeat()
    ensures var a, b := Listed("a", 0), Listed("b", 0);
      exists orders: nat -> seq<Listed> ::
        AllAnswer(AnomalyKey(), {a, b}, orders) && Shown(orders, 1, PageCount(2, 1)) == [a, a]
  {
    var a, b := Listed("a", 0), Listed("b", 0);
    var orders := Switch([a, b], [b, a], 1);
    assert Elements([a, b]) == {a, b} && Elements([b, a]) == {a, b};
    assert AllAnswer(AnomalyKey(), {a, b}, orders);
    assert Shown(orders, 1, 0) == [] && Rows(orders(1), 1, 1) == [a] && Rows(orders(2), 2, 1) == [a];
    assert Shown(orders, 1, 1) == [a] && Shown(orders, 1, 2) == [a, a];
    assert PageCount(2, 1) == 2;
  }

  // ----- the username search -----

  predicate Meta(c: char) { c == '\\' || c == '%' || c == '_' }

  /** `escapeILIKE`. */
  function Escape(s: string): string {
    if s == "" then "" else (if Meta(s[0]) then ['\\', s[0]] else [s[0]]) + Escape(s[1..])
  }

  /** `text ILIKE pattern ESCAPE '\'`; `fold` maps a character to its case class. */
  predicate ILike(fold: char -> char, pattern: string, text: string)
    decreases |pattern| + |text|
  {
    if pattern == "" then text == ""
    else if pattern[0] == '%' then
      ILike(fold, pattern[1..], text) || (text != "" && ILike(fold, pattern, text[1..]))
    else if pattern[0] == '_' then text != "" && ILike(fold, pattern[1..], text[1..])
    else if pattern[0] == '\\' then
      |pattern| > 1 && text != "" && fold(text[0]) == fold(pattern[1]) && ILike(fold, pattern[2..], text[1..])
    else text != "" && fold(text[0]) == fold(pattern[0]) && ILike(fold, pattern[1..], text[1..])
  }

  ghost predicate StartsWith(fold: char -> char, text: string, name: string) {
    |name| <= |text| && forall i | 0 <= i < |name| :: fold(text[i]) == fold(name[i])
  }

  lemma {:induction false} PercentMatchesAll(fold: char -> char, text: string)
    ensures ILike(fold, "%", text)
  {
    if text == "" {
      assert ILike(fold, "", text);
    } else {
      PercentMatchesAll(fold, text[1..]);
    }
  }

  lemma StartsWithCons(fold: char -> char, text: string, name: string)
    requires name != ""
    ensures StartsWith(fold, text, name)
       <==> text != "" && fold(text[0]) == fold(name[0]) && StartsWith(fold, text[1..], name[1..])
  {
    if text != "" && fold(text[0]) == fold(name[0]) && StartsWith(fold, text[1..], name[1..]) {
      forall i | 0 <= i < |name| ensures fold(text[i]) == fold(name[i]) {
        if i > 0 { assert text[1..][i - 1] == text[i] && name[1..][i - 1] == name[i]; }
      }
    }
    if StartsWith(fold, text, name) {
      forall i | 0 <= i < |name| - 1 ensures fold(text[1..][i]) == fold(name[1..][i]) {
        assert text[1..][i] == text[i + 1] && name[1..][i] == name[i + 1];
      }
    }
  }

  /** The username filter is a literal prefix match, whatever characters the name holds. */
  lemma {:induction false} SearchIsLiteralPrefix(fold: char -> char, name: string, text: string)
    ensures ILike(fold, Escape(name) + "%", text) <==> StartsWith(fold, text, name)
    decreases |name|
  {
    if name == "" {
      assert Escape(name) + "%" == "%";
      PercentMatchesAll(fold, text);
    } else {
      var rest := Escape(name[1..]) + "%";
      var pattern := Escape(name) + "%";
      StartsWithCons(fold, text, name);
      if Meta(name[0]) {
        assert pattern == ['\\', name[0]] + rest;
        assert pattern[2..] == rest;
      } else {
        assert pattern == [name[0]] + rest;
        assert pattern[1..] == rest;
      }
      if text != "" { SearchIsLiteralPrefix(fold, name[1..], text[1..]); }
    }
  }
}
