/** Reading the logs page by page. A page is any answer the database may give to "the newest
    `limit` rows older than the cursor": rows with equal timestamps come in no fixed order,
    so a page is a relation, not a function. The cursor is the oldest timestamp of a full
    page, and the next page is strictly older than it. */
module LogPages {
  import opened Common

  const DEFAULT_LIMIT: nat := 200
  const MAX_LIMIT: nat := 1000

  datatype Row = Row(
    id: nat, deployment: string, appName: string, appVersion: string,
    time: int, level: string, message: string)

  /** Empty fields and missing bounds put no constraint on their axis. `matches` stands for the
      database's case-insensitive pattern match of the search text. */
  datatype Filter = Filter(
    deployment: string, appName: string, appVersion: string, levels: seq<string>,
    from: Option<int>, to: Option<int>, search: string)

  predicate Keeps(f: Filter, matches: (string, string) -> bool, r: Row) {
    && (f.deployment == "" || r.deployment == f.deployment)
    && (f.appName == "" || r.appName == f.appName)
    && (f.appVersion == "" || r.appVersion == f.appVersion)
    && (f.levels == [] || r.level in f.levels)
    && (f.from.Some? ==> r.time >= f.from.value)
    && (f.to.Some? ==> r.time <= f.to.value)
    && (f.search == "" || matches(f.search, r.message))
  }

  /** A filter that is set and that the row fails: another deployment, application or version, a
      level not listed, a time before the first or after the last asked for, or no match. */
  predicate Excluded(f: Filter, matches: (string, string) -> bool, r: Row) {
    || (f.deployment != "" && f.deployment != r.deployment)
    || (f.appName != "" && f.appName != r.appName)
    || (f.appVersion != "" && f.appVersion != r.appVersion)
    || (f.levels != [] && forall i :: 0 <= i < |f.levels| ==> f.levels[i] != r.level)
    || (f.from.Some? && r.time < f.from.value)
    || (f.to.Some? && f.to.value < r.time)
    || (f.search != "" && !matches(f.search, r.message))
  }

  /** Each axis of `g` is unset or asks for no less than the same axis of `f`. */
  predicate Wider(f: Filter, g: Filter) {
    && (g.deployment == "" || g.deployment == f.deployment)
    && (g.appName == "" || g.appName == f.appName)
    && (g.appVersion == "" || g.appVersion == f.appVersion)
    && (g.levels == [] || (f.levels != [] && forall level :: level in f.levels ==> level in g.levels))
    && (g.from.Some? ==> f.from.Some? && g.from.value <= f.from.value)
    && (g.to.Some? ==> f.to.Some? && f.to.value <= g.to.value)
    && (g.search == "" || g.search == f.search)
  }

  const NO_FILTER := Filter("", "", "", [], None, None, "")

  /** Widening any axis never loses a row, and with nothing set every row is kept. */
  lemma WideningKeeps(table: set<Row>, f: Filter, g: Filter, matches: (string, string) -> bool)
    ensures Wider(f, g) ==> Matching(table, f, matches) <= Matching(table, g, matches)
    ensures Matching(table, NO_FILTER, matches) == table && Wider(f, NO_FILTER)
  {
  }

  function Gap(a: int, b: int): nat {
    if a < b then b - a else a - b
  }

  /** The page size for a request's limit parameter, if it gave one. */
  function ClampLimit(asked: Option<int>): (limit: nat)
    ensures 1 <= limit <= MAX_LIMIT && (asked.None? ==> limit == DEFAULT_LIMIT)
    ensures asked.Some? ==> forall m :: 1 <= m <= MAX_LIMIT ==> Gap(limit, asked.value) <= Gap(m, asked.value)
  {
    match asked
    case None => DEFAULT_LIMIT
    case Some(n) => if n < 1 then 1 else if n > MAX_LIMIT then MAX_LIMIT else n
  }

  function Matching(table: set<Row>, f: Filter, matches: (string, string) -> bool): set<Row> {
    set r | r in table && Keeps(f, matches, r)
  }

  function Older(rows: set<Row>, before: Option<int>): set<Row> {
    set r | r in rows && (before.Some? ==> r.time < before.value)
  }

  predicate NewestFirst(page: seq<Row>) {
    forall i, j :: 0 <= i < j < |page| ==> page[i].time >= page[j].time
  }

  /** The answers the database may give: `limit` of these rows, or all if fewer, newest first,
      with nothing newer left behind. */
  predicate IsPage(rows: set<Row>, limit: nat, page: seq<Row>) {
    && Distinct(page) && NewestFirst(page)
    && (forall r :: r in page ==> r in rows)
    && |page| <= limit
    && (|page| < limit ==> forall r :: r in rows ==> r in page)
    && (forall r, q :: r in rows && r !in page && q in page ==> r.time <= q.time)
  }

  /** A query as filter, sort and limit: pick a newest remaining row until the page is full. */
  method Query(rows: set<Row>, limit: nat) returns (page: seq<Row>)
    ensures IsPage(rows, limit, page)
  {
    page := [];
    var left := rows;
    while left != {} && |page| < limit
      invariant |page| <= limit && Distinct(page) && NewestFirst(page)
      invariant forall r :: r in rows <==> r in left || r in page
      invariant forall r :: r in left ==> r !in page
      invariant forall r, q :: r in left && q in page ==> r.time <= q.time
      decreases left
    {
      var newest := Newest(left);
      left := left - {newest};
      page := page + [newest];
    }
  }

  method Newest(rows: set<Row>) returns (newest: Row)
    requires rows != {}
    ensures newest in rows && forall r :: r in rows ==> r.time <= newest.time
  {
    newest :| newest in rows;
    var left := rows - {newest};
    while left != {}
      invariant left <= rows && newest in rows
      invariant forall r :: r in rows ==> r in left || r.time <= newest.time
      decreases left
    {
      var r :| r in left;
      if r.time > newest.time {
        newest := r;
      }
      left := left - {r};
    }
  }

  /** The cursor a page carries: only a full page has one. */
  function NextBefore(page: seq<Row>, limit: nat): Option<int>
    requires limit >= 1
  {
    if |page| == limit then Some(page[|page| - 1].time) else None
  }

  // ---- A walk ------------------------------------------------------------------------

  function Oldest(page: seq<Row>): int
    requires page != []
  {
    page[|page| - 1].time
  }

  /** Pages obtained by following the cursor from `before`: each is an answer for its cursor,
      and only a full page is followed. */
  predicate Follows(rows: set<Row>, limit: nat, before: Option<int>, pages: seq<seq<Row>>)
    requires limit >= 1
    decreases |pages|
  {
    && pages != [] && IsPage(Older(rows, before), limit, pages[0])
    && (|pages| > 1 ==>
          |pages[0]| == limit && Follows(rows, limit, NextBefore(pages[0], limit), pages[1..]))
  }

  /** A walk is complete when its last page carries no cursor. */
  predicate Complete(limit: nat, pages: seq<seq<Row>>) {
    pages != [] && |pages[|pages| - 1]| < limit
  }

  /** All rows shown, in the order shown. */
  function All(pages: seq<seq<Row>>): seq<Row> {
    if pages == [] then [] else pages[0] + All(pages[1..])
  }

  lemma LastIsOldest(rows: set<Row>, limit: nat, page: seq<Row>, r: Row)
    requires IsPage(rows, limit, page) && r in page
    ensures Oldest(page) <= r.time
  {
    var i :| 0 <= i < |page| && page[i] == r;
  }

  lemma {:induction false} ShownIsOlder(rows: set<Row>, limit: nat, before: Option<int>, pages: seq<seq<Row>>, r: Row)
    requires limit >= 1 && Follows(rows, limit, before, pages) && r in All(pages)
    ensures r in Older(rows, before)
    decreases |pages|
  {
    var page := pages[0];
    if r !in page {
      ShownIsOlder(rows, limit, NextBefore(page, limit), pages[1..], r);
      assert page[limit - 1] in page;
    }
  }

  /** Pages never repeat a row, and the walk as a whole is newest first. */
  lemma {:induction false} WalkOrdered(rows: set<Row>, limit: nat, before: Option<int>, pages: seq<seq<Row>>)
    requires limit >= 1 && Follows(rows, limit, before, pages)
    ensures Distinct(All(pages)) && NewestFirst(All(pages))
    decreases |pages|
  {
    var page := pages[0];
    if |pages| == 1 {
      assert All(pages[1..]) == [];
    } else {
      var rest := All(pages[1..]);
      WalkOrdered(rows, limit, NextBefore(page, limit), pages[1..]);
      forall i, j | 0 <= i < |page| && 0 <= j < |rest| ensures rest[j].time < page[i].time {
        ShownIsOlder(rows, limit, NextBefore(page, limit), pages[1..], rest[j]);
        LastIsOldest(Older(rows, before), limit, page, page[i]);
      }
    }
  }

  /** The row shares a full page's oldest timestamp without being on that page. */
  predicate CutOffAt(limit: nat, page: seq<Row>, r: Row) {
    |page| == limit && page != [] && r.time == Oldest(page) && r !in page
  }

  predicate CutOff(limit: nat, pages: seq<seq<Row>>, r: Row) {
    pages != [] && (CutOffAt(limit, pages[0], r) || CutOff(limit, pages[1..], r))
  }

  lemma {:induction false} CutOffIsOlder(rows: set<Row>, limit: nat, before: Option<int>, pages: seq<seq<Row>>, r: Row)
    requires limit >= 1 && Follows(rows, limit, before, pages) && CutOff(limit, pages, r)
    ensures before.Some? ==> r.time < before.value
    decreases |pages|
  {
    var page := pages[0];
    if CutOffAt(limit, page, r) {
      assert page[|page| - 1] in page;
    } else {
      CutOffIsOlder(rows, limit, NextBefore(page, limit), pages[1..], r);
      assert page[limit - 1] in page;
    }
  }

  /** Over a complete walk the rows missed are exactly those cut off by a timestamp tie. */
  lemma {:induction false} MissedIffCutOff(
      rows: set<Row>, limit: nat, before: Option<int>, pages: seq<seq<Row>>, r: Row)
    requires limit >= 1 && Follows(rows, limit, before, pages) && Complete(limit, pages)
    requires r in Older(rows, before)
    ensures r !in All(pages) <==> CutOff(limit, pages, r)
    decreases |pages|
  {
    var page, rest := pages[0], pages[1..];
    if |pages| > 1 {
      var next := NextBefore(page, limit);
      assert page[limit - 1] in page;
      if r in page {
        LastIsOldest(Older(rows, before), limit, page, r);
        if CutOff(limit, rest, r) {
          CutOffIsOlder(rows, limit, next, rest, r);
        }
      } else if r.time == Oldest(page) {
        if r in All(rest) {
          ShownIsOlder(rows, limit, next, rest, r);
        }
      } else {
        assert r in Older(rows, next);
        MissedIffCutOff(rows, limit, next, rest, r);
      }
    }
  }

  /** A row that is missed: two rows share a timestamp and the page size is 1. */
  lemma TieIsMissed(a: Row, b: Row)
    requires a != b && a.time == b.time
    ensures Follows({a, b}, 1, None, [[a], []]) && Complete(1, [[a], []])
    ensures b !in All([[a], []])
  {
    var pages: seq<seq<Row>> := [[a], []];
    var rest := pages[1..];
    assert rest == [[]] && rest[0] == [] && rest[1..] == [];
    assert Older({a, b}, None) == {a, b};
    assert Older({a, b}, Some(a.time)) == {};
    assert Follows({a, b}, 1, Some(a.time), rest);
    assert All(rest[1..]) == [];
    assert All(rest) == rest[0] + All(rest[1..]);
    assert All(pages) == pages[0] + All(rest);
    assert pages[0] == [a];
  }

  // ---- When a walk shows everything --------------------------------------------------

  function AtLeast(rows: set<Row>, t: int): set<Row> {
    set r | r in rows && r.time >= t
  }

  function Below(rows: set<Row>, t: int): set<Row> {
    set r | r in rows && r.time < t
  }

  /** Pages of this size never end inside a group of equal timestamps: fewer rows remain than a
      page holds, or some time has exactly a page of rows from it on and the same is true of
      the rows below it. This speaks of the table alone. */
  ghost predicate NoSplit(rows: set<Row>, limit: nat)
    decreases |rows|
  {
    |rows| < limit || exists t :: |AtLeast(rows, t)| == limit && |Below(rows, t)| < |rows| && NoSplit(Below(rows, t), limit)
  }

  function Members(page: seq<Row>): set<Row> {
    set r | r in page
  }

  lemma {:induction false} MembersSize(page: seq<Row>)
    requires Distinct(page)
    ensures |Members(page)| == |page|
  {
    if page != [] {
      var front, last := page[..|page| - 1], page[|page| - 1];
      MembersSize(front);
      assert Members(page) == Members(front) + {last};
    }
  }

  lemma SameSizeSubset(a: set<Row>, b: set<Row>)
    requires a <= b && |a| == |b|
    ensures a == b
  {
    assert b == a + (b - a);
  }

  /** A full page ends between two groups: nothing it leaves behind has its oldest timestamp. */
  predicate Whole(rows: set<Row>, page: seq<Row>)
    requires page != []
  {
    AtLeast(rows, Oldest(page)) == Members(page)
  }

  lemma PageWithinAtLeast(rows: set<Row>, limit: nat, page: seq<Row>)
    requires IsPage(rows, limit, page) && page != []
    ensures Members(page) <= AtLeast(rows, Oldest(page))
    ensures forall r :: r in rows && r !in page ==> r.time <= Oldest(page)
  {
    forall r | r in page ensures r in AtLeast(rows, Oldest(page)) {
      LastIsOldest(rows, limit, page, r);
    }
    assert page[|page| - 1] in page;
  }

  /** The only time with exactly a page of rows from it on is one the page ends at. */
  lemma SplitPoint(rows: set<Row>, limit: nat, page: seq<Row>, t: int)
    requires limit >= 1 && IsPage(rows, limit, page) && |page| == limit && |AtLeast(rows, t)| == limit
    ensures Whole(rows, page) && Below(rows, t) == Below(rows, Oldest(page))
  {
    var oldest, members := Oldest(page), Members(page);
    MembersSize(page);
    PageWithinAtLeast(rows, limit, page);
    if t > oldest {
      assert AtLeast(rows, t) <= members - {page[limit - 1]};
      assert page[limit - 1] in members;
      SubsetSize(AtLeast(rows, t), members - {page[limit - 1]});
      assert false;
    }
    SameSizeSubset(members, AtLeast(rows, t));
    assert AtLeast(rows, oldest) == AtLeast(rows, t);
    forall r | r in rows ensures r.time < t <==> r.time < oldest {
      assert r in AtLeast(rows, t) <==> r in AtLeast(rows, oldest);
    }
  }

  lemma NoSplitAtPage(rows: set<Row>, limit: nat, page: seq<Row>)
    requires limit >= 1 && IsPage(rows, limit, page) && |page| == limit
    ensures NoSplit(rows, limit) <==> Whole(rows, page) && NoSplit(Below(rows, Oldest(page)), limit)
  {
    var oldest := Oldest(page);
    MembersSize(page);
    PageWithinAtLeast(rows, limit, page);
    SubsetSize(Members(page), rows);
    if NoSplit(rows, limit) {
      var t :| |AtLeast(rows, t)| == limit && |Below(rows, t)| < |rows| && NoSplit(Below(rows, t), limit);
      SplitPoint(rows, limit, page, t);
    }
    if Whole(rows, page) && NoSplit(Below(rows, oldest), limit) {
      assert rows == Below(rows, oldest) + AtLeast(rows, oldest);
      assert |AtLeast(rows, oldest)| == limit;
    }
  }

  ghost predicate ShowsAll(rows: set<Row>, before: Option<int>, pages: seq<seq<Row>>) {
    forall r :: r in Older(rows, before) ==> r in All(pages)
  }

  /** After a full page a walk shows everything exactly when the page ends between two groups
      and the rest of the walk shows everything below it. */
  lemma ShowsAllAfterPage(rows: set<Row>, limit: nat, before: Option<int>, pages: seq<seq<Row>>)
    requires limit >= 1 && Follows(rows, limit, before, pages) && |pages| > 1
    ensures ShowsAll(rows, before, pages) <==>
            Whole(Older(rows, before), pages[0]) && ShowsAll(rows, NextBefore(pages[0], limit), pages[1..])
  {
    var here, page, rest := Older(rows, before), pages[0], pages[1..];
    var next := NextBefore(page, limit);
    PageWithinAtLeast(here, limit, page);
    assert page[limit - 1] in page;
    if ShowsAll(rows, before, pages) {
      forall r | r in AtLeast(here, Oldest(page)) ensures r in page {
        if r in All(rest) {
          ShownIsOlder(rows, limit, next, rest, r);
        }
      }
      forall r | r in Older(rows, next) ensures r in All(rest) {
        assert r in here;
        if r in page {
          LastIsOldest(here, limit, page, r);
        }
      }
    }
    if Whole(here, page) && ShowsAll(rows, next, rest) {
      forall r | r in here ensures r in All(pages) {
        if r.time >= Oldest(page) {
          assert r in AtLeast(here, Oldest(page));
        } else {
          assert r in Older(rows, next);
        }
      }
    }
  }

  /** A complete walk shows every matching row if and only if no page boundary falls inside a
      group of equal timestamps. The table and the page size decide; how the database orders
      ties does not. */
  lemma {:induction false} ShowsAllIffNoSplit(rows: set<Row>, limit: nat, before: Option<int>, pages: seq<seq<Row>>)
    requires limit >= 1 && Follows(rows, limit, before, pages) && Complete(limit, pages)
    ensures ShowsAll(rows, before, pages) <==> NoSplit(Older(rows, before), limit)
    decreases |pages|
  {
    var here, page := Older(rows, before), pages[0];
    if |page| < limit {
      MembersSize(page);
      assert here == Members(page);
    } else {
      var next := NextBefore(page, limit);
      ShowsAllIffNoSplit(rows, limit, next, pages[1..]);
      ShowsAllAfterPage(rows, limit, before, pages);
      NoSplitAtPage(here, limit, page);
      assert page[limit - 1] in page;
      assert Below(here, Oldest(page)) == Older(rows, next);
    }
  }

  /** With distinct timestamps a complete walk from the top shows every matching row, and each
      exactly once. */
  lemma DistinctTimesMissNothing(rows: set<Row>, limit: nat, pages: seq<seq<Row>>, r: Row)
    requires limit >= 1 && Follows(rows, limit, None, pages) && Complete(limit, pages) && r in rows
    requires forall p, q :: p in rows && q in rows && p.time == q.time ==> p == q
    ensures r in All(pages) && Distinct(All(pages))
  {
    WalkOrdered(rows, limit, None, pages);
    MissedIffCutOff(rows, limit, None, pages, r);
    NoTieNoCut(rows, limit, None, pages, r);
  }

  lemma {:induction false} NoTieNoCut(rows: set<Row>, limit: nat, before: Option<int>, pages: seq<seq<Row>>, r: Row)
    requires limit >= 1 && Follows(rows, limit, before, pages) && r in rows
    requires forall p, q :: p in rows && q in rows && p.time == q.time ==> p == q
    ensures !CutOff(limit, pages, r)
    decreases |pages|
  {
    var page := pages[0];
    if page != [] {
      assert page[|page| - 1] in page && page[|page| - 1] in rows;
    }
    if |pages| > 1 {
      NoTieNoCut(rows, limit, NextBefore(page, limit), pages[1..], r);
    }
  }

  /** Following the cursor over a fixed table always ends: every full page leaves fewer rows
      ahead, so no walk has more pages than rows, plus one. */
  lemma {:induction false} WalkEnds(rows: set<Row>, limit: nat, before: Option<int>, pages: seq<seq<Row>>)
    requires limit >= 1 && Follows(rows, limit, before, pages)
    ensures |pages| <= |Older(rows, before)| + 1
    decreases |pages|
  {
    if |pages| > 1 {
      WalkEnds(rows, limit, NextBefore(pages[0], limit), pages[1..]);
      AheadShrinks(rows, limit, before, pages[0]);
    }
  }

  lemma AheadShrinks(rows: set<Row>, limit: nat, before: Option<int>, page: seq<Row>)
    requires limit >= 1 && IsPage(Older(rows, before), limit, page) && |page| == limit
    ensures |Older(rows, NextBefore(page, limit))| < |Older(rows, before)|
  {
    var here, ahead := Older(rows, before), Older(rows, NextBefore(page, limit));
    var last := page[limit - 1];
    assert last in page;
    assert here == ahead + (here - ahead);
    assert last in here - ahead;
  }

  /** A client that follows the cursor until a page carries none. */
  method Walk(table: set<Row>, f: Filter, matches: (string, string) -> bool, asked: Option<int>)
    returns (pages: seq<seq<Row>>)
    ensures Follows(Matching(table, f, matches), ClampLimit(asked), None, pages)
    ensures Complete(ClampLimit(asked), pages)
    ensures forall r :: r in All(pages) ==> r in table && !Excluded(f, matches, r)
    ensures forall r :: r in table && r !in All(pages) ==>
              Excluded(f, matches, r) || CutOff(ClampLimit(asked), pages, r)
  {
    pages := WalkFrom(Matching(table, f, matches), ClampLimit(asked), None);
    forall r | r in All(pages) ensures r in table && !Excluded(f, matches, r) {
      ShownIsOlder(Matching(table, f, matches), ClampLimit(asked), None, pages, r);
    }
    forall r | r in table && r !in All(pages) && !Excluded(f, matches, r)
      ensures CutOff(ClampLimit(asked), pages, r)
    {
      assert r in Older(Matching(table, f, matches), None);
      MissedIffCutOff(Matching(table, f, matches), ClampLimit(asked), None, pages, r);
    }
  }

  method WalkFrom(rows: set<Row>, limit: nat, before: Option<int>) returns (pages: seq<seq<Row>>)
    requires limit >= 1
    ensures Follows(rows, limit, before, pages) && Complete(limit, pages)
    decreases |Older(rows, before)|
  {
    var page := Query(Older(rows, before), limit);
    var next := NextBefore(page, limit);
    if next.None? {
      return [page];
    }
    AheadShrinks(rows, limit, before, page);
    var rest := WalkFrom(rows, limit, next);
    pages := [page] + rest;
  }
}
