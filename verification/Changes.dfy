/** The change feed: `GET /v1/changes?since=&limit=`. */
module Changes {
  import opened Types
  import opened Server

  datatype Item = Item(id: DocId, rec: Record)

  datatype Page = Page(items: seq<Item>, nextSince: nat, hasMore: bool)

  const DEFAULT_LIMIT: int := 100
  const MAX_LIMIT: int := 500
  // What a device asks for.
  const PAGE_LIMIT: int := 200

  /** `server_seq` is UNIQUE in the document table. */
  ghost predicate DistinctSeqs(docs: map<DocId, Record>) {
    forall i, j :: i in docs && j in docs && docs[i].seqNo == docs[j].seqNo ==> i == j
  }

  predicate Ascending(items: seq<Item>) {
    forall i, j :: 0 <= i < j < |items| ==> items[i].rec.seqNo < items[j].rec.seqNo
  }

  predicate Stored(docs: map<DocId, Record>, lo: nat, hi: nat, item: Item) {
    item.id in docs && docs[item.id] == item.rec && lo < item.rec.seqNo <= hi
  }

  predicate NoneMissing(docs: map<DocId, Record>, lo: nat, hi: nat, items: seq<Item>) {
    forall id :: id in docs && lo < docs[id].seqNo <= hi ==> Item(id, docs[id]) in items
  }

  /** `items` are exactly the documents with `lo < server_seq <= hi`, in that order. */
  predicate Lists(docs: map<DocId, Record>, lo: nat, hi: nat, items: seq<Item>) {
    && Ascending(items)
    && (forall i :: 0 <= i < |items| ==> Stored(docs, lo, hi, items[i]))
    && NoneMissing(docs, lo, hi, items)
  }

  predicate AnyBeyond(docs: map<DocId, Record>, lo: nat) {
    exists id :: id in docs && lo < docs[id].seqNo
  }

  /** What the server answers to `since` and an accepted `limit`. */
  predicate IsPage(docs: map<DocId, Record>, since: nat, limit: nat, page: Page) {
    && |page.items| <= limit
    && page.nextSince == (if page.items == [] then since else page.items[|page.items| - 1].rec.seqNo)
    && Lists(docs, since, page.nextSince, page.items)
    && page.hasMore == AnyBeyond(docs, page.nextSince)
    && (page.hasMore ==> |page.items| == limit)
  }

  // ------------------------------------------------------------------ listings -------------

  lemma {:induction false} ListingUnique(docs: map<DocId, Record>, lo: nat, hi: nat, a: seq<Item>, b: seq<Item>)
    requires DistinctSeqs(docs) && Lists(docs, lo, hi, a) && Lists(docs, lo, hi, b)
    ensures a == b
    decreases |a|
  {
    hide Lists, DistinctSeqs;
    NothingListed(docs, lo, hi, a, b);
    if a != [] {
      FirstListed(docs, lo, hi, a, b);
      ListingTail(docs, lo, hi, a);
      ListingTail(docs, lo, hi, b);
      ListingUnique(docs, a[0].rec.seqNo, hi, a[1..], b[1..]);
      assert a == [a[0]] + a[1..] && b == [b[0]] + b[1..];
    }
  }

  lemma NothingListed(docs: map<DocId, Record>, lo: nat, hi: nat, a: seq<Item>, b: seq<Item>)
    requires Lists(docs, lo, hi, a) && Lists(docs, lo, hi, b)
    ensures a == [] <==> b == []
  {
    if a != [] {
      assert Stored(docs, lo, hi, a[0]);
      assert Item(a[0].id, docs[a[0].id]) in b;
    }
    if b != [] {
      assert Stored(docs, lo, hi, b[0]);
      assert Item(b[0].id, docs[b[0].id]) in a;
    }
  }

  /** The first item of a listing is the one with the least number. */
  lemma FirstListed(docs: map<DocId, Record>, lo: nat, hi: nat, a: seq<Item>, b: seq<Item>)
    requires DistinctSeqs(docs) && Lists(docs, lo, hi, a) && Lists(docs, lo, hi, b) && a != [] && b != []
    ensures a[0] == b[0]
  {
    assert Stored(docs, lo, hi, a[0]) && Stored(docs, lo, hi, b[0]);
    assert Item(a[0].id, docs[a[0].id]) in b;
    assert Item(b[0].id, docs[b[0].id]) in a;
  }

  lemma ListingTail(docs: map<DocId, Record>, lo: nat, hi: nat, a: seq<Item>)
    requires Lists(docs, lo, hi, a) && a != []
    ensures Lists(docs, a[0].rec.seqNo, hi, a[1..])
  {
    var mid := a[0].rec.seqNo;
    forall i | 0 <= i < |a[1..]| ensures Stored(docs, mid, hi, a[1..][i]) {
      assert Stored(docs, lo, hi, a[i + 1]);
    }
    assert Stored(docs, lo, hi, a[0]);
    forall id | id in docs && mid < docs[id].seqNo <= hi ensures Item(id, docs[id]) in a[1..] {
      assert Item(id, docs[id]) in a;
    }
  }

  /** Consecutive listings join to one listing. */
  lemma ListingsJoin(docs: map<DocId, Record>, lo: nat, mid: nat, hi: nat, a: seq<Item>, b: seq<Item>)
    requires lo <= mid <= hi && Lists(docs, lo, mid, a) && Lists(docs, mid, hi, b)
    ensures Lists(docs, lo, hi, a + b)
  {
    forall i | 0 <= i < |a + b| ensures Stored(docs, lo, hi, (a + b)[i]) {
      if i < |a| {
        assert Stored(docs, lo, mid, a[i]);
      } else {
        assert Stored(docs, mid, hi, b[i - |a|]);
      }
    }
    forall i, j | 0 <= i < j < |a + b| ensures (a + b)[i].rec.seqNo < (a + b)[j].rec.seqNo {
      if i < |a| <= j {
        assert Stored(docs, lo, mid, a[i]) && Stored(docs, mid, hi, b[j - |a|]);
      }
    }
  }

  /** The answer to a request is determined by the table. */
  lemma PageUnique(docs: map<DocId, Record>, since: nat, limit: nat, p: Page, q: Page)
    requires DistinctSeqs(docs) && IsPage(docs, since, limit, p) && IsPage(docs, since, limit, q)
    ensures p == q
  {
    if p.nextSince < q.nextSince {
      PageNotShorter(docs, since, limit, p, q);
    } else if q.nextSince < p.nextSince {
      PageNotShorter(docs, since, limit, q, p);
    }
    ListingUnique(docs, since, p.nextSince, p.items, q.items);
  }

  lemma PageNotShorter(docs: map<DocId, Record>, since: nat, limit: nat, p: Page, q: Page)
    requires DistinctSeqs(docs) && IsPage(docs, since, limit, p) && IsPage(docs, since, limit, q)
    ensures p.nextSince >= q.nextSince
  {
    if p.nextSince < q.nextSince {
      var last := |q.items| - 1;
      assert Stored(docs, since, q.nextSince, q.items[last]);
      assert AnyBeyond(docs, p.nextSince);
      SplitListing(docs, since, q.nextSince, q.items, p.nextSince, p.items);
    }
  }

  /** A listing up to a smaller bound is a proper prefix when its bound leaves something out. */
  lemma {:induction false} SplitListing(docs: map<DocId, Record>, lo: nat, hi: nat, all: seq<Item>, mid: nat, part: seq<Item>)
    requires DistinctSeqs(docs) && lo <= mid < hi
    requires Lists(docs, lo, hi, all) && Lists(docs, lo, mid, part)
    requires all != [] && all[|all| - 1].rec.seqNo > mid
    ensures |part| < |all|
    decreases |part|
  {
    hide Lists, DistinctSeqs;
    if part != [] {
      FirstOfPart(docs, lo, hi, all, mid, part);
      ListingTail(docs, lo, hi, all);
      ListingTail(docs, lo, mid, part);
      SplitListing(docs, part[0].rec.seqNo, hi, all[1..], mid, part[1..]);
    }
  }

  lemma FirstOfPart(docs: map<DocId, Record>, lo: nat, hi: nat, all: seq<Item>, mid: nat, part: seq<Item>)
    requires DistinctSeqs(docs) && lo <= mid < hi && Lists(docs, lo, hi, all) && Lists(docs, lo, mid, part)
    requires all != [] && part != []
    ensures all[0] == part[0] && part[0].rec.seqNo <= mid
  {
    assert Stored(docs, lo, mid, part[0]) && Stored(docs, lo, hi, all[0]);
    assert Item(part[0].id, docs[part[0].id]) in all;
    if all[0].rec.seqNo <= mid {
      assert Item(all[0].id, docs[all[0].id]) in part;
    }
  }

  // ------------------------------------------------------------------ the query ------------

  /** The document with the least `server_seq` beyond `lo`. */
  method FirstBeyond(docs: map<DocId, Record>, lo: nat) returns (first: Option<Item>)
    ensures first.None? <==> !AnyBeyond(docs, lo)
    ensures first.Some? ==> Stored(docs, lo, first.value.rec.seqNo, first.value)
    ensures first.Some? ==> forall id :: id in docs && lo < docs[id].seqNo ==> first.value.rec.seqNo <= docs[id].seqNo
  {
    first := None;
    var rest := docs.Keys;
    while rest != {}
      invariant rest <= docs.Keys
      invariant first.None? ==> forall id :: id in docs && id !in rest ==> docs[id].seqNo <= lo
      invariant first.Some? ==> Stored(docs, lo, first.value.rec.seqNo, first.value)
      invariant first.Some? ==>
        forall id :: id in docs && id !in rest && lo < docs[id].seqNo ==> first.value.rec.seqNo <= docs[id].seqNo
    {
      var id :| id in rest;
      rest := rest - {id};
      if lo < docs[id].seqNo && (first.None? || docs[id].seqNo < first.value.rec.seqNo) {
        first := Some(Item(id, docs[id]));
      }
    }
  }

  /** `SELECT … WHERE server_seq > lo ORDER BY server_seq ASC LIMIT n`. */
  method SelectBeyond(docs: map<DocId, Record>, lo: nat, n: nat) returns (items: seq<Item>)
    requires DistinctSeqs(docs)
    ensures |items| <= n
    ensures Lists(docs, lo, if items == [] then lo else items[|items| - 1].rec.seqNo, items)
    ensures |items| < n ==> !AnyBeyond(docs, if items == [] then lo else items[|items| - 1].rec.seqNo)
  {
    items := [];
    var hi := lo;
    while |items| < n
      invariant |items| <= n
      invariant hi == (if items == [] then lo else items[|items| - 1].rec.seqNo) && lo <= hi
      invariant Lists(docs, lo, hi, items)
    {
      var next := FirstBeyond(docs, hi);
      if next.None? {
        break;
      }
      var item := next.value;
      assert Lists(docs, hi, item.rec.seqNo, [item]);
      ListingsJoin(docs, lo, hi, item.rec.seqNo, items, [item]);
      items := items + [item];
      hi := item.rec.seqNo;
    }
  }

  /** `list_changes`: one row more than asked for tells whether there is more. */
  method ListChanges(docs: map<DocId, Record>, sinceParam: Option<int>, limitParam: Option<int>)
    returns (r: Result<Page, int>)
    requires DistinctSeqs(docs)
    ensures var since := if sinceParam.Some? && sinceParam.value > 0 then sinceParam.value else 0;
      var limit := if limitParam.Some? then limitParam.value else 100;
      if 1 <= limit <= 500 then r.Ok? && IsPage(docs, since, limit, r.value) else r == Err(limit)
  {
    var since := if sinceParam.Some? && sinceParam.value > 0 then sinceParam.value else 0;
    var limit := if limitParam.Some? then limitParam.value else DEFAULT_LIMIT;
    if limit <= 0 || limit > MAX_LIMIT {
      return Err(limit);
    }
    hide IsPage, Lists, DistinctSeqs, AnyBeyond;
    var items := SelectBeyond(docs, since, limit + 1);
    TruncatedIsPage(docs, since, limit, items);
    var hasMore := |items| > limit;
    if hasMore {
      items := items[..limit];
    }
    var nextSince := if items == [] then since else items[|items| - 1].rec.seqNo;
    r := Ok(Page(items, nextSince, hasMore));
  }

  /** The least numbers beyond `since`, one more than asked for, cut back to a page. */
  lemma TruncatedIsPage(docs: map<DocId, Record>, since: nat, limit: nat, all: seq<Item>)
    requires 0 < limit && |all| <= limit + 1
    requires Lists(docs, since, if all == [] then since else all[|all| - 1].rec.seqNo, all)
    requires |all| <= limit ==> !AnyBeyond(docs, if all == [] then since else all[|all| - 1].rec.seqNo)
    ensures var items := if |all| > limit then all[..limit] else all;
      var nextSince := if items == [] then since else items[|items| - 1].rec.seqNo;
      IsPage(docs, since, limit, Page(items, nextSince, |all| > limit))
  {
    hide Lists;
    if |all| > limit {
      PrefixLists(docs, since, all, limit);
      ListedBeyond(docs, since, all, limit);
    }
  }

  lemma ListedBeyond(docs: map<DocId, Record>, lo: nat, all: seq<Item>, n: nat)
    requires 0 < n < |all| && Lists(docs, lo, all[|all| - 1].rec.seqNo, all)
    ensures AnyBeyond(docs, all[n - 1].rec.seqNo)
  {
    assert Stored(docs, lo, all[|all| - 1].rec.seqNo, all[n]);
  }

  lemma PrefixLists(docs: map<DocId, Record>, lo: nat, all: seq<Item>, n: nat)
    requires 0 < n < |all| && Lists(docs, lo, all[|all| - 1].rec.seqNo, all)
    ensures Lists(docs, lo, all[n - 1].rec.seqNo, all[..n])
  {
    var hi := all[n - 1].rec.seqNo;
    forall i | 0 <= i < n ensures Stored(docs, lo, hi, all[..n][i]) {
      assert Stored(docs, lo, all[|all| - 1].rec.seqNo, all[i]);
    }
    forall id | id in docs && lo < docs[id].seqNo <= hi ensures Item(id, docs[id]) in all[..n] {
      assert hi <= all[|all| - 1].rec.seqNo;
      var i :| 0 <= i < |all| && all[i] == Item(id, docs[id]);
      assert i < n;
      assert all[..n][i] == all[i];
    }
  }

  // ------------------------------------------------------------------ following pages ------

  ghost function Beyond(docs: map<DocId, Record>, lo: nat): set<DocId> {
    set id | id in docs && lo < docs[id].seqNo
  }

  /** Following `next_since` on a table that stays as it is, with any limits, ends, and the pages
      joined are the one listing of everything beyond the start. */
  method FollowPages(docs: map<DocId, Record>, since: nat) returns (all: seq<Item>, last: nat)
    requires DistinctSeqs(docs)
    ensures Lists(docs, since, last, all) && !AnyBeyond(docs, last)
    ensures forall other, hi :: Lists(docs, since, hi, other) && !AnyBeyond(docs, hi) ==> other == all
  {
    all, last := [], since;
    var more := true;
    while more
      invariant since <= last && Lists(docs, since, last, all)
      invariant !more ==> !AnyBeyond(docs, last)
      decreases Beyond(docs, last), more
    {
      var limit: int :| 1 <= limit <= MAX_LIMIT;
      var r := ListChanges(docs, Some(last), Some(limit));
      var page := r.value;
      ListingsJoin(docs, since, last, page.nextSince, all, page.items);
      if page.hasMore {
        assert Stored(docs, last, page.nextSince, page.items[0]);
        assert page.items[0].id in Beyond(docs, last) && last < page.nextSince;
        assert Stored(docs, last, page.nextSince, page.items[|page.items| - 1]);
        var done := page.items[|page.items| - 1].id;
        assert done in Beyond(docs, last) && done !in Beyond(docs, page.nextSince);
      }
      all, last, more := all + page.items, page.nextSince, page.hasMore;
    }
    forall other, hi | Lists(docs, since, hi, other) && !AnyBeyond(docs, hi) ensures other == all {
      ListingAnyBound(docs, since, hi, last, other);
      ListingUnique(docs, since, last, other, all);
    }
  }

  lemma ListingAnyBound(docs: map<DocId, Record>, lo: nat, hi: nat, hi': nat, a: seq<Item>)
    requires Lists(docs, lo, hi, a) && !AnyBeyond(docs, hi) && !AnyBeyond(docs, hi')
    ensures Lists(docs, lo, hi', a)
  {
    forall i | 0 <= i < |a| ensures Stored(docs, lo, hi', a[i]) {
      assert Stored(docs, lo, hi, a[i]);
    }
  }

  /** No page answered to `since` holds a record with `server_seq` below `since`, whatever the
      table has been rolled back to: a device that pulls from its cursor is never warned. */
  lemma NoPageShowsARollback(docs: map<DocId, Record>, cursor: nat, limit: nat, page: Page)
    requires IsPage(docs, cursor, limit, page)
    ensures forall i :: 0 <= i < |page.items| ==> !(page.items[i].rec.seqNo < cursor)
  {
    forall i | 0 <= i < |page.items| ensures cursor < page.items[i].rec.seqNo {
      assert Stored(docs, cursor, page.nextSince, page.items[i]);
    }
  }
}
