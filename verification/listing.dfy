/** Reading the table back: rows are listed by percent change, largest first, with no
    rule for rows that tie; a refresh is triggered when the table is empty or when the
    first listed row is more than five minutes old. */
module Listing {
  import opened Models
  import opened Update

  /** Five minutes, in microseconds. */
  const StaleAfter: int := 5 * 60 * 1000000

  /** Percent change never increases along the listing. */
  ghost predicate SortedByGain(view: seq<Stock>)
  {
    forall i, j :: 0 <= i < j < |view| ==> view[i].priceChangePercent >= view[j].priceChangePercent
  }

  /** `view` is an order in which the table `rows` may be listed: the same rows, largest
      percent change first. Rows with equal percent change may come in either order. */
  ghost predicate IsListing(rows: seq<Stock>, view: seq<Stock>)
  {
    multiset(view) == multiset(rows) && SortedByGain(view)
  }

  /** `s` placed into a listing before the first row with a smaller percent change. */
  function Insert(s: Stock, view: seq<Stock>): (r: seq<Stock>)
    requires SortedByGain(view)
    ensures multiset(r) == multiset(view) + multiset{s}
    ensures SortedByGain(r)
    ensures |r| == |view| + 1
    ensures r[0] == s || (|view| > 0 && r[0] == view[0])
  {
    if |view| == 0 then [s]
    else if s.priceChangePercent >= view[0].priceChangePercent then [s] + view
    else
      var head, tail := view[0], view[1..];
      assert view == [head] + tail;
      var rest := Insert(s, tail);
      assert forall j :: 0 <= j < |rest| ==> rest[0].priceChangePercent >= rest[j].priceChangePercent;
      assert head.priceChangePercent >= rest[0].priceChangePercent;
      [head] + rest
  }

  /** One listing of the table; a listing exists for every table. */
  function SortByGain(rows: seq<Stock>): (view: seq<Stock>)
    ensures IsListing(rows, view)
  {
    if |rows| == 0 then []
    else
      var init, last := rows[..|rows| - 1], rows[|rows| - 1];
      assert rows == init + [last];
      assert multiset(rows) == multiset(init) + multiset{last};
      Insert(last, SortByGain(init))
  }

  /** Whether a request must refresh before answering: the listing is empty, or its
      first row was written strictly more than five minutes before `now`. */
  function NeedsUpdate(view: seq<Stock>, now: Time): (r: bool)
    ensures |view| == 0 ==> r
    ensures |view| > 0 ==> (r <==> now - view[0].lastUpdated > StaleAfter)
  {
    |view| == 0 || view[0].lastUpdated < now - StaleAfter
  }

  /** The first listed row has the largest percent change of the table. */
  lemma TopIsBestGainer(rows: seq<Stock>, view: seq<Stock>)
    requires IsListing(rows, view)
    ensures |view| == |rows|
    ensures |view| > 0 ==> view[0] in rows
    ensures |view| > 0 ==>
              forall i :: 0 <= i < |rows| ==> view[0].priceChangePercent >= rows[i].priceChangePercent
  {
    assert |view| == |multiset(view)| == |multiset(rows)| == |rows|;
    if |view| > 0 {
      assert view[0] in multiset(view);
      forall i | 0 <= i < |rows|
        ensures view[0].priceChangePercent >= rows[i].priceChangePercent
      {
        assert rows[i] in multiset(rows);
        assert rows[i] in view;
        var j :| 0 <= j < |view| && view[j] == rows[i];
      }
    }
  }

  /** After a refresh whose writes all fall between `lo` and `hi`, a request at `now`
      refreshes again when `now` is more than five minutes after `hi`, and does not when
      it is at most five minutes after `lo`, whichever row the listing puts first. */
  lemma StalenessAfterRefresh(tickers: seq<string>, provider: Provider, clock: Clock,
                              view: seq<Stock>, lo: Time, hi: Time, now: Time)
    requires |tickers| > 0
    requires forall i :: 0 <= i < |tickers| ==> lo <= clock(i) <= hi
    requires IsListing(Refresh(tickers, provider, clock), view)
    ensures now - hi > StaleAfter ==> NeedsUpdate(view, now)
    ensures now - lo <= StaleAfter ==> !NeedsUpdate(view, now)
  {
    var rows := Refresh(tickers, provider, clock);
    TopIsBestGainer(rows, view);
    var k :| 0 <= k < |rows| && rows[k] == view[0];
    assert view[0].lastUpdated == clock(k);
  }

  /** Each row of a cycle is stamped when it is inserted, so rows that tie on percent
      change can carry different times, and two permitted listings can put different
      rows first. Their staleness decisions can differ only for a request whose
      five-minute horizon falls inside the cycle's write window. */
  lemma ListingChoiceMattersOnlyInsideWriteWindow(tickers: seq<string>, provider: Provider, clock: Clock,
                                                  v1: seq<Stock>, v2: seq<Stock>,
                                                  lo: Time, hi: Time, now: Time)
    requires |tickers| > 0
    requires forall i :: 0 <= i < |tickers| ==> lo <= clock(i) <= hi
    requires IsListing(Refresh(tickers, provider, clock), v1)
    requires IsListing(Refresh(tickers, provider, clock), v2)
    ensures NeedsUpdate(v1, now) != NeedsUpdate(v2, now) ==> lo < now - StaleAfter <= hi
  {
    StalenessAfterRefresh(tickers, provider, clock, v1, lo, hi, now);
    StalenessAfterRefresh(tickers, provider, clock, v2, lo, hi, now);
  }

  /** No two different rows share a percent change. */
  ghost predicate NoTies(rows: seq<Stock>)
  {
    forall i, j :: 0 <= i < |rows| && 0 <= j < |rows| && rows[i].priceChangePercent == rows[j].priceChangePercent ==>
      rows[i] == rows[j]
  }

  /** Listing the rows does not create ties. */
  lemma NoTiesInListing(rows: seq<Stock>, view: seq<Stock>)
    requires NoTies(rows) && multiset(view) == multiset(rows)
    ensures NoTies(view)
  {
    forall i, j | 0 <= i < |view| && 0 <= j < |view| && view[i].priceChangePercent == view[j].priceChangePercent
      ensures view[i] == view[j]
    {
      assert view[i] in multiset(rows) && view[j] in multiset(rows);
      var x :| 0 <= x < |rows| && rows[x] == view[i];
      var y :| 0 <= y < |rows| && rows[y] == view[j];
    }
  }

  /** Dropping the first row keeps a listing sorted and free of ties. */
  lemma TailOfListing(v: seq<Stock>)
    requires |v| > 0 && SortedByGain(v)
    ensures SortedByGain(v[1..])
    ensures NoTies(v) ==> NoTies(v[1..])
    ensures multiset(v[1..]) == multiset(v) - multiset{v[0]}
  {
    assert v == [v[0]] + v[1..];
  }

  /** Two sorted orderings of the same rows without ties start with the same row. */
  lemma SameHead(v1: seq<Stock>, v2: seq<Stock>)
    requires |v1| > 0 && multiset(v1) == multiset(v2)
    requires SortedByGain(v1) && SortedByGain(v2) && NoTies(v1)
    ensures |v2| > 0 && v1[0] == v2[0]
  {
    assert v1[0] in multiset(v2) && v2[0] in multiset(v1);
    var a :| 0 <= a < |v2| && v2[a] == v1[0];
    var b :| 0 <= b < |v1| && v1[b] == v2[0];
    assert v1[0].priceChangePercent >= v1[b].priceChangePercent;
    assert v2[0].priceChangePercent >= v2[a].priceChangePercent;
  }

  /** Two orderings of the same rows, both by descending percent change and with no
      ties, are the same sequence. */
  lemma {:induction false} SortedWithoutTiesUnique(v1: seq<Stock>, v2: seq<Stock>)
    requires multiset(v1) == multiset(v2)
    requires SortedByGain(v1) && SortedByGain(v2) && NoTies(v1)
    ensures v1 == v2
    decreases |v1|
  {
    if |v1| > 0 {
      SameHead(v1, v2);
      TailOfListing(v1);
      TailOfListing(v2);
      var t1, t2 := v1[1..], v2[1..];
      assert multiset(t1) == multiset(t2);
      SortedWithoutTiesUnique(t1, t2);
      assert v1 == [v1[0]] + t1;
      assert v2 == [v2[0]] + t2;
    }
  }

  /** Without ties the listing is fully determined: any two listings are equal. */
  lemma ListingUniqueWithoutTies(rows: seq<Stock>, v1: seq<Stock>, v2: seq<Stock>)
    requires NoTies(rows)
    requires IsListing(rows, v1) && IsListing(rows, v2)
    ensures v1 == v2
  {
    NoTiesInListing(rows, v1);
    SortedWithoutTiesUnique(v1, v2);
  }

  /** Rows that tie may be listed in either order: the ordering has no tie-breaker. */
  lemma TiedRowsEitherOrder(a: Stock, b: Stock)
    requires a.priceChangePercent == b.priceChangePercent
    ensures IsListing([a, b], [a, b]) && IsListing([a, b], [b, a])
  {
  }
}
