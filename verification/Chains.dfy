/** The explorer's side of a sync: block-sorted rows, served in pages of a window. */
module Chains {
  import opened Common

  /** A raw explorer row: its block and whatever identifies it. */
  datatype Row = Row(block: nat, key: string)

  ghost predicate Sorted(rows: seq<Row>) {
    forall i, j | 0 <= i < j < |rows| :: rows[i].block <= rows[j].block
  }

  /** The rows of blocks `lo..hi`, in chain order. */
  function Window(chain: seq<Row>, lo: int, hi: int): seq<Row> {
    if |chain| == 0 then []
    else
      var rest := Window(chain[..|chain| - 1], lo, hi);
      var last := chain[|chain| - 1];
      if lo <= last.block <= hi then rest + [last] else rest
  }

  datatype Order = Asc | Desc

  /** The window as one `(start, end, sort)` request pages it. */
  function Listing(chain: seq<Row>, lo: int, hi: int, sort: Order): seq<Row> {
    if sort.Asc? then Window(chain, lo, hi) else Reversed(Window(chain, lo, hi))
  }

  /** How many rows `pages` full pages hold: their product. */
  function Span(pages: nat, size: nat): nat {
    if pages == 0 then 0 else Span(pages - 1, size) + size
  }

  lemma {:induction false} SpanIsProduct(pages: nat, size: nat)
    ensures Span(pages, size) == pages * size
  {
    if pages > 0 {
      SpanIsProduct(pages - 1, size);
    }
  }

  /** Page `page` (from 1) of `size` rows. */
  function Page(rows: seq<Row>, page: nat, size: nat): seq<Row>
    requires page >= 1
  {
    var from := Span(page - 1, size);
    if from >= |rows| then [] else if from + size >= |rows| then rows[from..] else rows[from..from + size]
  }

  lemma {:induction false} WindowHas(chain: seq<Row>, lo: int, hi: int)
    ensures forall r :: r in Window(chain, lo, hi) <==> r in chain && lo <= r.block <= hi
  {
    hide Sorted;
    if |chain| > 0 {
      WindowHas(chain[..|chain| - 1], lo, hi);
      assert chain == chain[..|chain| - 1] + [chain[|chain| - 1]];
    }
  }

  lemma {:induction false} WindowSorted(chain: seq<Row>, lo: int, hi: int)
    requires Sorted(chain)
    ensures Sorted(Window(chain, lo, hi))
  {
    if |chain| > 0 {
      var n := |chain| - 1;
      var rest := Window(chain[..n], lo, hi);
      WindowSorted(chain[..n], lo, hi);
      WindowHas(chain[..n], lo, hi);
      forall k | 0 <= k < |rest|
        ensures rest[k].block <= chain[n].block
      {
        assert rest[k] in chain[..n];
      }
    }
  }

  lemma ListingHas(chain: seq<Row>, lo: int, hi: int, sort: Order)
    ensures forall r :: r in Listing(chain, lo, hi, sort) <==> r in chain && lo <= r.block <= hi
  {
    WindowHas(chain, lo, hi);
    var w := Window(chain, lo, hi);
    forall r
      ensures r in Reversed(w) <==> r in w
    {
      if r in w {
        var k :| 0 <= k < |w| && w[k] == r;
        assert Reversed(w)[|w| - 1 - k] == r;
      }
    }
  }

  /** Rows that land above a window leave it as it was... */
  lemma {:induction false} GrowthAbove(chain: seq<Row>, more: seq<Row>, lo: int, hi: int)
    requires forall r :: r in more ==> r.block > hi
    ensures Window(chain + more, lo, hi) == Window(chain, lo, hi)
  {
    if |more| == 0 {
      assert chain + more == chain;
    } else {
      var n := |more| - 1;
      assert (chain + more)[..|chain + more| - 1] == chain + more[..n];
      assert more[n] in more;
      GrowthAbove(chain, more[..n], lo, hi);
    }
  }

  /** ... and rows that land inside it only extend it. */
  lemma {:induction false} GrowthExtends(chain: seq<Row>, more: seq<Row>, lo: int, hi: int)
    ensures Window(chain, lo, hi) <= Window(chain + more, lo, hi)
  {
    if |more| == 0 {
      assert chain + more == chain;
    } else {
      var n := |more| - 1;
      assert (chain + more)[..|chain + more| - 1] == chain + more[..n];
      GrowthExtends(chain, more[..n], lo, hi);
    }
  }

  function MaxBlock(rows: seq<Row>): (m: nat)
    requires rows != []
    ensures forall r :: r in rows ==> r.block <= m
    ensures exists r :: r in rows && r.block == m
  {
    if |rows| == 1 then rows[0].block
    else
      var rest := MaxBlock(rows[1..]);
      if rows[0].block > rest then rows[0].block else rest
  }

  function MinBlock(rows: seq<Row>): (m: nat)
    requires rows != []
    ensures forall r :: r in rows ==> m <= r.block
    ensures exists r :: r in rows && r.block == m
  {
    if |rows| == 1 then rows[0].block
    else
      var rest := MinBlock(rows[1..]);
      if rows[0].block < rest then rows[0].block else rest
  }

  /** The first `n` rows of a listing are all in hand. */
  ghost predicate FirstIn(rows: seq<Row>, n: int, have: set<Row>) {
    forall k | 0 <= k < n && k < |rows| :: rows[k] in have
  }

  /** One more page in hand extends the first run by its size. */
  lemma PageExtends(rows: seq<Row>, page: nat, size: nat, have: set<Row>)
    requires page >= 1 && FirstIn(rows, Span(page - 1, size), have)
    requires forall r :: r in Page(rows, page, size) ==> r in have
    ensures FirstIn(rows, Span(page, size), have)
  {
    var from := Span(page - 1, size);
    forall k | 0 <= k < Span(page, size) && k < |rows|
      ensures rows[k] in have
    {
      if k >= from {
        assert rows[k] == Page(rows, page, size)[k - from];
      }
    }
  }

  /** A page is short exactly when the listing ends on it. */
  lemma ShortPageDrains(rows: seq<Row>, page: nat, size: nat)
    requires page >= 1 && size > 0 && Span(page - 1, size) <= |rows|
    ensures |Page(rows, page, size)| <= size
    ensures |Page(rows, page, size)| < size <==> |rows| < Span(page, size)
  {
  }
}
