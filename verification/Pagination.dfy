/** Greedy pagination of items of any heights: page contents, positions, and why no split uses fewer pages. */
module Pagination {

  const TOP := 730
  const BOTTOM := 50
  const ROOM := TOP - BOTTOM

  /** The height of an item: it fits on an empty page. */
  type Extent = n: int | 0 < n <= ROOM witness 1

  /** An item and the vertical position it is drawn at. */
  datatype Placed<+T> = Placed(item: T, y: int)

  // ---- The greedy split

  function Total<T>(height: T -> Extent, items: seq<T>): nat {
    if items == [] then 0 else Total(height, items[..|items| - 1]) + height(items[|items| - 1])
  }

  /** How many items fit below each other in the given room. */
  function Fit<T>(height: T -> Extent, items: seq<T>, room: int): (n: nat)
    ensures n <= |items|
  {
    if items == [] || height(items[0]) > room then 0 else 1 + Fit(height, items[1..], room - height(items[0]))
  }

  function Greedy<T>(height: T -> Extent, items: seq<T>): seq<seq<T>>
    decreases |items|
  {
    if items == [] then []
    else
      var n := Fit(height, items, ROOM);
      [items[..n]] + Greedy(height, items[n..])
  }

  function Concat<T>(pages: seq<seq<T>>): seq<T> {
    if pages == [] then [] else pages[0] + Concat(pages[1..])
  }

  lemma {:induction false} TotalFront<T>(height: T -> Extent, items: seq<T>)
    requires items != []
    ensures Total(height, items) == height(items[0]) + Total(height, items[1..])
  {
    if |items| == 1 {
      assert items[..0] == [];
    } else {
      var init := items[..|items| - 1];
      TotalFront(height, init);
      assert init[1..] == items[1..][..|items| - 2];
    }
  }

  /** A prefix fits exactly when it is no longer than `Fit`. */
  lemma {:induction false} FitIsLongest<T>(height: T -> Extent, items: seq<T>, room: int, k: nat)
    requires k <= |items| && room >= 0
    ensures Total(height, items[..k]) <= room <==> k <= Fit(height, items, room)
  {
    if k > 0 {
      TotalFront(height, items[..k]);
      assert items[..k][1..] == items[1..][..k - 1];
      if height(items[0]) <= room {
        FitIsLongest(height, items[1..], room - height(items[0]), k - 1);
      }
    }
  }

  /** Every page is non-empty and fits, and the pages are the items in order. */
  lemma {:induction false} GreedyIsSplit<T>(height: T -> Extent, items: seq<T>)
    ensures Concat(Greedy(height, items)) == items
    ensures forall i | 0 <= i < |Greedy(height, items)| ::
              Greedy(height, items)[i] != [] && Total(height, Greedy(height, items)[i]) <= ROOM
    decreases |items|
  {
    if items != [] {
      var n := Fit(height, items, ROOM);
      FitIsLongest(height, items, ROOM, n);
      GreedyIsSplit(height, items[n..]);
      assert items == items[..n] + items[n..];
    }
  }

  /** Dropping the first item never needs more pages. */
  lemma {:induction false} GreedyDropOne<T>(height: T -> Extent, items: seq<T>)
    requires items != []
    ensures |Greedy(height, items[1..])| <= |Greedy(height, items)|
    decreases |items|, 0
  {
    if |items| > 1 {
      var rest := items[1..];
      var n, m := Fit(height, items, ROOM), Fit(height, rest, ROOM);
      FitShrinks(height, items);
      GreedyCount(height, items);
      GreedyCount(height, rest);
      GreedyDropMany(height, items[n..], m + 1 - n);
      assert items[n..][m + 1 - n..] == rest[m..];
    }
  }

  lemma GreedyCount<T>(height: T -> Extent, items: seq<T>)
    requires items != []
    ensures 0 < Fit(height, items, ROOM) <= |items|
    ensures |Greedy(height, items)| == 1 + |Greedy(height, items[Fit(height, items, ROOM)..])|
  {
  }

  /** Without its first item, a page's worth still reaches as far. */
  lemma FitShrinks<T>(height: T -> Extent, items: seq<T>)
    requires |items| > 1
    ensures Fit(height, items, ROOM) <= Fit(height, items[1..], ROOM) + 1
  {
    var n := Fit(height, items, ROOM);
    FitIsLongest(height, items, ROOM, n);
    TotalFront(height, items[..n]);
    assert items[..n][1..] == items[1..][..n - 1];
    FitIsLongest(height, items[1..], ROOM, n - 1);
  }

  lemma {:induction false} GreedyDropMany<T>(height: T -> Extent, items: seq<T>, k: nat)
    requires k <= |items|
    ensures |Greedy(height, items[k..])| <= |Greedy(height, items)|
    decreases |items|, k
  {
    if k > 0 {
      GreedyDropOne(height, items);
      GreedyDropMany(height, items[1..], k - 1);
      assert items[1..][k - 1..] == items[k..];
    } else {
      assert items[0..] == items;
    }
  }

  /** No split of the items, in order, into pages that fit uses fewer pages. */
  lemma {:induction false} GreedyIsOptimal<T>(height: T -> Extent, items: seq<T>, pages: seq<seq<T>>)
    requires Concat(pages) == items
    requires forall i | 0 <= i < |pages| :: Total(height, pages[i]) <= ROOM
    ensures |Greedy(height, items)| <= |pages|
    decreases |pages|
  {
    if pages != [] && items != [] {
      var first := pages[0];
      var rest := Concat(pages[1..]);
      assert items[..|first|] == first && items[|first|..] == rest;
      GreedyIsOptimal(height, rest, pages[1..]);
      FitIsLongest(height, items, ROOM, |first|);
      var n := Fit(height, items, ROOM);
      GreedyDropMany(height, rest, n - |first|);
      assert rest[n - |first|..] == items[n..];
    }
  }

  // ---- The loop

  function Place<T>(height: T -> Extent, page: seq<T>): seq<Placed<T>> {
    seq(|page|, i requires 0 <= i < |page| => Placed(page[i], TOP - Total(height, page[..i])))
  }

  function PlaceAll<T>(height: T -> Extent, pages: seq<seq<T>>): seq<seq<Placed<T>>> {
    seq(|pages|, i requires 0 <= i < |pages| => Place(height, pages[i]))
  }

  lemma GreedyUnfolds<T>(height: T -> Extent, items: seq<T>, k: nat)
    requires items != [] && Fit(height, items, ROOM) == k
    ensures 0 < k <= |items| && Greedy(height, items) == [items[..k]] + Greedy(height, items[k..])
  {
  }

  /** A page in progress that the next item does not fit on is a greedy page. */
  lemma PageIsFull<T>(height: T -> Extent, page: seq<T>, rest: seq<T>)
    requires rest != [] && Total(height, page) <= ROOM && Total(height, page) + height(rest[0]) > ROOM
    ensures page != [] && Greedy(height, page + rest) == [page] + Greedy(height, rest)
  {
    var items, k := page + rest, |page|;
    assert items[..k] == page && items[k..] == rest;
    assert items[..k + 1] == page + [rest[0]];
    assert items[..k + 1][..k] == page;
    FitIsLongest(height, items, ROOM, k);
    FitIsLongest(height, items, ROOM, k + 1);
    GreedyUnfolds(height, items, k);
  }

  lemma LastPage<T>(height: T -> Extent, page: seq<T>)
    requires page != [] && Total(height, page) <= ROOM
    ensures Greedy(height, page) == [page]
  {
    assert page[..|page|] == page;
    FitIsLongest(height, page, ROOM, |page|);
    assert page[|page|..] == [];
  }

  lemma PlaceOneMore<T>(height: T -> Extent, page: seq<T>, item: T)
    ensures Place(height, page + [item]) == Place(height, page) + [Placed(item, TOP - Total(height, page))]
    ensures Total(height, page + [item]) == Total(height, page) + height(item)
  {
    assert (page + [item])[..|page|] == page;
    forall i | 0 <= i < |page|
      ensures (page + [item])[..i] == page[..i]
    {
    }
  }

  lemma PlaceOnePage<T>(height: T -> Extent, pages: seq<seq<T>>, page: seq<T>)
    ensures PlaceAll(height, pages + [page]) == PlaceAll(height, pages) + [Place(height, page)]
  {
  }

  lemma MoveDone<T>(height: T -> Extent, done: seq<seq<T>>, page: seq<T>, rest: seq<T>)
    requires rest != [] && Total(height, page) <= ROOM && Total(height, page) + height(rest[0]) > ROOM
    ensures done + Greedy(height, page + rest) == done + [page] + Greedy(height, rest)
  {
    PageIsFull(height, page, rest);
  }

  /** The loop has placed the pages `done` and the current page `page`; `rest` is still to come. */
  ghost predicate Paging<T>(height: T -> Extent, items: seq<T>, rest: seq<T>, done: seq<seq<T>>, page: seq<T>,
                            pages: seq<seq<Placed<T>>>, currentPage: seq<Placed<T>>, currentY: int)
  {
    && pages == PlaceAll(height, done) && currentPage == Place(height, page)
    && currentY == TOP - Total(height, page) && Total(height, page) <= ROOM
    && done + Greedy(height, page + rest) == Greedy(height, items)
  }

  lemma PagingStarts<T>(height: T -> Extent, items: seq<T>)
    ensures Paging(height, items, items, [], [], [], [], TOP)
  {
    assert [] + items == items && [] + Greedy(height, items) == Greedy(height, items);
  }

  lemma ClosePage<T>(height: T -> Extent, items: seq<T>, rest: seq<T>, done: seq<seq<T>>, page: seq<T>,
                     pages: seq<seq<Placed<T>>>, currentPage: seq<Placed<T>>, currentY: int)
    requires Paging(height, items, rest, done, page, pages, currentPage, currentY)
    requires rest != [] && currentY - height(rest[0]) < BOTTOM
    ensures Paging(height, items, rest, done + [page], [], pages + [currentPage], [], TOP)
  {
    MoveDone(height, done, page, rest);
    PlaceOnePage(height, done, page);
    assert [] + rest == rest;
  }

  lemma PlaceNext<T>(height: T -> Extent, items: seq<T>, rest: seq<T>, done: seq<seq<T>>, page: seq<T>,
                     pages: seq<seq<Placed<T>>>, currentPage: seq<Placed<T>>, currentY: int)
    requires Paging(height, items, rest, done, page, pages, currentPage, currentY)
    requires rest != [] && currentY - height(rest[0]) >= BOTTOM
    ensures Paging(height, items, rest[1..], done, page + [rest[0]],
                   pages, currentPage + [Placed(rest[0], currentY)], currentY - height(rest[0]))
  {
    PlaceOneMore(height, page, rest[0]);
    assert page + [rest[0]] + rest[1..] == page + rest;
  }

  method Paginate<T>(height: T -> Extent, items: seq<T>) returns (pages: seq<seq<Placed<T>>>)
    ensures pages == PlaceAll(height, Greedy(height, items))
  {
    pages := [];
    var currentPage: seq<Placed<T>> := [];
    var currentY := TOP;
    ghost var done: seq<seq<T>> := [];
    ghost var page: seq<T> := [];
    PagingStarts(height, items);
    assert items[0..] == items;
    for i := 0 to |items|
      invariant Paging(height, items, items[i..], done, page, pages, currentPage, currentY)
    {
      var item := items[i];
      var requiredH := height(item);
      if currentY - requiredH < BOTTOM {
        ClosePage(height, items, items[i..], done, page, pages, currentPage, currentY);
        pages := pages + [currentPage];
        currentPage := [];
        currentY := TOP;
        done, page := done + [page], [];
      }
      PlaceNext(height, items, items[i..], done, page, pages, currentPage, currentY);
      currentPage := currentPage + [Placed(item, currentY)];
      currentY := currentY - requiredH;
      page := page + [item];
    }
    assert page + items[|items|..] == page;
    if |currentPage| > 0 {
      LastPage(height, page);
      PlaceOnePage(height, done, page);
      pages := pages + [currentPage];
    }
  }

  /** Everything on a page lies between the margins at 730 and 50. */
  lemma PlacedWithinMargins<T>(height: T -> Extent, page: seq<T>, i: nat)
    requires i < |page| && Total(height, page) <= ROOM
    ensures 50 + height(page[i]) <= Place(height, page)[i].y <= 730
  {
    PrefixTotal(height, page, i + 1);
    assert page[..i + 1][..i] == page[..i];
  }

  lemma {:induction false} PrefixTotal<T>(height: T -> Extent, page: seq<T>, i: nat)
    requires i <= |page|
    ensures Total(height, page[..i]) <= Total(height, page)
    decreases |page|
  {
    if i < |page| {
      PrefixTotal(height, page[..|page| - 1], i);
      assert page[..|page| - 1][..i] == page[..i];
    } else {
      assert page[..i] == page;
    }
  }
}
