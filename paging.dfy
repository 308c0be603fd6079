/**
 * The query side of the ship service, part two: `getSortedShipList` and
 * `getComparatorByOrder`, which sort a filtered list by the requested field and cut a page
 * out of it with `Stream.skip` and `Stream.limit`.
 */
module ShipPaging {
  import opened Wrappers
  import opened Exceptions
  import opened ShipModel

  /** `com.space.controller.ShipOrder`: a sort selector, identified by its field name. */
  datatype ShipOrder = ShipOrder(fieldName: string)

  /** The four comparators `getComparatorByOrder` can build. */
  datatype SortKey = ById | BySpeed | ByDate | ByRating

  /** A Java `int` (pageNumber and pageSize are `Integer` parameters). */
  type Int32 = x: int | -0x8000_0000 <= x < 0x8000_0000

  /** Java `int` multiplication: the exact product wrapped into 32 bits. */
  function Mul32(a: Int32, b: Int32): (p: Int32)
    ensures -0x8000_0000 <= a * b < 0x8000_0000 ==> p == a * b
    ensures (p - a * b) % 0x1_0000_0000 == 0
  {
    var m := (a * b) % 0x1_0000_0000;
    if m >= 0x8000_0000 then m - 0x1_0000_0000 else m
  }

  function Min(a: int, b: int): int {
    if a <= b then a else b
  }

  // ---------------------------------------------------------------- comparators

  /** The `switch` on the field name; any other name leaves the comparator null. */
  function SortKeyOf(fieldName: string): (k: Option<SortKey>)
    ensures k.Some? <==> fieldName in ["id", "speed", "date", "rating"]
    ensures k == Some(ById) <==> fieldName == "id"
    ensures k == Some(BySpeed) <==> fieldName == "speed"
    ensures k == Some(ByDate) <==> fieldName == "date"
    ensures k == Some(ByRating) <==> fieldName == "rating"
  {
    if fieldName == "id" then Some(ById)
    else if fieldName == "speed" then Some(BySpeed)
    else if fieldName == "date" then Some(ByDate)
    else if fieldName == "rating" then Some(ByRating)
    else None
  }

  /**
   * `getComparatorByOrder`: a null order is dereferenced (`order.getFieldName()`) and throws;
   * otherwise the comparator for the field, null (`None`) for an unrecognised field.
   */
  function GetComparatorByOrder(order: Option<ShipOrder>): (r: Result<Option<SortKey>, Exception>)
    ensures r.Err? <==> order.None?
    ensures r.Err? ==> r.error == NullPointer
    ensures r.Ok? ==> r.value == SortKeyOf(order.value.fieldName)
  {
    match order
    case None => Err(NullPointer)
    case Some(o) => Ok(SortKeyOf(o.fieldName))
  }

  /** The value a comparator compares: id, speed, production time or rating, all as reals. */
  function KeyOf(k: SortKey, s: ShipRecord): real
    requires Complete(s)
  {
    match k
    case ById => s.id.value as real
    case BySpeed => s.speed.value
    case ByDate => s.prodDate.value as real
    case ByRating => s.rating.value
  }

  /** Ascending by the key (ties in any order). */
  ghost predicate Ascending(k: SortKey, xs: seq<ShipRecord>)
    requires AllComplete(xs)
  {
    forall i, j :: 0 <= i < j < |xs| ==> KeyOf(k, xs[i]) <= KeyOf(k, xs[j])
  }

  /** Puts `x` into the ascending list `xs` before the first element whose key is not smaller. */
  function Insert(k: SortKey, x: ShipRecord, xs: seq<ShipRecord>): (r: seq<ShipRecord>)
    requires Complete(x) && AllComplete(xs) && Ascending(k, xs)
    ensures multiset(r) == multiset(xs) + multiset{x}
    ensures AllComplete(r) && Ascending(k, r)
  {
    if xs == [] then [x]
    else if KeyOf(k, x) <= KeyOf(k, xs[0]) then
      InsertAtFront(k, x, xs);
      [x] + xs
    else
      var tail := xs[1..];
      assert xs == [xs[0]] + tail;
      SliceIsAscending(k, xs, 1, |xs|);
      var rest := Insert(k, x, tail);
      InsertBehind(k, x, xs[0], tail, rest);
      [xs[0]] + rest
  }

  lemma InsertAtFront(k: SortKey, x: ShipRecord, xs: seq<ShipRecord>)
    requires Complete(x) && AllComplete(xs) && Ascending(k, xs) && xs != [] && KeyOf(k, x) <= KeyOf(k, xs[0])
    ensures AllComplete([x] + xs) && Ascending(k, [x] + xs)
  {
    var r := [x] + xs;
    forall i, j | 0 <= i < j < |r| ensures KeyOf(k, r[i]) <= KeyOf(k, r[j]) {
      if i == 0 {
        assert r[j] == xs[j - 1];
        assert KeyOf(k, xs[0]) <= KeyOf(k, xs[j - 1]);
      } else {
        assert r[i] == xs[i - 1] && r[j] == xs[j - 1];
      }
    }
  }

  lemma InsertBehind(k: SortKey, x: ShipRecord, head: ShipRecord, tail: seq<ShipRecord>, rest: seq<ShipRecord>)
    requires Complete(x) && Complete(head) && AllComplete(tail) && AllComplete(rest)
    requires Ascending(k, [head] + tail) && Ascending(k, rest)
    requires KeyOf(k, head) < KeyOf(k, x)
    requires multiset(rest) == multiset(tail) + multiset{x}
    ensures multiset([head] + rest) == multiset([head] + tail) + multiset{x}
    ensures AllComplete([head] + rest) && Ascending(k, [head] + rest)
  {
    forall y | y in rest ensures Complete(y) && KeyOf(k, head) <= KeyOf(k, y) {
      KeyBelowMember(k, x, head, tail, rest, y);
    }
    var r := [head] + rest;
    forall i, j | 0 <= i < j < |r| ensures KeyOf(k, r[i]) <= KeyOf(k, r[j]) {
      if i == 0 {
        assert r[j] == rest[j - 1];
        assert r[j] in rest;
      } else {
        assert r[i] == rest[i - 1] && r[j] == rest[j - 1];
      }
    }
  }

  lemma KeyBelowMember(k: SortKey, x: ShipRecord, head: ShipRecord, tail: seq<ShipRecord>, rest: seq<ShipRecord>,
                       y: ShipRecord)
    requires Complete(x) && Complete(head) && AllComplete(tail) && AllComplete(rest)
    requires Ascending(k, [head] + tail)
    requires KeyOf(k, head) < KeyOf(k, x)
    requires multiset(rest) == multiset(tail) + multiset{x}
    requires y in rest
    ensures Complete(y) && KeyOf(k, head) <= KeyOf(k, y)
  {
    assert y in multiset(rest);
    if y != x {
      assert y in multiset(tail);
      assert y in tail;
      var t :| 0 <= t < |tail| && tail[t] == y;
      assert ([head] + tail)[t + 1] == y && ([head] + tail)[0] == head;
    }
  }

  /** `stream().sorted(comparator)`: the list sorted ascending by the key. */
  function SortBy(k: SortKey, xs: seq<ShipRecord>): (r: seq<ShipRecord>)
    requires AllComplete(xs)
    ensures multiset(r) == multiset(xs) && |r| == |xs|
    ensures AllComplete(r) && Ascending(k, r)
  {
    if xs == [] then []
    else
      assert xs == [xs[0]] + xs[1..];
      Insert(k, xs[0], SortBy(k, xs[1..]))
  }

  // ---------------------------------------------------------------- stream slicing

  /** `Stream.limit(n)`: at most the first n elements; a negative n throws. */
  function Limit(xs: seq<ShipRecord>, n: int): Result<seq<ShipRecord>, Exception> {
    if n < 0 then Err(IllegalArgument) else Ok(xs[..Min(n, |xs|)])
  }

  /** `Stream.skip(n)`: all but the first n elements; a negative n throws. */
  function Skip(xs: seq<ShipRecord>, n: int): Result<seq<ShipRecord>, Exception> {
    if n < 0 then Err(IllegalArgument) else Ok(xs[Min(n, |xs|)..])
  }

  /** `skip(n)` then `limit(m)`. */
  function SkipLimit(xs: seq<ShipRecord>, n: int, m: int): Result<seq<ShipRecord>, Exception> {
    match Skip(xs, n)
    case Err(e) => Err(e)
    case Ok(ys) => Limit(ys, m)
  }

  /** `limit(m)` then `skip(n)`. */
  function LimitSkip(xs: seq<ShipRecord>, m: int, n: int): Result<seq<ShipRecord>, Exception> {
    match Limit(xs, m)
    case Err(e) => Err(e)
    case Ok(ys) => Skip(ys, n)
  }

  /** The page of `count` elements starting at position `from` (shorter at the end of the list). */
  function Window(xs: seq<ShipRecord>, from: nat, count: nat): seq<ShipRecord> {
    xs[Min(from, |xs|)..Min(from + count, |xs|)]
  }

  /** Skipping then limiting, with neither argument negative, cuts out exactly the window. */
  lemma SkipLimitIsWindow(xs: seq<ShipRecord>, n: int, m: int)
    ensures SkipLimit(xs, n, m) == if n < 0 || m < 0 then Err(IllegalArgument) else Ok(Window(xs, n, m))
  {
    if 0 <= n && 0 <= m {
      assert xs[Min(n, |xs|)..][..Min(m, |xs| - Min(n, |xs|))] == Window(xs, n, m);
    }
  }

  /** Limiting by the same count that is then skipped leaves nothing (or throws for a negative count). */
  lemma LimitThenSkipSameIsEmpty(xs: seq<ShipRecord>, m: int)
    ensures LimitSkip(xs, m, m) == if m < 0 then Err(IllegalArgument) else Ok([])
  {
    if 0 <= m {
      var ys := xs[..Min(m, |xs|)];
      assert Limit(xs, m) == Ok(ys);
      assert Min(m, |ys|) == |ys| && ys[|ys|..] == [];
      assert Skip(ys, m) == Ok([]);
    }
  }

  /** A page cut by `limit` or by `skip` then `limit` keeps only elements of the list, each at most as often. */
  lemma PageIsSubMultiset(xs: seq<ShipRecord>, n: int, m: int)
    requires AllComplete(xs)
    ensures Limit(xs, m).Ok? ==> multiset(Limit(xs, m).value) <= multiset(xs) && AllComplete(Limit(xs, m).value)
    ensures SkipLimit(xs, n, m).Ok? ==>
              multiset(SkipLimit(xs, n, m).value) <= multiset(xs) && AllComplete(SkipLimit(xs, n, m).value)
  {
    if 0 <= m {
      SliceIsSubMultiset(xs, 0, Min(m, |xs|));
    }
    SkipLimitIsWindow(xs, n, m);
    if 0 <= n && 0 <= m {
      SliceIsSubMultiset(xs, Min(n, |xs|), Min(n + m, |xs|));
    }
  }

  /** A page of an ascending list is ascending. */
  lemma PageIsAscending(k: SortKey, xs: seq<ShipRecord>, n: int, m: int)
    requires AllComplete(xs) && Ascending(k, xs)
    ensures Limit(xs, m).Ok? ==> AllComplete(Limit(xs, m).value) && Ascending(k, Limit(xs, m).value)
    ensures SkipLimit(xs, n, m).Ok? ==>
              AllComplete(SkipLimit(xs, n, m).value) && Ascending(k, SkipLimit(xs, n, m).value)
  {
    PageIsSubMultiset(xs, n, m);
    if 0 <= m {
      SliceIsAscending(k, xs, 0, Min(m, |xs|));
    }
    SkipLimitIsWindow(xs, n, m);
    if 0 <= n && 0 <= m {
      SliceIsAscending(k, xs, Min(n, |xs|), Min(n + m, |xs|));
    }
  }

  /** A slice keeps only elements of the list, each at most as often. */
  lemma SliceIsSubMultiset(xs: seq<ShipRecord>, a: int, b: int)
    requires AllComplete(xs) && 0 <= a <= b <= |xs|
    ensures multiset(xs[a..b]) <= multiset(xs) && AllComplete(xs[a..b])
  {
    assert xs == xs[..a] + xs[a..b] + xs[b..];
  }

  /** A slice of an ascending list is ascending. */
  lemma SliceIsAscending(k: SortKey, xs: seq<ShipRecord>, a: int, b: int)
    requires AllComplete(xs) && Ascending(k, xs) && 0 <= a <= b <= |xs|
    ensures AllComplete(xs[a..b]) && Ascending(k, xs[a..b])
  {
    forall i, j | 0 <= i < j < b - a ensures KeyOf(k, xs[a..b][i]) <= KeyOf(k, xs[a..b][j]) {
      assert xs[a..b][i] == xs[a + i] && xs[a..b][j] == xs[a + j];
    }
  }

  // ---------------------------------------------------------------- getSortedShipList

  /**
   * `getSortedShipList`: the seven branches in source order. Without an order the list keeps
   * the filter's order; with one it is sorted first, and the comparator is built (and may
   * throw) before any skip or limit argument is checked.
   */
  function GetSortedShipList(list: seq<ShipRecord>, pageNumber: Option<Int32>, pageSize: Option<Int32>,
                             order: Option<ShipOrder>): (r: Result<seq<ShipRecord>, Exception>)
    requires AllComplete(list)
    ensures r.Ok? ==> multiset(r.value) <= multiset(list) && AllComplete(r.value)
    ensures r.Ok? ==> |r.value| <= if pageSize.Some? then pageSize.value else 3
    ensures r.Ok? && order.Some? ==> SortKeyOf(order.value.fieldName).Some?
    ensures r.Ok? && order.Some? && SortKeyOf(order.value.fieldName).Some? ==>
              Ascending(SortKeyOf(order.value.fieldName).value, r.value)
  {
    if pageSize.None? && pageNumber.None? && order.None? then
      PageIsSubMultiset(list, 0, 3);
      Limit(list, 3)
    else if pageSize.Some? && pageNumber.None? && order.None? then
      PageIsSubMultiset(list, 0, pageSize.value);
      Limit(list, pageSize.value)
    else if pageSize.None? && pageNumber.Some? && order.None? then
      var from := Mul32(pageNumber.value, 3);
      PageIsSubMultiset(list, from, 3);
      SkipLimit(list, from, 3)
    else
      match GetComparatorByOrder(order)
      case Err(e) => Err(e)
      case Ok(None) => Err(NullPointer)       // sorted(null) rejects the null comparator
      case Ok(Some(k)) => SortedPage(k, list, pageNumber, pageSize)
  }

  /** The branches of `getSortedShipList` that sort by the comparator for `k` before paging. */
  function SortedPage(k: SortKey, list: seq<ShipRecord>, pageNumber: Option<Int32>,
                      pageSize: Option<Int32>): (r: Result<seq<ShipRecord>, Exception>)
    requires AllComplete(list)
    ensures r.Ok? ==> multiset(r.value) <= multiset(list) && AllComplete(r.value)
    ensures r.Ok? ==> |r.value| <= if pageSize.Some? then pageSize.value else 3
    ensures r.Ok? ==> Ascending(k, r.value)
  {
    var sorted := SortBy(k, list);
    if pageSize.None? && pageNumber.None? then
      PageIsSubMultiset(sorted, 0, 3);
      PageIsAscending(k, sorted, 0, 3);
      Limit(sorted, 3)
    else if pageSize.None? then
      PageIsSubMultiset(sorted, 0, 3);
      PageIsAscending(k, sorted, 0, 3);
      Limit(sorted, 3)
    else if pageNumber.None? then
      LimitThenSkipSameIsEmpty(sorted, pageSize.value);
      LimitSkip(sorted, pageSize.value, pageSize.value)
    else
      var from := Mul32(pageNumber.value, pageSize.value);
      PageIsSubMultiset(sorted, from, pageSize.value);
      PageIsAscending(k, sorted, from, pageSize.value);
      SkipLimit(sorted, from, pageSize.value)
  }

  // ---------------------------------------------------------------- the branches of getSortedShipList

  /** No page parameter and no order: the first three ships, in the order given. */
  lemma DefaultPage(list: seq<ShipRecord>)
    requires AllComplete(list)
    ensures GetSortedShipList(list, None, None, None) == Ok(list[..Min(3, |list|)])
  {
  }

  /** Only a page size: the first `pageSize` ships in the order given; a negative size throws. */
  lemma PageSizeOnly(list: seq<ShipRecord>, pageSize: Int32)
    requires AllComplete(list)
    ensures GetSortedShipList(list, None, Some(pageSize), None)
            == if pageSize < 0 then Err(IllegalArgument) else Ok(list[..Min(pageSize, |list|)])
  {
  }

  /** Only a page number: the page of three starting at `pageNumber * 3` (computed in 32 bits); a negative start throws. */
  lemma PageNumberOnly(list: seq<ShipRecord>, pageNumber: Int32)
    requires AllComplete(list)
    ensures var from := Mul32(pageNumber, 3);
            GetSortedShipList(list, Some(pageNumber), None, None)
            == if from < 0 then Err(IllegalArgument) else Ok(Window(list, from, 3))
  {
    SkipLimitIsWindow(list, Mul32(pageNumber, 3), 3);
  }

  /**
   * A page number whose product with 3 overflows: 1431655766 * 3 wraps to 2, so the page starts
   * at the third ship rather than past the end of the list.
   */
  lemma PageNumberWraps(list: seq<ShipRecord>)
    requires AllComplete(list)
    ensures Mul32(1_431_655_766, 3) == 2
    ensures GetSortedShipList(list, Some(1_431_655_766), None, None) == Ok(Window(list, 2, 3))
  {
    PageNumberOnly(list, 1_431_655_766);
  }

  /** Both page parameters but no order: `getComparatorByOrder(null)` dereferences null. */
  lemma UnorderedPagesThrow(list: seq<ShipRecord>, pageNumber: Int32, pageSize: Int32)
    requires AllComplete(list)
    ensures GetSortedShipList(list, Some(pageNumber), Some(pageSize), None) == Err(NullPointer)
  {
  }

  /** An unrecognised field name gives a null comparator, which `sorted` rejects, whatever the paging. */
  lemma UnknownOrderThrows(list: seq<ShipRecord>, pageNumber: Option<Int32>, pageSize: Option<Int32>, order: ShipOrder)
    requires AllComplete(list) && SortKeyOf(order.fieldName).None?
    ensures GetSortedShipList(list, pageNumber, pageSize, Some(order)) == Err(NullPointer)
  {
  }

  /** An order without a page size: the first three sorted ships, whatever the page number. */
  lemma OrderedWithoutPageSize(list: seq<ShipRecord>, pageNumber: Option<Int32>, order: ShipOrder)
    requires AllComplete(list) && SortKeyOf(order.fieldName).Some?
    ensures var sorted := SortBy(SortKeyOf(order.fieldName).value, list);
            GetSortedShipList(list, pageNumber, None, Some(order)) == Ok(sorted[..Min(3, |sorted|)])
  {
  }

  /** An order and a page size without a page number: `limit(n).skip(n)` always yields an empty page. */
  lemma OrderedWithoutPageNumber(list: seq<ShipRecord>, pageSize: Int32, order: ShipOrder)
    requires AllComplete(list) && SortKeyOf(order.fieldName).Some?
    ensures GetSortedShipList(list, None, Some(pageSize), Some(order))
            == if pageSize < 0 then Err(IllegalArgument) else Ok([])
  {
    LimitThenSkipSameIsEmpty(SortBy(SortKeyOf(order.fieldName).value, list), pageSize);
  }

  /** All three given: the window of `pageSize` sorted ships starting at `pageNumber * pageSize` (32-bit product). */
  lemma OrderedPage(list: seq<ShipRecord>, pageNumber: Int32, pageSize: Int32, order: ShipOrder)
    requires AllComplete(list) && SortKeyOf(order.fieldName).Some?
    ensures var from := Mul32(pageNumber, pageSize);
            GetSortedShipList(list, Some(pageNumber), Some(pageSize), Some(order))
            == if from < 0 || pageSize < 0 then Err(IllegalArgument)
               else Ok(Window(SortBy(SortKeyOf(order.fieldName).value, list), from, pageSize))
  {
    SkipLimitIsWindow(SortBy(SortKeyOf(order.fieldName).value, list), Mul32(pageNumber, pageSize), pageSize);
  }

  /** Page 1 of size 2 over five ships holds the ships ranked third and fourth by the key. */
  lemma SecondPageOfTwo(list: seq<ShipRecord>, order: ShipOrder)
    requires AllComplete(list) && |list| == 5 && SortKeyOf(order.fieldName).Some?
    ensures GetSortedShipList(list, Some(1), Some(2), Some(order))
            == Ok(SortBy(SortKeyOf(order.fieldName).value, list)[2..4])
  {
    OrderedPage(list, 1, 2, order);
  }
}
