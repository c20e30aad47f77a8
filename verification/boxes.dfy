/**
 * The fixed table of shipping boxes and the choice of the boxes that can hold a
 * given total volume, smallest first.
 */
module Boxes {
  /** A box and the volume it holds, in cubic metres. */
  datatype Box = Box(name: string, capacity: real)

  /** The box table, in the order the application lists it. */
  const Table: seq<Box> := [
    Box("Caixa 12TP", 0.11),
    Box("Caixa 15TP", 0.12),
    Box("Caixa 19TP", 0.21),
    Box("Caixa 22TP", 0.33),
    Box("Caixa 26TP", 0.50),
    Box("Caixa 30TP", 0.67)
  ]

  predicate Ascending(boxes: seq<Box>) {
    forall i, j :: 0 <= i < j < |boxes| ==> boxes[i].capacity <= boxes[j].capacity
  }

  /** The boxes of `boxes` whose capacity reaches `total`, in their original order. */
  function Fitting(boxes: seq<Box>, total: real): (r: seq<Box>)
    ensures |r| <= |boxes|
    ensures forall b {:trigger b in r} :: b in r <==> b in boxes && b.capacity >= total
    ensures multiset(r) <= multiset(boxes)
    ensures forall b {:trigger multiset(r)[b]} :: multiset(r)[b] == if b.capacity >= total then multiset(boxes)[b] else 0
  {
    if boxes == [] then []
    else
      assert boxes == [boxes[0]] + boxes[1..];
      if boxes[0].capacity >= total then [boxes[0]] + Fitting(boxes[1..], total)
      else Fitting(boxes[1..], total)
  }

  /** Places `b` before the first box of an ascending list that is at least as large. */
  function Insert(b: Box, boxes: seq<Box>): (r: seq<Box>)
    requires Ascending(boxes)
    ensures Ascending(r)
    ensures multiset(r) == multiset(boxes) + multiset{b}
    ensures r[0] == b || (boxes != [] && r[0] == boxes[0])
  {
    if boxes == [] || b.capacity <= boxes[0].capacity then
      ConsAscending(b, boxes);
      [b] + boxes
    else
      assert boxes == [boxes[0]] + boxes[1..];
      AscendingTail(boxes);
      var t := Insert(b, boxes[1..]);
      ConsAscending(boxes[0], t);
      [boxes[0]] + t
  }

  /** The tail of an ascending list is ascending. */
  lemma AscendingTail(boxes: seq<Box>)
    requires boxes != [] && Ascending(boxes)
    ensures Ascending(boxes[1..])
  {
    var t := boxes[1..];
    forall i, j | 0 <= i < j < |t| ensures t[i].capacity <= t[j].capacity {
      assert t[i] == boxes[i + 1] && t[j] == boxes[j + 1];
    }
  }

  /** A box no larger than the head of an ascending list can go in front of it. */
  lemma ConsAscending(x: Box, t: seq<Box>)
    requires Ascending(t)
    requires t == [] || x.capacity <= t[0].capacity
    ensures Ascending([x] + t)
  {
    var r := [x] + t;
    forall i, j | 0 <= i < j < |r| ensures r[i].capacity <= r[j].capacity {
      if i > 0 {
        assert r[i] == t[i - 1];
      }
      assert r[j] == t[j - 1];
    }
  }

  /** A stable sort by capacity, as `sorted(..., key=capacity)` does it. */
  function SortByCapacity(boxes: seq<Box>): (r: seq<Box>)
    ensures Ascending(r)
    ensures multiset(r) == multiset(boxes)
    ensures forall b {:trigger b in r} :: b in r <==> b in boxes
  {
    if boxes == [] then []
    else
      assert boxes == [boxes[0]] + boxes[1..];
      var r := Insert(boxes[0], SortByCapacity(boxes[1..]));
      SameElements(r, boxes);
      r
  }

  /** The boxes of capacity `c`, in the order they come in. */
  function WithCapacity(boxes: seq<Box>, c: real): seq<Box>
    decreases |boxes|
  {
    if boxes == [] then []
    else (if boxes[0].capacity == c then [boxes[0]] else []) + WithCapacity(boxes[1..], c)
  }

  /** The boxes of capacity `c` in a list with a box in front. */
  lemma WithCapacityCons(x: Box, t: seq<Box>, c: real)
    ensures WithCapacity([x] + t, c) == (if x.capacity == c then [x] else []) + WithCapacity(t, c)
  {
    assert ([x] + t)[1..] == t;
  }

  /** Inserting a box adds it in front of the boxes of its capacity, and leaves the others alone. */
  lemma {:induction false} InsertStable(b: Box, boxes: seq<Box>, c: real)
    requires Ascending(boxes)
    ensures WithCapacity(Insert(b, boxes), c)
      == (if b.capacity == c then [b] else []) + WithCapacity(boxes, c)
    decreases |boxes|
  {
    if boxes == [] || b.capacity <= boxes[0].capacity {
      WithCapacityCons(b, boxes, c);
    } else {
      var x := boxes[0];
      var t := boxes[1..];
      assert boxes == [x] + t;
      AscendingTail(boxes);
      InsertStable(b, t, c);
      assert Insert(b, boxes) == [x] + Insert(b, t);
      WithCapacityCons(x, Insert(b, t), c);
      WithCapacityCons(x, t, c);
      if b.capacity == c {
        // `x` is smaller than `b`, so it is not of capacity `c`
        assert WithCapacity(Insert(b, boxes), c) == WithCapacity(Insert(b, t), c);
        assert WithCapacity(boxes, c) == WithCapacity(t, c);
      } else {
        assert WithCapacity(Insert(b, t), c) == WithCapacity(t, c);
      }
    }
  }

  /**
   * The sort is stable: the boxes of any one capacity come out in the order they
   * went in, as Python's `sorted` keeps them.
   */
  lemma {:induction false} SortStable(boxes: seq<Box>, c: real)
    ensures WithCapacity(SortByCapacity(boxes), c) == WithCapacity(boxes, c)
    decreases |boxes|
  {
    if boxes != [] {
      SortStable(boxes[1..], c);
      InsertStable(boxes[0], SortByCapacity(boxes[1..]), c);
    }
  }

  lemma SameElements(a: seq<Box>, b: seq<Box>)
    requires multiset(a) == multiset(b)
    ensures forall x :: x in a <==> x in b
  {
    forall x
      ensures x in a <==> x in b
    {
      assert x in a <==> x in multiset(a);
      assert x in b <==> x in multiset(b);
    }
  }

  /** The boxes of `boxes` that hold `total`, smallest first. */
  function Offer(boxes: seq<Box>, total: real): (r: seq<Box>)
    ensures forall b {:trigger b in r} :: b in r <==> b in boxes && b.capacity >= total
    ensures Ascending(r)
    ensures multiset(r) <= multiset(boxes)
    ensures forall b {:trigger multiset(r)[b]} :: multiset(r)[b] == if b.capacity >= total then multiset(boxes)[b] else 0
  {
    SortByCapacity(Fitting(boxes, total))
  }

  /** The boxes offered for a total volume: those of the table that hold it, smallest first. */
  function Select(total: real): (r: seq<Box>)
    ensures forall b {:trigger b in r} :: b in r <==> b in Table && b.capacity >= total
    ensures Ascending(r)
  {
    Offer(Table, total)
  }

  lemma TableAscending()
    ensures Ascending(Table)
  {
  }

  /** Sorting a list already in ascending order leaves it as it is. */
  lemma {:induction false} SortAscendingIdentity(boxes: seq<Box>)
    requires Ascending(boxes)
    ensures SortByCapacity(boxes) == boxes
  {
    if boxes != [] {
      SortAscendingIdentity(boxes[1..]);
    }
  }

  /** In an ascending list every box from the first fitting one on fits too. */
  lemma {:induction false} FittingAscendingIsSuffix(boxes: seq<Box>, total: real)
    requires Ascending(boxes)
    ensures Fitting(boxes, total) == boxes[|boxes| - |Fitting(boxes, total)|..]
  {
    if boxes != [] {
      FittingAscendingIsSuffix(boxes[1..], total);
      if boxes[0].capacity >= total {
        AllFit(boxes, total);
      }
    }
  }

  lemma {:induction false} AllFit(boxes: seq<Box>, total: real)
    requires Ascending(boxes)
    requires boxes != [] && boxes[0].capacity >= total
    ensures Fitting(boxes, total) == boxes
  {
    assert boxes == [boxes[0]] + boxes[1..];
    if |boxes| > 1 {
      AscendingTail(boxes);
      assert boxes[1..][0].capacity >= boxes[0].capacity;
      AllFit(boxes[1..], total);
    }
  }

  /** Fitting keeps an ascending list ascending, so the sort has nothing to do. */
  lemma OfferAscendingIsSuffix(boxes: seq<Box>, total: real)
    requires Ascending(boxes)
    ensures Offer(boxes, total) == boxes[|boxes| - |Offer(boxes, total)|..]
  {
    FittingAscendingIsSuffix(boxes, total);
    SortAscendingIdentity(Fitting(boxes, total));
  }

  /** The offer is the part of the table from the first box that holds the total. */
  lemma SelectSuffix(total: real)
    ensures exists k :: 0 <= k <= |Table| && Select(total) == Table[k..]
  {
    TableAscending();
    OfferAscendingIsSuffix(Table, total);
    var k := |Table| - |Select(total)|;
    assert Select(total) == Table[k..];
  }

  /** No box holds more than the largest one. */
  lemma SelectTooLarge(total: real)
    requires total > 0.67
    ensures Select(total) == []
  {
  }

  /** Every box holds a total of at most the smallest capacity. */
  lemma SelectSmall(total: real)
    requires total <= 0.11
    ensures Select(total) == Table
  {
    TableAscending();
    AllFit(Table, total);
    SortAscendingIdentity(Table);
  }
}
