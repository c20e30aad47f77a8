/**
 * The cubage request: every requested item is looked up in the catalog, the
 * volume and weight of the items found are added up, and the boxes that hold the
 * total volume are offered.
 */
module Cubage {
  import opened Wrappers
  import opened Codes
  import opened Catalog
  import opened Boxes

  /**
   * The "quantidade" field of a requested item, as `int()` sees it: absent, a value
   * `int()` reads exactly (an integer, a boolean, a string of digits), a JSON
   * fraction, or something `int()` rejects.
   */
  datatype Quantity = Absent | Whole(n: int) | Fraction(x: real) | Unconvertible

  /**
   * A requested item. `code` is the "codigo" field as `str()` renders it, or None
   * when the field is absent.
   */
  datatype Item = Item(code: Option<string>, quantity: Quantity)

  /** One line of the answer: the catalog product found, its volume and weight times the quantity. */
  datatype Line = Line(
    code: string, name: string,
    length: real, width: real, height: real,
    volume: real, weight: real, quantity: int)

  datatype Manifest = Manifest(lines: seq<Line>, totalVolume: real, totalWeight: real)

  /** The answer to a cubage request. */
  datatype Response = Response(
    itemsFound: nat, totalVolume: real, totalWeight: real,
    boxes: seq<Box>, lines: seq<Line>)

  /**
   * Why a request fails: the catalog does not load, an item's quantity is not a
   * number, or a found item's quantity is too large for the store.
   */
  datatype CubageError = LoadFailed(cause: LoadError) | BadQuantity(index: nat) | QuantityTooLarge

  /** `int()` of a float: the integer part, rounding toward zero. */
  function TruncateTowardZero(x: real): (n: int)
    ensures 0.0 <= x ==> n as real <= x < n as real + 1.0
    ensures x < 0.0 ==> n as real - 1.0 < x <= n as real
  {
    if x >= 0.0 then x.Floor else -((-x).Floor)
  }

  /** Truncation leaves a whole number as it is. */
  lemma TruncateWhole(n: int)
    ensures TruncateTowardZero(n as real) == n
  {
  }

  /** `int(item.get("quantidade", 1))`: one when absent, None when `int()` raises. */
  function Count(q: Quantity): (r: Option<int>)
    ensures r.None? <==> q.Unconvertible?
    ensures q.Absent? ==> r == Some(1)
    ensures q.Whole? ==> r == Some(q.n)
    ensures q.Fraction? ==> r == Some(TruncateTowardZero(q.x))
  {
    match q
    case Absent => Some(1)
    case Whole(n) => Some(n)
    case Fraction(x) => Some(TruncateTowardZero(x))
    case Unconvertible => None
  }

  /** The first `n` quantities are all values `int()` accepts. */
  predicate ReadableUpTo(items: seq<Item>, n: nat) {
    n <= |items| && forall k {:trigger Count(items[k].quantity)} :: 0 <= k < n ==> Count(items[k].quantity).Some?
  }

  /** Every quantity is a value `int()` accepts. */
  predicate ValidQuantities(items: seq<Item>) {
    ReadableUpTo(items, |items|)
  }

  /** The code an item asks for: `norm_code` of the field, which renders a missing one as "None". */
  function RequestedCode(item: Item): string {
    NormCode(item.code.GetOr("None"))
  }

  /** The answer line of a product requested `quantity` times. */
  function LineFor(p: Product, quantity: int): Line {
    Line(p.code, p.name, p.length, p.width, p.height,
      p.volume * quantity as real, p.weight * quantity as real, quantity)
  }

  /**
   * What one item adds to the answer: the line of the first catalog product with
   * its code, or nothing when the catalog has no such product.
   */
  function ResolveItem(products: seq<Product>, item: Item): Option<Line>
    requires Count(item.quantity).Some?
  {
    match Lookup(products, RequestedCode(item))
    case None => None
    case Some(k) => Some(LineFor(products[k], Count(item.quantity).value))
  }

  /** Whether the catalog has a product with the item's code. */
  predicate Found(products: seq<Product>, item: Item) {
    Lookup(products, RequestedCode(item)).Some?
  }

  /** An item yields a line exactly when the catalog has its code, built from the first such product. */
  lemma ResolveItemFound(products: seq<Product>, item: Item)
    requires Count(item.quantity).Some?
    ensures ResolveItem(products, item).Some? <==> Found(products, item)
    ensures ResolveItem(products, item).Some? ==>
      var k := Lookup(products, RequestedCode(item)).value;
      && products[k].code == RequestedCode(item)
      && (forall j :: 0 <= j < k ==> products[j].code != RequestedCode(item))
      && ResolveItem(products, item).value == LineFor(products[k], Count(item.quantity).value)
      && ResolveItem(products, item).value.volume == products[k].volume * Count(item.quantity).value as real
      && ResolveItem(products, item).value.weight == products[k].weight * Count(item.quantity).value as real
  {
    LookupSpec(products, RequestedCode(item));
  }

  /** The outcome of every item, in request order. */
  function Resolutions(products: seq<Product>, items: seq<Item>): (r: seq<Option<Line>>)
    requires ValidQuantities(items)
    ensures |r| == |items|
    ensures forall i :: 0 <= i < |items| ==> r[i] == ResolveItem(products, items[i])
  {
    seq(|items|, i requires 0 <= i < |items| => ResolveItem(products, items[i]))
  }

  /** The lines that are there, in order. */
  function Present(outcomes: seq<Option<Line>>): seq<Line>
    decreases |outcomes|
  {
    if outcomes == [] then []
    else
      var n := |outcomes| - 1;
      Present(outcomes[..n]) + (if outcomes[n].Some? then [outcomes[n].value] else [])
  }

  /** The positions of the outcomes that are there, in order. */
  function PresentPositions(outcomes: seq<Option<Line>>): seq<nat>
    decreases |outcomes|
  {
    if outcomes == [] then []
    else
      var n := |outcomes| - 1;
      PresentPositions(outcomes[..n]) + (if outcomes[n].Some? then [n] else [])
  }

  /** What an item adds to the answer: its line, or nothing. */
  function Outcome(products: seq<Product>, item: Item): seq<Line>
    requires Count(item.quantity).Some?
  {
    match ResolveItem(products, item)
    case Some(line) => [line]
    case None => []
  }

  /** The answer lines of the first `n` items, in request order, as the loop collects them. */
  function LinesUpTo(products: seq<Product>, items: seq<Item>, n: nat): seq<Line>
    requires ReadableUpTo(items, n)
    decreases n
  {
    if n == 0 then [] else LinesUpTo(products, items, n - 1) + Outcome(products, items[n - 1])
  }

  /** The answer lines of a list of items, in request order. */
  function ExpectedLines(products: seq<Product>, items: seq<Item>): seq<Line>
    requires ValidQuantities(items)
  {
    LinesUpTo(products, items, |items|)
  }

  /** The indices of the items the catalog has, in request order. */
  function ResolvedIndices(products: seq<Product>, items: seq<Item>): seq<nat>
    requires ValidQuantities(items)
  {
    PresentPositions(Resolutions(products, items))
  }

  /** The sum of the line volumes. */
  function TotalVolume(lines: seq<Line>): real
    decreases |lines|
  {
    if lines == [] then 0.0 else TotalVolume(lines[..|lines| - 1]) + lines[|lines| - 1].volume
  }

  /** The sum of the line weights. */
  function TotalWeight(lines: seq<Line>): real
    decreases |lines|
  {
    if lines == [] then 0.0 else TotalWeight(lines[..|lines| - 1]) + lines[|lines| - 1].weight
  }

  /** The index of the first item whose quantity `int()` rejects. */
  function FirstBadQuantity(items: seq<Item>): (r: Option<nat>)
    ensures r.None? <==> ValidQuantities(items)
    ensures r.Some? ==>
      && r.value < |items| && Count(items[r.value].quantity).None?
      && ReadableUpTo(items, r.value)
    decreases |items|
  {
    if items == [] then None
    else
      var n := |items| - 1;
      match FirstBadQuantity(items[..n])
      case Some(k) =>
        assert forall i :: 0 <= i < k ==> items[..n][i] == items[i];
        Some(k)
      case None =>
        assert forall i :: 0 <= i < n ==> items[..n][i] == items[i];
        if Count(items[n].quantity).None? then
          Some(n)
        else None
  }

  /** The first rejected quantity is the one at `k` when all before it are read. */
  lemma {:induction false} FirstBadAt(items: seq<Item>, k: nat)
    requires k < |items| && Count(items[k].quantity).None?
    requires ReadableUpTo(items, k)
    ensures FirstBadQuantity(items) == Some(k)
    ensures !ValidQuantities(items)
    decreases |items|
  {
    var n := |items| - 1;
    if k < n {
      assert forall i :: 0 <= i <= k ==> items[..n][i] == items[i];
      FirstBadAt(items[..n], k);
    } else {
      assert forall i :: 0 <= i < k ==> items[..n][i] == items[i];
    }
  }

  /**
   * The state of the loop after the first `i` items: they are all readable, `lines`
   * are their lines, and `volume` and `weight` are the totals of those lines.
   */
  predicate Tallied(products: seq<Product>, items: seq<Item>, i: nat, lines: seq<Line>, volume: real, weight: real) {
    && ReadableUpTo(items, i)
    && lines == LinesUpTo(products, items, i)
    && volume == TotalVolume(lines)
    && weight == TotalWeight(lines)
  }

  /**
   * The loop of the cubage route: for each item in order, read its quantity, look
   * its code up, and when found add its line and its volume and weight.
   */
  method Aggregate(products: seq<Product>, items: seq<Item>) returns (r: Result<Manifest, nat>)
    ensures r.Failure? <==> !ValidQuantities(items)
    ensures r.Failure? ==>
      && r.error < |items| && Count(items[r.error].quantity).None?
      && ReadableUpTo(items, r.error)
    ensures r.Success? ==>
      && ValidQuantities(items)
      && r.value.lines == ExpectedLines(products, items)
      && r.value.totalVolume == TotalVolume(r.value.lines)
      && r.value.totalWeight == TotalWeight(r.value.lines)
  {
    var lines: seq<Line> := [];
    var volume := 0.0;
    var weight := 0.0;
    var i := 0;
    while i < |items|
      invariant Tallied(products, items, i, lines, volume, weight)
    {
      var quantity := Count(items[i].quantity);
      if quantity.None? {
        return Failure(i);
      }
      lines, volume, weight := AddItem(products, items, i, lines, volume, weight);
      i := i + 1;
    }
    return Success(Manifest(lines, volume, weight));
  }

  /** One pass of the loop over a readable item: add its line, if any, and its volume and weight. */
  method AddItem(products: seq<Product>, items: seq<Item>, i: nat, lines: seq<Line>, volume: real, weight: real)
    returns (lines': seq<Line>, volume': real, weight': real)
    requires Tallied(products, items, i, lines, volume, weight)
    requires i < |items| && Count(items[i].quantity).Some?
    ensures Tallied(products, items, i + 1, lines', volume', weight')
  {
    assert ReadableUpTo(items, i + 1);
    assert LinesUpTo(products, items, i + 1) == lines + Outcome(products, items[i]);
    lines', volume', weight' := lines, volume, weight;
    var outcome := ResolveItem(products, items[i]);
    if outcome.None? {
      assert Outcome(products, items[i]) == [];
      assert lines + [] == lines;
    } else {
      var line := outcome.value;
      assert Outcome(products, items[i]) == [line];
      TotalsSnoc(lines, line);
      volume' := volume + line.volume;
      weight' := weight + line.weight;
      lines' := lines + [line];
    }
  }

  /** One more line adds its own volume and weight to the totals. */
  lemma TotalsSnoc(lines: seq<Line>, line: Line)
    ensures TotalVolume(lines + [line]) == TotalVolume(lines) + line.volume
    ensures TotalWeight(lines + [line]) == TotalWeight(lines) + line.weight
  {
    assert (lines + [line])[..|lines|] == lines;
  }

  /**
   * The lines are the outcomes that are there: collecting lines item by item gives
   * what filtering the list of all outcomes gives.
   */
  lemma LinesArePresent(products: seq<Product>, items: seq<Item>)
    requires ValidQuantities(items)
    ensures ExpectedLines(products, items) == Present(Resolutions(products, items))
  {
    PrefixLines(products, items, |items|);
    assert Resolutions(products, items)[..|items|] == Resolutions(products, items);
  }

  lemma {:induction false} PrefixLines(products: seq<Product>, items: seq<Item>, n: nat)
    requires ValidQuantities(items) && n <= |items|
    ensures LinesUpTo(products, items, n) == Present(Resolutions(products, items)[..n])
    decreases n
  {
    if n > 0 {
      PrefixLines(products, items, n - 1);
      PresentStep(Resolutions(products, items), n);
      OutcomeAt(products, items, n - 1);
    }
  }

  /** Filtering one more outcome appends its line, if it is there. */
  lemma PresentStep(o: seq<Option<Line>>, n: nat)
    requires 0 < n <= |o|
    ensures Present(o[..n]) == Present(o[..n - 1]) + (if o[n - 1].Some? then [o[n - 1].value] else [])
  {
    assert o[..n][..n - 1] == o[..n - 1];
  }

  /** What item `k` adds is its entry in the list of outcomes. */
  lemma OutcomeAt(products: seq<Product>, items: seq<Item>, k: nat)
    requires ValidQuantities(items) && k < |items|
    ensures var o := Resolutions(products, items)[k];
      Outcome(products, items[k]) == if o.Some? then [o.value] else []
  {
  }

  /** The positions are indices of the outcomes, strictly increasing. */
  lemma {:induction false} PositionsIncreasing(outcomes: seq<Option<Line>>)
    ensures forall k :: 0 <= k < |PresentPositions(outcomes)| ==> PresentPositions(outcomes)[k] < |outcomes|
    ensures forall k, l :: 0 <= k < l < |PresentPositions(outcomes)| ==>
      PresentPositions(outcomes)[k] < PresentPositions(outcomes)[l]
    decreases |outcomes|
  {
    if outcomes != [] {
      var n := |outcomes| - 1;
      var previous := PresentPositions(outcomes[..n]);
      PositionsIncreasing(outcomes[..n]);
      var r := PresentPositions(outcomes);
      assert r == previous + (if outcomes[n].Some? then [n] else []);
      forall k | 0 <= k < |r| ensures r[k] < |outcomes| {
        if k < |previous| {
          assert r[k] == previous[k];
        }
      }
      forall k, l | 0 <= k < l < |r| ensures r[k] < r[l] {
        assert r[k] == previous[k];
        if l < |previous| {
          assert r[l] == previous[l];
        }
      }
    }
  }

  /** A position is listed exactly when its outcome is there. */
  lemma {:induction false} PositionsMembership(outcomes: seq<Option<Line>>, i: nat)
    requires i < |outcomes|
    ensures i in PresentPositions(outcomes) <==> outcomes[i].Some?
    decreases |outcomes|
  {
    var n := |outcomes| - 1;
    PositionsIncreasing(outcomes[..n]);
    if i == n {
      assert i !in PresentPositions(outcomes[..n]);
    } else {
      assert outcomes[..n][i] == outcomes[i];
      PositionsMembership(outcomes[..n], i);
    }
  }

  /** The k-th line present is the outcome at the k-th listed position. */
  lemma {:induction false} PresentAtPositions(outcomes: seq<Option<Line>>)
    ensures |Present(outcomes)| == |PresentPositions(outcomes)|
    ensures forall k :: 0 <= k < |PresentPositions(outcomes)| ==>
      var i := PresentPositions(outcomes)[k];
      i < |outcomes| && outcomes[i] == Some(Present(outcomes)[k])
    decreases |outcomes|
  {
    PositionsIncreasing(outcomes);
    if outcomes != [] {
      var n := |outcomes| - 1;
      PresentAtPositions(outcomes[..n]);
      var previous := PresentPositions(outcomes[..n]);
      PositionsIncreasing(outcomes[..n]);
      forall k | 0 <= k < |previous| ensures outcomes[..n][previous[k]] == outcomes[previous[k]] {
      }
    }
  }

  /**
   * The items the answer covers: the resolved indices are increasing, and an item's
   * index is among them exactly when the catalog has its code.
   */
  lemma ResolvedItems(products: seq<Product>, items: seq<Item>)
    requires ValidQuantities(items)
    ensures var idx := ResolvedIndices(products, items);
      && (forall k :: 0 <= k < |idx| ==> idx[k] < |items|)
      && (forall k, l :: 0 <= k < l < |idx| ==> idx[k] < idx[l])
    ensures forall i :: 0 <= i < |items| ==>
      (i in ResolvedIndices(products, items) <==> Found(products, items[i]))
  {
    var outcomes := Resolutions(products, items);
    PositionsIncreasing(outcomes);
    forall i | 0 <= i < |items|
      ensures i in ResolvedIndices(products, items) <==> Found(products, items[i])
    {
      PositionsMembership(outcomes, i);
      ResolveItemFound(products, items[i]);
    }
  }

  /**
   * The answer has exactly one line per resolved item, in request order: the k-th
   * line is the line of the k-th resolved item.
   */
  lemma LinesAreResolvedItems(products: seq<Product>, items: seq<Item>)
    requires ValidQuantities(items)
    ensures |ExpectedLines(products, items)| == |ResolvedIndices(products, items)|
    ensures forall k :: 0 <= k < |ResolvedIndices(products, items)| ==>
      LineOfResolved(products, items, k)
  {
    LinesArePresent(products, items);
    PresentAtPositions(Resolutions(products, items));
  }

  /** The k-th resolved item is an item, and its outcome is the k-th line. */
  predicate LineOfResolved(products: seq<Product>, items: seq<Item>, k: nat)
    requires ValidQuantities(items)
  {
    var idx := ResolvedIndices(products, items);
    var lines := ExpectedLines(products, items);
    && k < |idx| && k < |lines| && idx[k] < |items|
    && ResolveItem(products, items[idx[k]]) == Some(lines[k])
  }

  /** There are never more lines than outcomes. */
  lemma {:induction false} PresentBound(outcomes: seq<Option<Line>>)
    ensures |Present(outcomes)| <= |outcomes|
    decreases |outcomes|
  {
    if outcomes != [] {
      PresentBound(outcomes[..|outcomes| - 1]);
    }
  }

  /** There are never more lines than items. */
  lemma LinesBound(products: seq<Product>, items: seq<Item>)
    requires ValidQuantities(items)
    ensures |ExpectedLines(products, items)| <= |items|
  {
    LinesArePresent(products, items);
    PresentBound(Resolutions(products, items));
  }

  /** Quantities are checked item by item: a list of items is readable iff both halves are. */
  lemma ValidConcat(a: seq<Item>, b: seq<Item>)
    ensures ValidQuantities(a + b) <==> ValidQuantities(a) && ValidQuantities(b)
  {
    if ValidQuantities(a + b) {
      forall i | 0 <= i < |a| ensures Count(a[i].quantity).Some? {
        assert (a + b)[i] == a[i];
      }
      forall i | 0 <= i < |b| ensures Count(b[i].quantity).Some? {
        assert (a + b)[|a| + i] == b[i];
      }
    }
  }

  /** Taking the lines present commutes with concatenation. */
  lemma {:induction false} PresentConcat(x: seq<Option<Line>>, y: seq<Option<Line>>)
    ensures Present(x + y) == Present(x) + Present(y)
    decreases |y|
  {
    if y == [] {
      assert x + y == x;
    } else {
      var n := |y| - 1;
      assert (x + y)[..|x + y| - 1] == x + y[..n];
      assert (x + y)[|x + y| - 1] == y[n];
      PresentConcat(x, y[..n]);
    }
  }

  /** Splitting a request splits its lines: each item's line depends on that item alone. */
  lemma {:induction false} LinesConcat(products: seq<Product>, a: seq<Item>, b: seq<Item>)
    requires ValidQuantities(a) && ValidQuantities(b)
    ensures ValidQuantities(a + b)
    ensures ExpectedLines(products, a + b) == ExpectedLines(products, a) + ExpectedLines(products, b)
    decreases |b|
  {
    ValidConcat(a, b);
    if b == [] {
      assert a + b == a;
      assert ExpectedLines(products, b) == [];
    } else {
      var n := |b| - 1;
      var x := b[n];
      assert b == b[..n] + [x];
      ValidConcat(b[..n], [x]);
      assert a + b == (a + b[..n]) + [x];
      LinesConcat(products, a, b[..n]);
      LinesSnoc(products, a + b[..n], x);
      LinesSnoc(products, b[..n], x);
      var o := if ResolveItem(products, x).Some? then [ResolveItem(products, x).value] else [];
      assert (ExpectedLines(products, a) + ExpectedLines(products, b[..n])) + o
        == ExpectedLines(products, a) + (ExpectedLines(products, b[..n]) + o);
    }
  }

  /** One more item at the end adds its own outcome, and only that, to the lines. */
  lemma LinesSnoc(products: seq<Product>, items: seq<Item>, x: Item)
    requires ValidQuantities(items) && Count(x.quantity).Some?
    ensures ValidQuantities(items + [x])
    ensures ExpectedLines(products, items + [x])
      == ExpectedLines(products, items)
        + (if ResolveItem(products, x).Some? then [ResolveItem(products, x).value] else [])
  {
    var o := ResolveItem(products, x);
    assert [x][0] == x;
    ValidConcat(items, [x]);
    ResolutionsSnoc(products, items, x);
    LinesArePresent(products, items + [x]);
    LinesArePresent(products, items);
    PresentConcat(Resolutions(products, items), [o]);
    assert [o][..0] == [];
  }

  /** One more item adds its outcome at the end of the list of outcomes. */
  lemma ResolutionsSnoc(products: seq<Product>, items: seq<Item>, x: Item)
    requires ValidQuantities(items) && Count(x.quantity).Some? && ValidQuantities(items + [x])
    ensures Resolutions(products, items + [x]) == Resolutions(products, items) + [ResolveItem(products, x)]
  {
    var y := items + [x];
    assert y[|items|] == x;
    assert forall i :: 0 <= i < |items| ==> y[i] == items[i];
  }

  /** The total volume of two lists of lines together is the sum of their totals. */
  lemma {:induction false} TotalVolumeConcat(x: seq<Line>, y: seq<Line>)
    ensures TotalVolume(x + y) == TotalVolume(x) + TotalVolume(y)
    decreases |y|
  {
    if y == [] {
      assert x + y == x;
    } else {
      var n := |y| - 1;
      assert (x + y)[..|x + y| - 1] == x + y[..n];
      TotalVolumeConcat(x, y[..n]);
    }
  }

  /** The total weight of two lists of lines together is the sum of their totals. */
  lemma {:induction false} TotalWeightConcat(x: seq<Line>, y: seq<Line>)
    ensures TotalWeight(x + y) == TotalWeight(x) + TotalWeight(y)
    decreases |y|
  {
    if y == [] {
      assert x + y == x;
    } else {
      var n := |y| - 1;
      assert (x + y)[..|x + y| - 1] == x + y[..n];
      TotalWeightConcat(x, y[..n]);
    }
  }

  /** The totals of a request are the totals of its two halves added up. */
  lemma TotalsConcat(products: seq<Product>, a: seq<Item>, b: seq<Item>)
    requires ValidQuantities(a) && ValidQuantities(b)
    ensures ValidQuantities(a + b)
    ensures TotalVolume(ExpectedLines(products, a + b))
      == TotalVolume(ExpectedLines(products, a)) + TotalVolume(ExpectedLines(products, b))
    ensures TotalWeight(ExpectedLines(products, a + b))
      == TotalWeight(ExpectedLines(products, a)) + TotalWeight(ExpectedLines(products, b))
  {
    LinesConcat(products, a, b);
    TotalVolumeConcat(ExpectedLines(products, a), ExpectedLines(products, b));
    TotalWeightConcat(ExpectedLines(products, a), ExpectedLines(products, b));
  }

  /** An item without a quantity counts once: its line carries the product's own volume and weight. */
  lemma AbsentQuantityCountsOnce(products: seq<Product>, code: Option<string>)
    requires Found(products, Item(code, Absent))
    ensures var p := products[Lookup(products, RequestedCode(Item(code, Absent))).value];
      ExpectedLines(products, [Item(code, Absent)])
        == [Line(p.code, p.name, p.length, p.width, p.height, p.volume, p.weight, 1)]
  {
    var item := Item(code, Absent);
    var p := products[Lookup(products, RequestedCode(item)).value];
    SingleItem(products, item);
    assert ResolveItem(products, item) == Some(LineFor(p, 1));
    assert LineFor(p, 1) == Line(p.code, p.name, p.length, p.width, p.height, p.volume, p.weight, 1);
  }

  /** The lines of a one-item request are that item's outcome. */
  lemma SingleItem(products: seq<Product>, item: Item)
    requires Count(item.quantity).Some?
    ensures ValidQuantities([item])
    ensures ExpectedLines(products, [item])
      == if ResolveItem(products, item).Some? then [ResolveItem(products, item).value] else []
  {
    assert [item][0] == item;
  }

  /** A code sent as a float, "12345.0", finds the same product as "12345". */
  lemma FloatCodeFindsSameLine(products: seq<Product>, c: string, q: Quantity)
    requires IsCanonical(c)
    ensures RequestedCode(Item(Some(c + ".0"), q)) == RequestedCode(Item(Some(c), q)) == c
  {
    NormCodeFixesCanonical(c);
    NormCodeDropsFloatSuffix(c);
  }

  /** SQLite stores an INTEGER in 64 bits; `sqlite3` raises OverflowError for a Python int outside them. */
  const IntegerLimit: int := 0x8000_0000_0000_0000

  /** Whether SQLite can store `n` in an INTEGER column. */
  predicate FitsInteger(n: int) {
    -IntegerLimit <= n < IntegerLimit
  }

  /** Whether every line's quantity can be written to the store. */
  predicate Storable(lines: seq<Line>) {
    forall k :: 0 <= k < |lines| ==> FitsInteger(lines[k].quantity)
  }

  /**
   * The insert loop of the cubage route, one row per line: it goes through only when
   * every quantity fits a 64-bit INTEGER. The other columns are text and floats,
   * which always convert.
   */
  method Store(lines: seq<Line>) returns (ok: bool)
    ensures ok <==> Storable(lines)
  {
    var k := 0;
    while k < |lines|
      invariant k <= |lines|
      invariant forall j :: 0 <= j < k ==> FitsInteger(lines[j].quantity)
    {
      if !FitsInteger(lines[k].quantity) {
        return false;
      }
      k := k + 1;
    }
    return true;
  }

  /** The lines can be stored exactly when every found item's quantity fits the store. */
  lemma StorableIffFoundFit(products: seq<Product>, items: seq<Item>)
    requires ValidQuantities(items)
    ensures Storable(ExpectedLines(products, items)) <==>
      forall i :: 0 <= i < |items| && Found(products, items[i]) ==> FitsInteger(Count(items[i].quantity).value)
  {
    var lines := ExpectedLines(products, items);
    var idx := ResolvedIndices(products, items);
    ResolvedItems(products, items);
    LinesAreResolvedItems(products, items);
    forall k | 0 <= k < |lines|
      ensures Found(products, items[idx[k]])
      ensures lines[k].quantity == Count(items[idx[k]].quantity).value
    {
      assert LineOfResolved(products, items, k);
      ResolveItemFound(products, items[idx[k]]);
    }
    if Storable(lines) {
      forall i | 0 <= i < |items| && Found(products, items[i])
        ensures FitsInteger(Count(items[i].quantity).value)
      {
        assert i in idx;
        var k :| 0 <= k < |idx| && idx[k] == i;
        assert FitsInteger(lines[k].quantity);
      }
    }
  }

  /** A found item requested 2^63 times cannot be stored, so its request fails. */
  lemma TooLargeQuantityFails(products: seq<Product>, code: Option<string>)
    requires Found(products, Item(code, Whole(IntegerLimit)))
    ensures ValidQuantities([Item(code, Whole(IntegerLimit))])
    ensures !Storable(ExpectedLines(products, [Item(code, Whole(IntegerLimit))]))
  {
    var items := [Item(code, Whole(IntegerLimit))];
    assert Count(items[0].quantity).Some?;
    StorableIffFoundFit(products, items);
    assert Found(products, items[0]) && !FitsInteger(Count(items[0].quantity).value);
  }

  /**
   * The cubage route: load the catalog, aggregate the items ("itens", empty when the
   * field is absent), and offer the boxes that hold the total volume.
   */
  method Cubagem(sheet: Sheet, items: Option<seq<Item>>) returns (r: Result<Response, CubageError>)
    ensures Load(sheet).Failure? ==> r == Failure(LoadFailed(Load(sheet).error))
    ensures Load(sheet).Success? ==>
      (r.Failure? <==>
        || !ValidQuantities(items.GetOr([]))
        || !Storable(ExpectedLines(Load(sheet).value.products, items.GetOr([]))))
    ensures Load(sheet).Success? && !ValidQuantities(items.GetOr([])) ==>
      r.Failure? && r.error.BadQuantity? && Some(r.error.index) == FirstBadQuantity(items.GetOr([]))
    ensures Load(sheet).Success? && ValidQuantities(items.GetOr([])) && r.Failure? ==>
      r.error == QuantityTooLarge
    ensures r.Success? ==> Load(sheet).Success? && ValidQuantities(items.GetOr([]))
    ensures r.Success? ==>
      && r.value.lines == ExpectedLines(Load(sheet).value.products, items.GetOr([]))
      && Storable(r.value.lines)
    ensures r.Success? ==> r.value.itemsFound == |r.value.lines| <= |items.GetOr([])|
    ensures r.Success? ==>
      && r.value.totalVolume == TotalVolume(r.value.lines)
      && r.value.totalWeight == TotalWeight(r.value.lines)
    ensures r.Success? ==> r.value.boxes == Select(r.value.totalVolume)
  {
    var catalog := Load(sheet);
    if catalog.Failure? {
      return Failure(LoadFailed(catalog.error));
    }
    var requested := items.GetOr([]);
    var manifest := Aggregate(catalog.value.products, requested);
    if manifest.Failure? {
      FirstBadAt(requested, manifest.error);
      return Failure(BadQuantity(manifest.error));
    }
    var m := manifest.value;
    var stored := Store(m.lines);
    if !stored {
      return Failure(QuantityTooLarge);
    }
    LinesBound(catalog.value.products, requested);
    return Success(Response(|m.lines|, m.totalVolume, m.totalWeight, Select(m.totalVolume), m.lines));
  }
}
