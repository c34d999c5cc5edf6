/** FIFO cost layers: the consumption loop of the ledger writer, refined to a flat queue of
    unit costs, and the one rounding step that turns a total cost into a unit cost. */
module Fifo {
  import opened Tables

  // ---------- quantize(Decimal("0.0001")) ----------

  /** The integer nearest to n / d, ties to even. */
  function RoundHalfEven(n: int, d: int): (r: int)
    requires d > 0
    ensures -d <= 2 * (n - r * d) <= d
    ensures 2 * (n - r * d) == d || 2 * (n - r * d) == -d ==> r % 2 == 0
  {
    var q, rem := n / d, n % d;
    assert n == q * d + rem;
    assert (q + 1) * d == q * d + d;
    if 2 * rem < d || (2 * rem == d && q % 2 == 0) then q else q + 1
  }

  lemma {:induction false} ProductMonotone(a: int, b: int, d: int)
    requires d > 0 && a < b
    ensures a * d + d <= b * d
    decreases b - a
  {
    assert b * d == (b - 1) * d + d;
    if a + 1 < b {
      ProductMonotone(a, b - 1, d);
    }
  }

  /** Rounding never leaves an interval with integer ends. */
  lemma RoundWithin(n: int, d: int, lo: int, hi: int)
    requires d > 0
    requires lo * d <= n <= hi * d
    ensures lo <= RoundHalfEven(n, d) <= hi
  {
    NearestWithin(n, d, RoundHalfEven(n, d), lo, hi);
  }

  lemma NearestWithin(n: int, d: int, r: int, lo: int, hi: int)
    requires d > 0
    requires lo * d <= n <= hi * d
    requires -d <= 2 * (n - r * d) <= d
    ensures lo <= r <= hi
  {
    if r < lo {
      ProductMonotone(r, lo, d);
    } else if r > hi {
      ProductMonotone(hi, r, d);
    }
  }

  // ---------- layers of one (sku, location) pair ----------

  function Quantity(layers: seq<Layer>): nat {
    if layers == [] then 0 else layers[0].qty + Quantity(layers[1..])
  }

  function Value(layers: seq<Layer>): int {
    if layers == [] then 0 else layers[0].qty * layers[0].unitCost + Value(layers[1..])
  }

  /** ORDER BY received_at ASC, id ASC. */
  predicate NotAfter(a: Layer, b: Layer) {
    a.receivedAt < b.receivedAt || (a.receivedAt == b.receivedAt && a.id <= b.id)
  }

  predicate FifoOrdered(layers: seq<Layer>) {
    forall i, j :: 0 <= i < j < |layers| ==> NotAfter(layers[i], layers[j])
  }

  /** A new layer takes its place in the FIFO index, which need not be the last one:
      a movement may carry a date in the past. */
  function Insert(layers: seq<Layer>, l: Layer): (r: seq<Layer>)
    ensures multiset(r) == multiset(layers) + multiset{l}
    ensures Quantity(r) == Quantity(layers) + l.qty
    ensures Value(r) == Value(layers) + l.qty * l.unitCost
    ensures FifoOrdered(layers) ==> FifoOrdered(r)
  {
    if layers == [] || NotAfter(l, layers[0]) then
      assert ([l] + layers)[1..] == layers;
      InsertFrontOrdered(layers, l);
      [l] + layers
    else
      var rest := Insert(layers[1..], l);
      assert layers == [layers[0]] + layers[1..];
      assert ([layers[0]] + rest)[1..] == rest;
      InsertTailOrdered(layers, l, rest);
      [layers[0]] + rest
  }

  lemma InsertFrontOrdered(layers: seq<Layer>, l: Layer)
    requires layers == [] || NotAfter(l, layers[0])
    ensures FifoOrdered(layers) ==> FifoOrdered([l] + layers)
  {
  }

  lemma InsertTailOrdered(layers: seq<Layer>, l: Layer, rest: seq<Layer>)
    requires layers != [] && !NotAfter(l, layers[0])
    requires multiset(rest) == multiset(layers[1..]) + multiset{l}
    requires FifoOrdered(layers[1..]) ==> FifoOrdered(rest)
    ensures FifoOrdered(layers) ==> FifoOrdered([layers[0]] + rest)
  {
    if FifoOrdered(layers) {
      forall i | 0 <= i < |rest| ensures NotAfter(layers[0], rest[i]) {
        assert rest[i] in multiset(rest);
        if rest[i] != l {
          assert rest[i] in layers[1..];
        }
      }
    }
  }

  function Least(a: nat, b: nat): (m: nat)
    ensures m <= a && m <= b && (m == a || m == b)
  {
    if a < b then a else b
  }

  /** What the consumption loop leaves: the layer rows, the quantity it could not find, and the
      exact total cost of what it took. */
  datatype Taken = Taken(layers: seq<Layer>, short: nat, cost: int)

  function Consume(layers: seq<Layer>, qty: nat): Taken {
    if layers == [] then Taken([], qty, 0)
    else
      var take := Least(layers[0].qty, qty);
      var rest := Consume(layers[1..], qty - take);
      Taken([layers[0].(qty := layers[0].qty - take)] + rest.layers, rest.short,
            take * layers[0].unitCost + rest.cost)
  }

  /** Once nothing remains to be taken, the rest of the layers is left alone. */
  lemma {:induction false} ConsumeNothing(layers: seq<Layer>)
    ensures Consume(layers, 0) == Taken(layers, 0, 0)
  {
    if layers != [] {
      ConsumeNothing(layers[1..]);
    }
  }

  // ---------- the flat queue ----------

  function Repeat(c: int, n: nat): seq<int> {
    seq(n, _ => c)
  }

  /** One entry per thousandth of a unit: the queue of unit costs, oldest first. */
  function Flat(layers: seq<Layer>): (q: seq<int>)
    ensures |q| == Quantity(layers)
  {
    if layers == [] then [] else Repeat(layers[0].unitCost, layers[0].qty) + Flat(layers[1..])
  }

  function Sum(s: seq<int>): int {
    if s == [] then 0 else s[0] + Sum(s[1..])
  }

  lemma {:induction false} SumConcat(a: seq<int>, b: seq<int>)
    ensures Sum(a + b) == Sum(a) + Sum(b)
  {
    if a == [] {
      assert a + b == b;
    } else {
      SumConcat(a[1..], b);
      assert (a + b)[1..] == a[1..] + b;
    }
  }

  lemma {:induction false} SumRepeat(c: int, n: nat)
    ensures Sum(Repeat(c, n)) == n * c
  {
    if n > 0 {
      assert Repeat(c, n)[1..] == Repeat(c, n - 1);
      SumRepeat(c, n - 1);
      assert n * c == c + (n - 1) * c;
    }
  }

  lemma Distribute(a: int, b: int, c: int)
    ensures (a - b) * c == a * c - b * c
    ensures (a + b) * c == a * c + b * c
  {
  }

  /** Consumption falls short exactly by what the layers lack; it keeps every layer's date,
      identifier and cost, and so the FIFO order. */
  lemma {:induction false} ConsumeAccounts(layers: seq<Layer>, qty: nat)
    ensures var t := Consume(layers, qty);
            && |t.layers| == |layers|
            && (forall i :: 0 <= i < |layers| ==> t.layers[i].(qty := layers[i].qty) == layers[i])
            && t.short == qty - Least(qty, Quantity(layers))
            && Quantity(t.layers) == Quantity(layers) - Least(qty, Quantity(layers))
            && (FifoOrdered(layers) ==> FifoOrdered(t.layers))
  {
    if layers != [] {
      ConsumeAccounts(layers[1..], qty - Least(layers[0].qty, qty));
    }
  }

  /** It removes exactly the value it reports. */
  lemma {:induction false} ConsumeValue(layers: seq<Layer>, qty: nat)
    ensures Value(Consume(layers, qty).layers) == Value(layers) - Consume(layers, qty).cost
  {
    if layers != [] {
      var take := Least(layers[0].qty, qty);
      ConsumeValue(layers[1..], qty - take);
      Distribute(layers[0].qty, take, layers[0].unitCost);
    }
  }

  /** The layers it leaves are the rest of the queue. */
  lemma {:induction false} ConsumeLeavesRest(layers: seq<Layer>, qty: nat)
    ensures Flat(Consume(layers, qty).layers) == Flat(layers)[Least(qty, |Flat(layers)|)..]
  {
    if layers != [] {
      var head, rest := layers[0], layers[1..];
      var take := Least(head.qty, qty);
      ConsumeLeavesRest(rest, qty - take);
      var left := Consume(rest, qty - take).layers;
      var kept := head.(qty := head.qty - take);
      assert Consume(layers, qty).layers == [kept] + left;
      assert ([kept] + left)[1..] == left;
      var units := Repeat(head.unitCost, head.qty);
      assert units[take..] == Repeat(head.unitCost, head.qty - take);
      var n, m := Least(qty, |Flat(layers)|), Least(qty - take, |Flat(rest)|);
      assert n == take + m && (m == 0 || take == head.qty);
      assert (units + Flat(rest))[n..] == units[take..] + Flat(rest)[m..];
    }
  }

  /** The cost it totals is that of the units it took off the front of the queue. */
  lemma {:induction false} ConsumeCostsFront(layers: seq<Layer>, qty: nat)
    ensures Consume(layers, qty).cost == Sum(Flat(layers)[..Least(qty, |Flat(layers)|)])
  {
    if layers != [] {
      var head, rest := layers[0], layers[1..];
      var take := Least(head.qty, qty);
      ConsumeCostsFront(rest, qty - take);
      SumRepeat(head.unitCost, take);
      var front := Flat(rest)[..Least(qty - take, |Flat(rest)|)];
      assert Flat(layers)[..Least(qty, |Flat(layers)|)] == Repeat(head.unitCost, take) + front;
      SumConcat(Repeat(head.unitCost, take), front);
    }
  }

  /** The loop is a dequeue of `qty` unit costs: it falls short exactly when the queue is too
      short, and otherwise drops the first `qty` entries and totals exactly their cost. */
  lemma ConsumeIsDequeue(layers: seq<Layer>, qty: nat)
    ensures var t := Consume(layers, qty);
            && (t.short == 0 <==> qty <= |Flat(layers)|)
            && (t.short == 0 ==> Flat(t.layers) == Flat(layers)[qty..] && t.cost == Sum(Flat(layers)[..qty]))
            && (t.short > 0 ==> t.short == qty - |Flat(layers)| && Flat(t.layers) == [])
  {
    ConsumeAccounts(layers, qty);
    ConsumeLeavesRest(layers, qty);
    ConsumeCostsFront(layers, qty);
  }

  lemma {:induction false} ConsumeSplitsLayers(layers: seq<Layer>, a: nat, b: nat)
    ensures Consume(layers, a + b).layers == Consume(Consume(layers, a).layers, b).layers
    ensures Consume(layers, a + b).short == Consume(layers, a).short + Consume(Consume(layers, a).layers, b).short
  {
    if layers != [] {
      var ta := Least(layers[0].qty, a);
      var tb := Least(layers[0].qty - ta, b);
      var kept, left := layers[0].(qty := layers[0].qty - ta), Consume(layers[1..], a - ta).layers;
      ConsumeSplitsLayers(layers[1..], a - ta, b - tb);
      assert Consume(layers, a).layers == [kept] + left;
      assert ([kept] + left)[1..] == left;
    }
  }

  lemma {:induction false} ConsumeSplitsCost(layers: seq<Layer>, a: nat, b: nat)
    ensures Consume(layers, a + b).cost == Consume(layers, a).cost + Consume(Consume(layers, a).layers, b).cost
  {
    if layers != [] {
      var ta := Least(layers[0].qty, a);
      var tb := Least(layers[0].qty - ta, b);
      var kept, left := layers[0].(qty := layers[0].qty - ta), Consume(layers[1..], a - ta).layers;
      ConsumeSplitsCost(layers[1..], a - ta, b - tb);
      assert Consume(layers, a).layers == [kept] + left;
      assert ([kept] + left)[1..] == left;
      Distribute(ta, tb, layers[0].unitCost);
    }
  }

  /** One movement of a + b touches the layers as a movement of a followed by one of b, and the
      two total costs add up. */
  lemma ConsumeSplits(layers: seq<Layer>, a: nat, b: nat)
    ensures var first := Consume(layers, a);
            var second := Consume(first.layers, b);
            Consume(layers, a + b) == Taken(second.layers, first.short + second.short, first.cost + second.cost)
  {
    ConsumeSplitsLayers(layers, a, b);
    ConsumeSplitsCost(layers, a, b);
  }

  lemma {:induction false} SumWithin(s: seq<int>, lo: int, hi: int)
    requires forall i :: 0 <= i < |s| ==> lo <= s[i] <= hi
    ensures lo * |s| <= Sum(s) <= hi * |s|
  {
    if s != [] {
      SumWithin(s[1..], lo, hi);
    }
  }

  /** The unit cost of an outbound movement lies between the cheapest and the dearest unit it
      took off the queue. */
  lemma UnitCostWithin(layers: seq<Layer>, qty: nat, lo: int, hi: int)
    requires 0 < qty <= Quantity(layers)
    requires forall i :: 0 <= i < qty ==> lo <= Flat(layers)[i] <= hi
    ensures lo <= RoundHalfEven(Consume(layers, qty).cost, qty) <= hi
  {
    ConsumeIsDequeue(layers, qty);
    SumWithin(Flat(layers)[..qty], lo, hi);
    RoundWithin(Consume(layers, qty).cost, qty, lo, hi);
  }

  // ---------- oldest first ----------

  /** What consumption leaves: the first layer less what it gave, then what it leaves of the others. */
  lemma ConsumeStep(layers: seq<Layer>, qty: nat)
    requires layers != []
    ensures var take := Least(layers[0].qty, qty);
            Consume(layers, qty).layers
              == [layers[0].(qty := layers[0].qty - take)] + Consume(layers[1..], qty - take).layers
  {
  }

  /** Every layer from which something was taken stands behind empty ones only. */
  predicate TakenInOrder(before: seq<Layer>, after: seq<Layer>) {
    && |after| == |before|
    && forall i, j :: 0 <= i < j < |before| ==> after[j].qty >= before[j].qty || after[i].qty == 0
  }

  lemma PrependInOrder(head: Layer, left: Layer, before: seq<Layer>, after: seq<Layer>)
    requires TakenInOrder(before, after) && (left.qty == 0 || after == before)
    ensures TakenInOrder([head] + before, [left] + after)
  {
  }

  /** Consumption reaches a layer only when every layer before it is empty. */
  lemma {:induction false} ConsumeInOrder(layers: seq<Layer>, qty: nat)
    ensures TakenInOrder(layers, Consume(layers, qty).layers)
  {
    if layers != [] {
      var head, left := layers[0], qty - Least(layers[0].qty, qty);
      ConsumeStep(layers, qty);
      ConsumeInOrder(layers[1..], left);
      if left == 0 {
        ConsumeNothing(layers[1..]);
      }
      PrependInOrder(head, head.(qty := head.qty - Least(head.qty, qty)), layers[1..],
                     Consume(layers[1..], left).layers);
      assert layers == [head] + layers[1..];
    }
  }
}
