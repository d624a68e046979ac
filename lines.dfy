/** An order's line items as (catalog item id, quantity) rows, the list
    operations the reconciliation uses on them, and the order total. */
module LineItems {
  import opened Common

  datatype Line = Line(catalogId: int, quantity: int)

  /** The quantity of the line for catalog id k, if the order has one. */
  function QuantityOf(lines: seq<Line>, k: int): Option<int>
  {
    if lines == [] then None
    else if lines[|lines| - 1].catalogId == k then Some(lines[|lines| - 1].quantity)
    else QuantityOf(lines[..|lines| - 1], k)
  }

  /** At most one line per catalog id. */
  predicate UniqueIds(lines: seq<Line>)
  {
    lines == [] ||
    (UniqueIds(lines[..|lines| - 1]) && QuantityOf(lines[..|lines| - 1], lines[|lines| - 1].catalogId).None?)
  }

  /** Every quantity is at least one. */
  predicate Positive(lines: seq<Line>)
  {
    forall l | l in lines :: l.quantity >= 1
  }

  /** The lines whose catalog id is not in ids, in their original order. */
  function Dropping(lines: seq<Line>, ids: set<int>): seq<Line>
  {
    if lines == [] then [] else
    var l := lines[|lines| - 1];
    Dropping(lines[..|lines| - 1], ids) + (if l.catalogId in ids then [] else [l])
  }

  /** The lines with every line for catalog id k removed. */
  function Without(lines: seq<Line>, k: int): seq<Line>
  {
    Dropping(lines, {k})
  }

  /** The lines with quantity q given to the line for catalog id k. */
  function WithQuantity(lines: seq<Line>, k: int, q: int): seq<Line>
  {
    if lines == [] then [] else
    var l := lines[|lines| - 1];
    WithQuantity(lines[..|lines| - 1], k, q) + [if l.catalogId == k then Line(k, q) else l]
  }

  /** Sum of price(catalog id) * quantity over the lines, in exact arithmetic. */
  function Total(lines: seq<Line>, price: int -> real): real
  {
    if lines == [] then 0.0
    else Total(lines[..|lines| - 1], price) + price(lines[|lines| - 1].catalogId) * (lines[|lines| - 1].quantity as real)
  }

  // ---------------------------------------------------------------------

  lemma {:induction false} QuantityOfAbsent(lines: seq<Line>, k: int)
    ensures QuantityOf(lines, k).None? <==> forall i :: 0 <= i < |lines| ==> lines[i].catalogId != k
  {
    if lines != [] {
      var p := lines[..|lines| - 1];
      QuantityOfAbsent(p, k);
      assert forall i :: 0 <= i < |p| ==> p[i] == lines[i];
    }
  }

  /** The quantity reported for k is that of a line of the order. */
  lemma {:induction false} QuantityOfIsALine(lines: seq<Line>, k: int)
    requires QuantityOf(lines, k).Some?
    ensures Line(k, QuantityOf(lines, k).value) in lines
  {
    var p := lines[..|lines| - 1];
    if lines[|lines| - 1].catalogId != k {
      QuantityOfIsALine(p, k);
      assert lines == p + [lines[|lines| - 1]];
    }
  }

  /** With unique ids, every line's quantity is the one reported for its id. */
  lemma {:induction false} QuantityOfLine(lines: seq<Line>, i: int)
    requires UniqueIds(lines) && 0 <= i < |lines|
    ensures QuantityOf(lines, lines[i].catalogId) == Some(lines[i].quantity)
  {
    var p := lines[..|lines| - 1];
    if i < |lines| - 1 {
      QuantityOfLine(p, i);
      assert p[i] == lines[i];
    }
  }

  /** Pairwise distinct ids are unique ids. */
  lemma {:induction false} DistinctIdsAreUnique(lines: seq<Line>)
    requires forall i, j :: 0 <= i < j < |lines| ==> lines[i].catalogId != lines[j].catalogId
    ensures UniqueIds(lines)
  {
    if lines != [] {
      var p := lines[..|lines| - 1];
      DistinctIdsAreUnique(p);
      QuantityOfAbsent(p, lines[|lines| - 1].catalogId);
    }
  }

  lemma {:induction false} QuantityOfDropping(lines: seq<Line>, ids: set<int>, k: int)
    ensures QuantityOf(Dropping(lines, ids), k) == if k in ids then None else QuantityOf(lines, k)
  {
    if lines != [] {
      var p := lines[..|lines| - 1];
      var l := lines[|lines| - 1];
      QuantityOfDropping(p, ids, k);
      if l.catalogId !in ids {
        assert (Dropping(p, ids) + [l])[..|Dropping(p, ids)|] == Dropping(p, ids);
      } else {
        assert Dropping(lines, ids) == Dropping(p, ids);
      }
    }
  }

  /** Dropping keeps exactly the lines whose id is outside the set. */
  lemma {:induction false} DroppingMembers(lines: seq<Line>, ids: set<int>)
    ensures forall l :: l in Dropping(lines, ids) <==> l in lines && l.catalogId !in ids
  {
    if lines != [] {
      var p := lines[..|lines| - 1];
      DroppingMembers(p, ids);
      assert lines == p + [lines[|lines| - 1]];
    }
  }

  lemma {:induction false} DroppingUnique(lines: seq<Line>, ids: set<int>)
    requires UniqueIds(lines)
    ensures UniqueIds(Dropping(lines, ids))
  {
    if lines != [] {
      var p := lines[..|lines| - 1];
      var l := lines[|lines| - 1];
      DroppingUnique(p, ids);
      var d := Dropping(p, ids);
      if l.catalogId !in ids {
        QuantityOfDropping(p, ids, l.catalogId);
        assert (d + [l])[..|d|] == d;
      } else {
        assert Dropping(lines, ids) == d;
      }
    }
  }

  lemma {:induction false} QuantityOfWithQuantity(lines: seq<Line>, k: int, q: int, j: int)
    ensures QuantityOf(WithQuantity(lines, k, q), j) ==
      if j == k && QuantityOf(lines, k).Some? then Some(q) else QuantityOf(lines, j)
  {
    if lines != [] {
      var p := lines[..|lines| - 1];
      var w := WithQuantity(p, k, q);
      var l := lines[|lines| - 1];
      QuantityOfWithQuantity(p, k, q, j);
      assert (w + [if l.catalogId == k then Line(k, q) else l])[..|w|] == w;
    }
  }

  lemma {:induction false} WithQuantityUnique(lines: seq<Line>, k: int, q: int)
    requires UniqueIds(lines)
    ensures UniqueIds(WithQuantity(lines, k, q))
  {
    if lines != [] {
      var p := lines[..|lines| - 1];
      var w := WithQuantity(p, k, q);
      var l := lines[|lines| - 1];
      WithQuantityUnique(p, k, q);
      QuantityOfWithQuantity(p, k, q, l.catalogId);
      assert (w + [if l.catalogId == k then Line(k, q) else l])[..|w|] == w;
    }
  }

  /** Setting the quantity of k changes no line whose id is another. */
  lemma {:induction false} WithQuantityMembers(lines: seq<Line>, k: int, q: int)
    ensures forall l :: l in WithQuantity(lines, k, q) ==> l in lines || l == Line(k, q)
    ensures |WithQuantity(lines, k, q)| == |lines|
  {
    if lines != [] {
      var p := lines[..|lines| - 1];
      WithQuantityMembers(p, k, q);
      assert lines == p + [lines[|lines| - 1]];
    }
  }

  lemma {:induction false} DroppingWithQuantity(lines: seq<Line>, k: int, q: int, ids: set<int>)
    requires k in ids
    ensures Dropping(WithQuantity(lines, k, q), ids) == Dropping(lines, ids)
  {
    if lines != [] {
      var p := lines[..|lines| - 1];
      var w := WithQuantity(p, k, q);
      var l := lines[|lines| - 1];
      DroppingWithQuantity(p, k, q, ids);
      assert (w + [if l.catalogId == k then Line(k, q) else l])[..|w|] == w;
    }
  }

  lemma {:induction false} DroppingIdempotent(lines: seq<Line>, k: int, ids: set<int>)
    requires k in ids
    ensures Dropping(Dropping(lines, {k}), ids) == Dropping(lines, ids)
  {
    if lines != [] {
      var p := lines[..|lines| - 1];
      var d := Dropping(p, {k});
      var l := lines[|lines| - 1];
      DroppingIdempotent(p, k, ids);
      if l.catalogId != k {
        assert Dropping(lines, {k}) == d + [l];
        assert (d + [l])[..|d|] == d;
      } else {
        assert Dropping(lines, {k}) == d;
        assert Dropping(lines, ids) == Dropping(p, ids);
      }
    }
  }

  /** The total of lines with prices and quantities that are not negative is
      not negative. */
  lemma {:induction false} TotalNonNegative(lines: seq<Line>, price: int -> real)
    requires forall l | l in lines :: price(l.catalogId) >= 0.0 && l.quantity >= 0
    ensures Total(lines, price) >= 0.0
  {
    if lines != [] {
      var p := lines[..|lines| - 1];
      var l := lines[|lines| - 1];
      assert forall x | x in p :: x in lines;
      TotalNonNegative(p, price);
      var a, b := price(l.catalogId), l.quantity as real;
      assert a >= 0.0 && b >= 0.0;
      assert a * b >= 0.0;
    }
  }
}
