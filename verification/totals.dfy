/**
 The derived figures of the cart: the item count and the total price are
 sums over the lines, recomputed from the state and never stored.
 */
module Totals {
  import opened CartState

  /** Sum of a per-line weight over the cart, in enumeration order. */
  function Sum(c: Cart, w: Line -> int): int {
    if |c| == 0 then 0 else w(c[0].line) + Sum(c[1..], w)
  }

  function Quantity(l: Line): int {
    l.quantity
  }

  /** What one line contributes to the price: quantity times unit price, in cents. */
  function LineTotal(l: Line): int {
    l.quantity * l.price
  }

  /** The figure shown next to the cart heading: the sum of all quantities. */
  function ItemCount(c: Cart): int {
    Sum(c, Quantity)
  }

  /** The order total: the sum of quantity times price over all lines. */
  function TotalPrice(c: Cart): int {
    Sum(c, LineTotal)
  }

  lemma {:induction false} SumAppend(a: Cart, b: Cart, w: Line -> int)
    ensures Sum(a + b, w) == Sum(a, w) + Sum(b, w)
  {
    if |a| == 0 {
      assert a + b == b;
    } else {
      assert (a + b)[1..] == a[1..] + b;
      SumAppend(a[1..], b, w);
    }
  }

  /** Taking one line out of any position takes its weight out of the sum. */
  lemma {:induction false} SumWithout(b: Cart, i: nat, w: Line -> int)
    requires i < |b|
    ensures Sum(b, w) == w(b[i].line) + Sum(b[..i] + b[i + 1..], w)
  {
    assert b == b[..i] + ([b[i]] + b[i + 1..]);
    SumAppend(b[..i], [b[i]] + b[i + 1..], w);
    SumAppend(b[..i], b[i + 1..], w);
    assert ([b[i]] + b[i + 1..])[1..] == b[i + 1..];
  }

  /** The sums do not depend on the enumeration order: any rearrangement of the lines gives the same figure. */
  lemma {:induction false} SumPermutation(a: Cart, b: Cart, w: Line -> int)
    requires multiset(a) == multiset(b)
    ensures Sum(a, w) == Sum(b, w)
  {
    if |a| == 0 {
      assert |b| == |multiset(b)| == 0;
    } else {
      var x := a[0];
      assert x in multiset(b);
      var i :| 0 <= i < |b| && b[i] == x;
      var rest := b[..i] + b[i + 1..];
      assert multiset(rest) == multiset(a[1..]) by {
        assert b == b[..i] + [x] + b[i + 1..];
        assert a == [x] + a[1..];
        assert multiset(rest) == multiset(b) - multiset{x};
        assert multiset(a[1..]) == multiset(a) - multiset{x};
      }
      SumPermutation(a[1..], rest, w);
      SumWithout(b, i, w);
    }
  }

  /** Overwriting a present line changes the sum by the difference of the two lines' weights. */
  lemma {:induction false} SumSet(c: Cart, id: string, l: Line, w: Line -> int)
    requires id in AsMap(c)
    ensures Sum(Set(c, id, l), w) == Sum(c, w) - w(AsMap(c)[id]) + w(l)
  {
    var r := Set(c, id, l);
    if c[0].id == id {
      assert r[1..] == c[1..];
    } else {
      assert r[1..] == Set(c[1..], id, l);
      SumSet(c[1..], id, l, w);
    }
  }

  /** Deleting a key takes its line's weight out of the sum; deleting an absent key changes nothing. */
  lemma {:induction false} SumRemove(c: Cart, id: string, w: Line -> int)
    requires UniqueIds(c)
    ensures Sum(Remove(c, id), w) == Sum(c, w) - (if id in AsMap(c) then w(AsMap(c)[id]) else 0)
  {
    if |c| > 0 {
      if c[0].id == id {
        assert Remove(c, id) == c[1..];
      } else {
        var r := [c[0]] + Remove(c[1..], id);
        assert r[1..] == Remove(c[1..], id);
        SumRemove(c[1..], id, w);
      }
    }
  }

  /** The tail of a valid cart is valid. */
  lemma {:induction false} ValidTail(c: Cart)
    requires Valid(c) && |c| > 0
    ensures Valid(c[1..])
    ensures c[0].line.quantity >= 1
  {
    assert c[0].id in AsMap(c);
    forall k | k in AsMap(c[1..])
      ensures AsMap(c[1..])[k].quantity >= 1
    {
      assert AsMap(c)[k] == AsMap(c[1..])[k];
    }
  }

  /** In a reachable cart the item count is at least the number of lines, and it is 0 exactly when the cart is empty. */
  lemma {:induction false} ItemCountBounds(c: Cart)
    requires Valid(c)
    ensures ItemCount(c) >= |c|
    ensures ItemCount(c) == 0 <==> AsMap(c) == map[]
  {
    EmptyIffNoKeys(c);
    if |c| > 0 {
      ValidTail(c);
      ItemCountBounds(c[1..]);
    }
  }

  /** Adding a product raises the count by one and the total by the stored unit price (the new price only for a new line). */
  lemma {:induction false} AddTotals(c: Cart, id: string, name: string, price: int)
    ensures ItemCount(AddOrIncrement(c, id, name, price)) == ItemCount(c) + 1
    ensures TotalPrice(AddOrIncrement(c, id, name, price))
         == TotalPrice(c) + (if id in AsMap(c) then AsMap(c)[id].price else price)
  {
    if id in AsMap(c) {
      IncrementTotals(c, id);
    } else {
      var e := Entry(id, Line(name, price, 1));
      SumAppend(c, [e], Quantity);
      SumAppend(c, [e], LineTotal);
    }
  }

  lemma LineTotalShift(l: Line, d: int)
    ensures LineTotal(l.(quantity := l.quantity + d)) == LineTotal(l) + d * l.price
  {
  }

  /** Incrementing raises the count by one and the total by the line's unit price. */
  lemma {:induction false} IncrementTotals(c: Cart, id: string)
    requires id in AsMap(c)
    ensures ItemCount(Increment(c, id)) == ItemCount(c) + 1
    ensures TotalPrice(Increment(c, id)) == TotalPrice(c) + AsMap(c)[id].price
  {
    var l := AsMap(c)[id];
    var up := l.(quantity := l.quantity + 1);
    assert Increment(c, id) == Set(c, id, up);
    SumSet(c, id, up, Quantity);
    SumSet(c, id, up, LineTotal);
    LineTotalShift(l, 1);
  }

  /** In a reachable cart, decrementing lowers the count by one and the total by the line's unit price, whether or not the line is deleted. */
  lemma {:induction false} DecrementTotals(c: Cart, id: string)
    requires Valid(c) && id in AsMap(c)
    ensures ItemCount(Decrement(c, id)) == ItemCount(c) - 1
    ensures TotalPrice(Decrement(c, id)) == TotalPrice(c) - AsMap(c)[id].price
  {
    var l := AsMap(c)[id];
    if l.quantity - 1 <= 0 {
      assert l.quantity == 1;
      SumRemove(c, id, Quantity);
      SumRemove(c, id, LineTotal);
    } else {
      var down := l.(quantity := l.quantity - 1);
      assert Decrement(c, id) == Set(c, id, down);
      SumSet(c, id, down, Quantity);
      SumSet(c, id, down, LineTotal);
      LineTotalShift(l, -1);
    }
  }

  /** Removing a product takes its whole line out of both figures; removing an absent one changes neither. */
  lemma {:induction false} RemoveTotals(c: Cart, id: string)
    requires UniqueIds(c)
    ensures ItemCount(Remove(c, id)) == ItemCount(c) - (if id in AsMap(c) then AsMap(c)[id].quantity else 0)
    ensures TotalPrice(Remove(c, id)) == TotalPrice(c) - (if id in AsMap(c) then LineTotal(AsMap(c)[id]) else 0)
  {
    SumRemove(c, id, Quantity);
    SumRemove(c, id, LineTotal);
  }

  /** Both figures are independent of the order in which the lines are enumerated. */
  lemma {:induction false} TotalsOrderIndependent(a: Cart, b: Cart)
    requires multiset(a) == multiset(b)
    ensures ItemCount(a) == ItemCount(b)
    ensures TotalPrice(a) == TotalPrice(b)
  {
    SumPermutation(a, b, Quantity);
    SumPermutation(a, b, LineTotal);
  }
}
