/**
 The cart state of the product-list page and its five mutations.

 The page keeps one global object that maps a product id to the line
 `{ name, price, quantity }`. Here the object is a sequence of entries in
 insertion order (the order `for...in` walks opaque string keys), and
 `AsMap` recovers the object view that the handlers read and write.
 Prices are whole cents.
 */
module CartState {

  /** The value stored under one product id. */
  datatype Line = Line(name: string, price: int, quantity: int)

  /** One key/value pair of the cart object. */
  datatype Entry = Entry(id: string, line: Line)

  type Cart = seq<Entry>

  /** The keys of the cart, in enumeration order. */
  function Ids(c: Cart): (ids: seq<string>)
    ensures |ids| == |c|
  {
    if |c| == 0 then [] else [c[0].id] + Ids(c[1..])
  }

  /** The cart seen as the object the handlers index: the first entry for an id wins. */
  function AsMap(c: Cart): map<string, Line> {
    if |c| == 0 then map[] else AsMap(c[1..])[c[0].id := c[0].line]
  }

  /** No product id occurs twice. */
  predicate UniqueIds(c: Cart) {
    |c| == 0 || (c[0].id !in AsMap(c[1..]) && UniqueIds(c[1..]))
  }

  /** Every stored quantity is at least 1. */
  predicate AllPositive(m: map<string, Line>) {
    forall k :: k in m ==> m[k].quantity >= 1
  }

  /** The invariant of every reachable cart: unique keys and every stored quantity at least 1. */
  predicate Valid(c: Cart) {
    UniqueIds(c) && AllPositive(AsMap(c))
  }

  /** Storing a positive line, or dropping a key, keeps every quantity positive. */
  lemma PositiveUpdate(m: map<string, Line>, k: string, l: Line)
    requires AllPositive(m)
    ensures l.quantity >= 1 ==> AllPositive(m[k := l])
    ensures AllPositive(m - {k})
  {
  }

  lemma MapDropOverride(m: map<string, Line>, k: string, v: Line)
    ensures m[k := v] - {k} == m - {k}
  {
  }

  lemma MapDropOther(m: map<string, Line>, k: string, j: string, v: Line)
    requires k != j
    ensures m[j := v] - {k} == (m - {k})[j := v]
  {
  }

  /** The cart is empty exactly when its object has no keys. */
  lemma {:induction false} EmptyIffNoKeys(c: Cart)
    ensures |c| == 0 <==> AsMap(c) == map[]
  {
    if |c| > 0 {
      assert c[0].id in AsMap(c);
    }
  }

  /** Appending an id the cart lacks adds exactly that key, and the id goes last in the order. */
  lemma {:induction false} AppendFresh(c: Cart, e: Entry)
    requires e.id !in AsMap(c)
    ensures AsMap(c + [e]) == AsMap(c)[e.id := e.line]
    ensures Ids(c + [e]) == Ids(c) + [e.id]
    ensures UniqueIds(c) ==> UniqueIds(c + [e])
  {
    if |c| > 0 {
      assert (c + [e])[1..] == c[1..] + [e];
      AppendFresh(c[1..], e);
    }
  }

  /** Overwrites the value stored under `id`; a missing id leaves the cart as it is. */
  function Set(c: Cart, id: string, l: Line): (r: Cart)
    ensures Ids(r) == Ids(c)
    ensures AsMap(r) == if id in AsMap(c) then AsMap(c)[id := l] else AsMap(c)
  {
    if |c| == 0 then []
    else if c[0].id == id then
      var r := [Entry(id, l)] + c[1..];
      assert r[1..] == c[1..];
      r
    else
      var r := [c[0]] + Set(c[1..], id, l);
      assert r[1..] == Set(c[1..], id, l);
      r
  }

  /** Overwriting a line keeps the ids unique. */
  lemma {:induction false} UniqueSet(c: Cart, id: string, l: Line)
    requires UniqueIds(c)
    ensures UniqueIds(Set(c, id, l))
  {
    if |c| > 0 {
      UniqueSet(c[1..], id, l);
      var r := Set(c, id, l);
      if c[0].id == id {
        assert r[1..] == c[1..];
      } else {
        assert r[1..] == Set(c[1..], id, l);
      }
    }
  }

  /** The sequence `s` with every occurrence of `x` taken out, the rest in order. */
  function Without(s: seq<string>, x: string): seq<string> {
    if |s| == 0 then [] else (if s[0] == x then [] else [s[0]]) + Without(s[1..], x)
  }

  /** `delete cart[id]`: drops the key, keeps the other keys in their order, and is a no-op when the key is absent. */
  function Remove(c: Cart, id: string): (r: Cart)
    ensures AsMap(r) == AsMap(c) - {id}
    ensures Ids(r) == Without(Ids(c), id)
    ensures id !in AsMap(c) ==> r == c
  {
    if |c| == 0 then []
    else if c[0].id == id then
      var r := Remove(c[1..], id);
      MapDropOverride(AsMap(c[1..]), id, c[0].line);
      assert Ids(c)[1..] == Ids(c[1..]);
      r
    else
      var r := [c[0]] + Remove(c[1..], id);
      assert r[1..] == Remove(c[1..], id);
      assert c == [c[0]] + c[1..];
      assert Ids(c)[1..] == Ids(c[1..]);
      MapDropOther(AsMap(c[1..]), id, c[0].id, c[0].line);
      r
  }

  /** Removing a key keeps the remaining ids unique. */
  lemma {:induction false} UniqueRemove(c: Cart, id: string)
    requires UniqueIds(c)
    ensures UniqueIds(Remove(c, id))
  {
    if |c| > 0 {
      UniqueRemove(c[1..], id);
      if c[0].id != id {
        var r := [c[0]] + Remove(c[1..], id);
        assert r[1..] == Remove(c[1..], id);
      }
    }
  }

  /** The add-to-cart click: raise the quantity of a present id, otherwise append a new line of quantity 1. */
  function AddOrIncrement(c: Cart, id: string, name: string, price: int): (r: Cart)
    ensures id in AsMap(r)
    ensures id !in AsMap(c) ==> AsMap(r)[id] == Line(name, price, 1)
    ensures id in AsMap(c) ==>
      && AsMap(r)[id].quantity == AsMap(c)[id].quantity + 1
      && AsMap(r)[id].name == AsMap(c)[id].name
      && AsMap(r)[id].price == AsMap(c)[id].price
    ensures AsMap(r) - {id} == AsMap(c) - {id}
    ensures Ids(r) == if id in AsMap(c) then Ids(c) else Ids(c) + [id]
  {
    if id in AsMap(c) then
      var l := AsMap(c)[id];
      MapDropOverride(AsMap(c), id, l.(quantity := l.quantity + 1));
      Set(c, id, l.(quantity := l.quantity + 1))
    else
      var e := Entry(id, Line(name, price, 1));
      AppendFresh(c, e);
      MapDropOverride(AsMap(c), id, e.line);
      c + [e]
  }

  /** The increment button: `cart[id].quantity++` on a line that must exist. */
  function Increment(c: Cart, id: string): (r: Cart)
    requires id in AsMap(c)
    ensures id in AsMap(r)
    ensures AsMap(r)[id] == AsMap(c)[id].(quantity := AsMap(c)[id].quantity + 1)
    ensures AsMap(r) - {id} == AsMap(c) - {id}
    ensures Ids(r) == Ids(c)
  {
    var l := AsMap(c)[id];
    MapDropOverride(AsMap(c), id, l.(quantity := l.quantity + 1));
    Set(c, id, l.(quantity := l.quantity + 1))
  }

  /** The decrement button: lower the quantity by one and delete the line once it is 0 or less. */
  function Decrement(c: Cart, id: string): (r: Cart)
    requires id in AsMap(c)
    ensures AsMap(c)[id].quantity - 1 <= 0 ==> id !in AsMap(r)
    ensures AsMap(c)[id].quantity - 1 > 0 ==>
      id in AsMap(r) && AsMap(r)[id] == AsMap(c)[id].(quantity := AsMap(c)[id].quantity - 1)
    ensures AsMap(r) - {id} == AsMap(c) - {id}
    ensures Ids(r) == if AsMap(c)[id].quantity - 1 <= 0 then Without(Ids(c), id) else Ids(c)
  {
    var l := AsMap(c)[id];
    if l.quantity - 1 <= 0 then Remove(c, id)
    else
      MapDropOverride(AsMap(c), id, l.(quantity := l.quantity - 1));
      Set(c, id, l.(quantity := l.quantity - 1))
  }

  /** Starting a new order replaces the cart by the empty object. */
  function Clear(): (r: Cart)
    ensures AsMap(r) == map[]
  {
    []
  }

  /** Add-or-increment keeps the invariant: a new line starts at 1, an existing one only grows. */
  lemma {:induction false} AddPreservesValid(c: Cart, id: string, name: string, price: int)
    requires Valid(c)
    ensures Valid(AddOrIncrement(c, id, name, price))
  {
    if id in AsMap(c) {
      var l := AsMap(c)[id];
      UniqueSet(c, id, l.(quantity := l.quantity + 1));
      PositiveUpdate(AsMap(c), id, l.(quantity := l.quantity + 1));
    } else {
      var e := Entry(id, Line(name, price, 1));
      AppendFresh(c, e);
      PositiveUpdate(AsMap(c), id, e.line);
    }
  }

  /** Increment keeps the invariant. */
  lemma {:induction false} IncrementPreservesValid(c: Cart, id: string)
    requires Valid(c) && id in AsMap(c)
    ensures Valid(Increment(c, id))
  {
    var l := AsMap(c)[id];
    UniqueSet(c, id, l.(quantity := l.quantity + 1));
    PositiveUpdate(AsMap(c), id, l.(quantity := l.quantity + 1));
  }

  /** Decrement keeps the invariant: a line that would reach 0 is deleted instead. */
  lemma {:induction false} DecrementPreservesValid(c: Cart, id: string)
    requires Valid(c) && id in AsMap(c)
    ensures Valid(Decrement(c, id))
  {
    var l := AsMap(c)[id];
    UniqueRemove(c, id);
    UniqueSet(c, id, l.(quantity := l.quantity - 1));
    PositiveUpdate(AsMap(c), id, l.(quantity := l.quantity - 1));
  }

  /** Remove keeps the invariant. */
  lemma {:induction false} RemovePreservesValid(c: Cart, id: string)
    requires Valid(c)
    ensures Valid(Remove(c, id))
  {
    UniqueRemove(c, id);
    PositiveUpdate(AsMap(c), id, Line("", 0, 1));
  }

  /** A second write to the same id overrides the first. */
  lemma {:induction false} SetTwice(c: Cart, id: string, l1: Line, l2: Line)
    ensures Set(Set(c, id, l1), id, l2) == Set(c, id, l2)
  {
    if |c| > 0 && c[0].id != id {
      SetTwice(c[1..], id, l1, l2);
    }
  }

  /** Writing back the line already stored changes nothing. */
  lemma {:induction false} SetOwn(c: Cart, id: string)
    requires id in AsMap(c)
    ensures Set(c, id, AsMap(c)[id]) == c
  {
    if c[0].id != id {
      SetOwn(c[1..], id);
      assert c == [c[0]] + c[1..];
    }
  }

  /** Deleting a freshly appended id removes just that entry. */
  lemma {:induction false} RemoveAppendFresh(c: Cart, e: Entry)
    requires e.id !in AsMap(c)
    ensures Remove(c + [e], e.id) == c
  {
    if |c| == 0 {
      assert Remove([e], e.id) == Remove([e][1..], e.id);
    } else {
      assert (c + [e])[1..] == c[1..] + [e];
      RemoveAppendFresh(c[1..], e);
      assert c == [c[0]] + c[1..];
    }
  }

  /** Decrementing a line above 1 is a plain overwrite. */
  lemma DecrementAboveOne(c: Cart, id: string)
    requires id in AsMap(c) && AsMap(c)[id].quantity > 1
    ensures Decrement(c, id) == Set(c, id, AsMap(c)[id].(quantity := AsMap(c)[id].quantity - 1))
  {
  }

  /** Incrementing and then decrementing a present product gives back the cart exactly. */
  lemma {:induction false} IncrementThenDecrement(c: Cart, id: string)
    requires Valid(c) && id in AsMap(c)
    ensures Decrement(Increment(c, id), id) == c
  {
    var l := AsMap(c)[id];
    var up := l.(quantity := l.quantity + 1);
    var a := Increment(c, id);
    assert a == Set(c, id, up);
    DecrementAboveOne(a, id);
    assert up.(quantity := up.quantity - 1) == l;
    SetTwice(c, id, up, l);
    SetOwn(c, id);
  }

  /** Adding a product and then decrementing it gives back the cart exactly, order included. */
  lemma {:induction false} AddThenDecrement(c: Cart, id: string, name: string, price: int)
    requires Valid(c)
    ensures Decrement(AddOrIncrement(c, id, name, price), id) == c
  {
    if id in AsMap(c) {
      IncrementThenDecrement(c, id);
    } else {
      RemoveAppendFresh(c, Entry(id, Line(name, price, 1)));
    }
  }
}
