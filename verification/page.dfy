/**
 The product page as a whole: the cart together with the control widget of
 every product card, and the click handlers that change both.

 A product card's control is either the "Add to Cart" button (`Idle`) or the
 quantity selector showing a number (`Active`). The handlers rewrite the
 widgets by hand after each cart mutation; the point of this module is that
 they never drift from the cart: every widget shows exactly what `ControlOf`
 derives from the cart, after any sequence of clicks.
 */
module ProductPage {
  import opened CartState

  datatype Control = Idle | Active(quantity: int)

  /** The control a product should show for a cart: its quantity when present, the add button otherwise. */
  function ControlOf(c: Cart, id: string): Control {
    if id in AsMap(c) then Active(AsMap(c)[id].quantity) else Idle
  }

  /** The cart and the control widget of each product card, keyed by product id. */
  datatype Page = Page(cart: Cart, controls: map<string, Control>)

  /** The user actions the page listens for. */
  datatype Event =
    | AddToCartClick(id: string, name: string, price: int)
    | IncrementClick(id: string)
    | DecrementClick(id: string)
    | RemoveItemClick(id: string)
    | ConfirmOrderClick
    | StartNewOrderClick

  /** A handler either finishes, or throws because it read `.quantity` of a missing cart line. */
  datatype Outcome = Handled(page: Page) | TypeError

  /** The quantity selector drawn after an add: it shows the cart quantity, or 0 when the id is absent. */
  function SelectorFor(c: Cart, id: string): (r: Control)
    ensures r.Active?
    ensures id in AsMap(c) ==> r == ControlOf(c, id)
  {
    Active(if id in AsMap(c) then AsMap(c)[id].quantity else 0)
  }

  /** The widget after a quantity change: the add button when the line is gone or at 0, else the quantity. */
  function ControlAfterChange(c: Cart, id: string): (r: Control)
    ensures AllPositive(AsMap(c)) ==> r == ControlOf(c, id)
    ensures r != ControlOf(c, id) <==> id in AsMap(c) && AsMap(c)[id].quantity == 0
  {
    if id !in AsMap(c) || AsMap(c)[id].quantity == 0 then Idle else Active(AsMap(c)[id].quantity)
  }

  /** Starting a new order turns every quantity selector back into an add button. */
  function ResetSelectors(controls: map<string, Control>): (r: map<string, Control>)
    ensures r.Keys == controls.Keys
    ensures forall k :: k in r ==> r[k] == Idle
  {
    map k | k in controls :: if controls[k].Active? then Idle else controls[k]
  }

  /**
   One click handler. Increment and decrement throw exactly when the product has
   no cart line; everything else always completes, and confirming an order
   changes nothing on the page.
   */
  function Step(p: Page, e: Event): (o: Outcome)
    ensures o.TypeError? <==> (e.IncrementClick? || e.DecrementClick?) && e.id !in AsMap(p.cart)
    ensures e.ConfirmOrderClick? ==> o == Handled(p)
  {
    match e
    case AddToCartClick(id, name, price) =>
      var c := AddOrIncrement(p.cart, id, name, price);
      Handled(Page(c, p.controls[id := SelectorFor(c, id)]))
    case IncrementClick(id) =>
      if id !in AsMap(p.cart) then TypeError
      else
        var c := Increment(p.cart, id);
        Handled(Page(c, p.controls[id := ControlAfterChange(c, id)]))
    case DecrementClick(id) =>
      if id !in AsMap(p.cart) then TypeError
      else
        var c := Decrement(p.cart, id);
        Handled(Page(c, p.controls[id := ControlAfterChange(c, id)]))
    case RemoveItemClick(id) =>
      var controls := if id in p.controls then p.controls[id := Idle] else p.controls;
      Handled(Page(Remove(p.cart, id), controls))
    case ConfirmOrderClick =>
      Handled(p)
    case StartNewOrderClick =>
      Handled(Page(Clear(), ResetSelectors(p.controls)))
  }

  /** Dispatches the clicks in order; a handler that throws leaves the page as it was. */
  function Run(p: Page, events: seq<Event>): Page
    decreases |events|
  {
    if |events| == 0 then p
    else
      var next := match Step(p, events[0]) case Handled(q) => q case TypeError => p;
      Run(next, events[1..])
  }

  /** The page as loaded: an empty cart and an add button on every product card. */
  function InitialPage(catalog: set<string>): Page {
    Page([], map k | k in catalog :: Idle)
  }

  /** Every product in the cart has a widget, and every widget shows what the cart says. */
  predicate Synced(p: Page) {
    && (forall k :: k in AsMap(p.cart) ==> k in p.controls)
    && (forall k :: k in p.controls ==> p.controls[k] == ControlOf(p.cart, k))
  }

  /** The page invariant: a valid cart and widgets in sync with it. */
  predicate Consistent(p: Page) {
    Valid(p.cart) && Synced(p)
  }

  /** Two carts that agree away from `id` show the same control for every other product. */
  lemma {:induction false} ControlFrame(a: Cart, b: Cart, id: string)
    requires AsMap(a) - {id} == AsMap(b) - {id}
    ensures forall k :: k != id ==> ControlOf(a, k) == ControlOf(b, k)
    ensures forall k :: k != id ==> (k in AsMap(a) <==> k in AsMap(b))
  {
    forall k | k != id
      ensures ControlOf(a, k) == ControlOf(b, k)
      ensures k in AsMap(a) <==> k in AsMap(b)
    {
      assert k in AsMap(a) <==> k in AsMap(a) - {id};
      assert k in AsMap(b) <==> k in AsMap(b) - {id};
      if k in AsMap(a) {
        assert AsMap(a)[k] == (AsMap(a) - {id})[k];
        assert AsMap(b)[k] == (AsMap(b) - {id})[k];
      }
    }
  }

  /**
   The per-product state machine: add goes to Active(1) or Active(n+1), increment
   to Active(n+1), decrement to Active(n-1) or back to Idle from Active(1), and
   remove and clear to Idle.
   */
  lemma ControlTransitions(c: Cart, id: string, name: string, price: int)
    ensures ControlOf(AddOrIncrement(c, id, name, price), id)
         == if ControlOf(c, id).Active? then Active(ControlOf(c, id).quantity + 1) else Active(1)
    ensures ControlOf(c, id).Active? ==>
      ControlOf(Increment(c, id), id) == Active(ControlOf(c, id).quantity + 1)
    ensures ControlOf(c, id).Active? ==>
      ControlOf(Decrement(c, id), id)
      == if ControlOf(c, id).quantity > 1 then Active(ControlOf(c, id).quantity - 1) else Idle
    ensures ControlOf(Remove(c, id), id) == Idle
    ensures ControlOf(Clear(), id) == Idle
  {
  }

  lemma {:induction false} AddClickPreservesConsistent(p: Page, id: string, name: string, price: int)
    requires Consistent(p)
    ensures Consistent(Step(p, AddToCartClick(id, name, price)).page)
  {
    AddPreservesValid(p.cart, id, name, price);
    ControlFrame(AddOrIncrement(p.cart, id, name, price), p.cart, id);
  }

  lemma {:induction false} IncrementClickPreservesConsistent(p: Page, id: string)
    requires Consistent(p) && id in AsMap(p.cart)
    ensures Consistent(Step(p, IncrementClick(id)).page)
  {
    IncrementPreservesValid(p.cart, id);
    ControlFrame(Increment(p.cart, id), p.cart, id);
  }

  lemma {:induction false} DecrementClickPreservesConsistent(p: Page, id: string)
    requires Consistent(p) && id in AsMap(p.cart)
    ensures Consistent(Step(p, DecrementClick(id)).page)
  {
    DecrementPreservesValid(p.cart, id);
    ControlFrame(Decrement(p.cart, id), p.cart, id);
  }

  lemma {:induction false} RemoveClickPreservesConsistent(p: Page, id: string)
    requires Consistent(p)
    ensures Consistent(Step(p, RemoveItemClick(id)).page)
  {
    RemovePreservesValid(p.cart, id);
    ControlFrame(Remove(p.cart, id), p.cart, id);
  }

  /** Every handler keeps the page invariant. */
  lemma {:induction false} StepPreservesConsistent(p: Page, e: Event)
    requires Consistent(p)
    ensures Step(p, e).Handled? ==> Consistent(Step(p, e).page)
  {
    match e
    case AddToCartClick(id, name, price) =>
      AddClickPreservesConsistent(p, id, name, price);
    case IncrementClick(id) =>
      if id in AsMap(p.cart) {
        IncrementClickPreservesConsistent(p, id);
      }
    case DecrementClick(id) =>
      if id in AsMap(p.cart) {
        DecrementClickPreservesConsistent(p, id);
      }
    case RemoveItemClick(id) =>
      RemoveClickPreservesConsistent(p, id);
    case ConfirmOrderClick =>
    case StartNewOrderClick =>
  }

  /** A widget that shows a quantity selector always has a cart line behind it, so its buttons never throw. */
  lemma ActiveControlNeverThrows(p: Page, id: string)
    requires Synced(p) && id in p.controls && p.controls[id].Active?
    ensures Step(p, IncrementClick(id)).Handled?
    ensures Step(p, DecrementClick(id)).Handled?
  {
  }

  /** Any sequence of clicks keeps the page invariant. */
  lemma {:induction false} RunPreservesConsistent(p: Page, events: seq<Event>)
    requires Consistent(p)
    ensures Consistent(Run(p, events))
    decreases |events|
  {
    if |events| > 0 {
      StepPreservesConsistent(p, events[0]);
      var next := match Step(p, events[0]) case Handled(q) => q case TypeError => p;
      RunPreservesConsistent(next, events[1..]);
    }
  }

  /**
   In every page reachable from the loaded page, every stored quantity is at least 1,
   ids are unique, and each product's widget shows its cart quantity, or the add
   button when it is not in the cart.
   */
  lemma {:induction false} ReachablePagesConsistent(catalog: set<string>, events: seq<Event>)
    ensures Valid(Run(InitialPage(catalog), events).cart)
    ensures forall k :: k in Run(InitialPage(catalog), events).controls ==>
      Run(InitialPage(catalog), events).controls[k] == ControlOf(Run(InitialPage(catalog), events).cart, k)
  {
    RunPreservesConsistent(InitialPage(catalog), events);
  }
}
