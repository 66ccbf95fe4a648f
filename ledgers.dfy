/** The state of a WarehouseSystem as a value, and what each of its
    operations does to that state.  The methods of
    Warehouse.WarehouseSystem are proved to have exactly these effects. */
module Ledgers {
  import opened Items
  import opened Queue

  /** The inventory chain (top first), the shipping chain (front first) and
      the shipping queue's rear pointer. */
  datatype Ledger = Ledger(inventory: seq<Item>, shipping: seq<Item>, rear: Ref)

  /** Which container an operation found its item in. */
  datatype Place = InInventory | InShipping

  /** What searchItem reports: where the item is and its quantity there. */
  datatype Found = Found(place: Place, quantity: int)

  const Empty := Ledger([], [], Null)

  /** The invariant every operation keeps (given positive quantities). */
  predicate ValidLedger(l: Ledger)
  {
    AllPositive(l.inventory) && AllPositive(l.shipping) && RearShape(l.shipping, l.rear)
  }

  /** The shipping queue can take an enqueue. */
  predicate CanEnqueue(l: Ledger)
  {
    RearLive(l.shipping, l.rear)
  }

  /** What countItems adds up. */
  function Count(l: Ledger): int
  {
    Total(l.inventory) + Total(l.shipping)
  }

  /** `i` is the first node of `s` named `n`. */
  predicate FirstMatch(s: seq<Item>, n: string, i: int)
  {
    0 <= i < |s| && s[i].name == n && forall j :: 0 <= j < i ==> s[j].name != n
  }

  /** Enqueue at the ledger level: the new rear is the last node. */
  function ShippingEnqueued(l: Ledger, n: string, q: int): Ledger
  {
    var s := Enqueued(l.shipping, n, q);
    l.(shipping := s, rear := At(|s| - 1))
  }

  /** processItem as written: the first inventory node named `n` gives `q`
      units to the shipping queue; when it reaches zero the stack is reset
      to the nodes below it (`setTop(cur->next)`). */
  function Process(l: Ledger, n: string, q: int): (Result<()>, Ledger)
  {
    match FindFirst(l.inventory, n)
    case None => (Err(ItemNotFound), l)
    case Some(k) =>
      if l.inventory[k].quantity < q then (Err(InsufficientQuantity), l)
      else
        (Ok(()), ShippingEnqueued(l.(inventory := Drained(l.inventory, k, q)), n, q))
  }

  /** processItem with the node unlinked from its predecessor instead. */
  function ProcessIntended(l: Ledger, n: string, q: int): (Result<()>, Ledger)
  {
    match FindFirst(l.inventory, n)
    case None => (Err(ItemNotFound), l)
    case Some(k) =>
      if l.inventory[k].quantity < q then (Err(InsufficientQuantity), l)
      else
        (Ok(()), ShippingEnqueued(l.(inventory := DrainedIntended(l.inventory, k, q)), n, q))
  }

  /** shipItem as written: the first shipping node named `n` loses `q`
      units and is unlinked at zero; `rear` is never written. */
  function Ship(l: Ledger, n: string, q: int): (Result<()>, Ledger)
  {
    match FindFirst(l.shipping, n)
    case None => (Err(ItemNotFound), l)
    case Some(k) =>
      if l.shipping[k].quantity < q then (Err(InsufficientQuantity), l)
      else if l.shipping[k].quantity == q then
        (Ok(()), l.(shipping := RemoveAt(l.shipping, k), rear := Shifted(l.rear, k, k + 1)))
      else
        (Ok(()), l.(shipping := l.shipping[k := l.shipping[k].(quantity := l.shipping[k].quantity - q)]))
  }

  /** Where `rear` should point once node `k` is unlinked: at the node
      before it when it was the rear node (nullptr if there is none). */
  function RetargetedRear(rear: Ref, k: nat): Ref
  {
    if rear == At(k) then (if k == 0 then Null else At(k - 1)) else Shifted(rear, k, k + 1)
  }

  /** shipItem with `rear` moved back when the rear node is unlinked. */
  function ShipIntended(l: Ledger, n: string, q: int): (Result<()>, Ledger)
  {
    match FindFirst(l.shipping, n)
    case None => (Err(ItemNotFound), l)
    case Some(k) =>
      if l.shipping[k].quantity < q then (Err(InsufficientQuantity), l)
      else if l.shipping[k].quantity == q then
        (Ok(()), l.(shipping := RemoveAt(l.shipping, k), rear := RetargetedRear(l.rear, k)))
      else
        (Ok(()), l.(shipping := l.shipping[k := l.shipping[k].(quantity := l.shipping[k].quantity - q)]))
  }

  /** removeItem as written: one unit from the first inventory match, or
      else from the first shipping match; `rear` is never written. */
  function Remove(l: Ledger, n: string): (Result<Place>, Ledger)
  {
    match FindFirst(l.inventory, n)
    case Some(k) => (Ok(InInventory), l.(inventory := TakeUnit(l.inventory, k)))
    case None =>
      match FindFirst(l.shipping, n)
      case None => (Err(ItemNotFound), l)
      case Some(k) =>
        (Ok(InShipping), l.(shipping := TakeUnit(l.shipping, k),
                            rear := if l.shipping[k].quantity > 1 then l.rear else Shifted(l.rear, k, k + 1)))
  }

  /** removeItem with `rear` moved back when the rear node is unlinked. */
  function RemoveIntended(l: Ledger, n: string): (Result<Place>, Ledger)
  {
    match FindFirst(l.inventory, n)
    case Some(k) => (Ok(InInventory), l.(inventory := TakeUnit(l.inventory, k)))
    case None =>
      match FindFirst(l.shipping, n)
      case None => (Err(ItemNotFound), l)
      case Some(k) =>
        (Ok(InShipping), l.(shipping := TakeUnit(l.shipping, k),
                            rear := if l.shipping[k].quantity > 1 then l.rear else RetargetedRear(l.rear, k)))
  }

  /** The chain with its first node named `o` overwritten by (n, q). */
  function Renamed(s: seq<Item>, o: string, n: string, q: int): seq<Item>
  {
    match FindFirst(s, o)
    case None => s
    case Some(k) => s[k := Item(n, q)]
  }

  /** updateItem: both chains get their first `o` node overwritten; it
      fails only when neither has one. */
  function Update(l: Ledger, o: string, n: string, q: int): (Result<()>, Ledger)
  {
    var found := FindFirst(l.inventory, o).Some? || FindFirst(l.shipping, o).Some?;
    (if found then Ok(()) else Err(ItemNotFound),
     l.(inventory := Renamed(l.inventory, o, n, q), shipping := Renamed(l.shipping, o, n, q)))
  }

  /** searchItem: the first inventory match, else the first shipping match. */
  function Search(l: Ledger, n: string): (r: Result<Found>)
    ensures r.Err? <==> n !in Names(l.inventory) && n !in Names(l.shipping)
    ensures r.Err? ==> r.error == ItemNotFound
    ensures r.Ok? ==> (r.value.place == InInventory <==> n in Names(l.inventory))
    ensures r.Ok? && r.value.place == InInventory ==>
      exists i :: FirstMatch(l.inventory, n, i) && r.value.quantity == l.inventory[i].quantity
    ensures r.Ok? && r.value.place == InShipping ==>
      exists i :: FirstMatch(l.shipping, n, i) && r.value.quantity == l.shipping[i].quantity
  {
    match FindFirst(l.inventory, n)
    case Some(k) =>
      assert FirstMatch(l.inventory, n, k) && l.inventory[k].name == Names(l.inventory)[k];
      Ok(Found(InInventory, l.inventory[k].quantity))
    case None =>
      match FindFirst(l.shipping, n)
      case Some(k) =>
        assert FirstMatch(l.shipping, n, k) && l.shipping[k].name == Names(l.shipping)[k];
        Ok(Found(InShipping, l.shipping[k].quantity))
      case None => Err(ItemNotFound)
  }
}
