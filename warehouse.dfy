/** WarehouseSystem: one inventory stack and one shipping queue, and the
    operations that walk and splice their chains directly.  Each method is
    proved to have exactly the effect its Ledgers function describes. */
module Warehouse {
  import opened Items
  import opened Stack
  import opened Queue
  import opened Ledgers
  import opened LedgerProperties
  import opened Persistence

  /** processItem once its cursor has stopped at node `k` holding enough:
      the resulting state, and that it keeps the invariant. */
  lemma ProcessMatch(l: Ledger, n: string, q: int, k: nat)
    requires ValidLedger(l) && CanEnqueue(l) && q > 0
    requires FindFirst(l.inventory, n) == Some(k) && l.inventory[k].quantity >= q
    ensures Process(l, n, q) == (Ok(()), ShippingEnqueued(l.(inventory := Drained(l.inventory, k, q)), n, q))
    ensures ValidLedger(Process(l, n, q).1) && CanEnqueue(Process(l, n, q).1)
  {
    ProcessProperties(l, n, q);
  }

  class WarehouseSystem {
    const inventory: InventoryStack
    const shipping: ShippingQueue

    ghost predicate Valid()
      reads this, inventory, shipping
    {
      && inventory.Valid() && shipping.Valid()
      && inventory as object != shipping as object
    }

    /** The state of both containers as a value. */
    ghost function State(): Ledger
      reads this, inventory, shipping
    {
      Ledger(inventory.items, shipping.items, shipping.rear)
    }

    constructor ()
      ensures Valid() && State() == Empty
      ensures fresh(inventory) && fresh(shipping)
    {
      inventory := new InventoryStack();
      shipping := new ShippingQueue();
    }

    method AddItem(n: string, q: int)
      requires Valid() && q > 0
      modifies inventory
      ensures Valid()
      ensures State() == old(State()).(inventory := Pushed(old(inventory.items), n, q))
    {
      inventory.Push(n, q);
    }

    /** Only the successful path reaches enqueue, which dereferences
        `rear`: the failures need no live `rear`. */
    method ProcessItem(n: string, q: int) returns (r: Result<()>)
      requires Valid() && q > 0
      requires shipping.RearIsLast() || Process(State(), n, q).0.Err?
      modifies inventory, shipping
      ensures Valid()
      ensures shipping.RearIsLast() <==> r.Ok? || old(shipping.RearIsLast())
      ensures (r, State()) == Process(old(State()), n, q)
    {
      var found := Locate(inventory.items, n);
      if found.None? {
        return Err(ItemNotFound);
      }
      var cur := found.value;
      if inventory.items[cur].quantity < q {
        return Err(InsufficientQuantity);
      }
      assert shipping.RearIsLast();
      ProcessMatch(State(), n, q, cur);
      inventory.DrainAt(cur, q);
      shipping.Enqueue(n, q);
      r := Ok(());
    }

    method ShipItem(n: string, q: int) returns (r: Result<()>)
      requires Valid() && q > 0
      modifies shipping
      ensures Valid()
      ensures (r, State()) == Ship(old(State()), n, q)
    {
      var found := Locate(shipping.items, n);
      if found.None? {
        return Err(ItemNotFound);
      }
      if shipping.items[found.value].quantity < q {
        return Err(InsufficientQuantity);
      }
      shipping.Withdraw(found.value, q);
      r := Ok(());
    }

    method SearchItem(n: string) returns (r: Result<Found>)
      ensures r == Search(State(), n)
    {
      var found := Locate(inventory.items, n);
      if found.Some? {
        return Ok(Found(InInventory, inventory.items[found.value].quantity));
      }
      found := Locate(shipping.items, n);
      if found.Some? {
        return Ok(Found(InShipping, shipping.items[found.value].quantity));
      }
      r := Err(ItemNotFound);
    }

    method RemoveItem(n: string) returns (r: Result<Place>)
      requires Valid()
      modifies inventory, shipping
      ensures Valid()
      ensures (r, State()) == Remove(old(State()), n)
    {
      var found := Locate(inventory.items, n);
      if found.Some? {
        inventory.TakeUnitAt(found.value);
        return Ok(InInventory);
      }
      found := Locate(shipping.items, n);
      if found.None? {
        return Err(ItemNotFound);
      }
      shipping.TakeUnitAt(found.value);
      r := Ok(InShipping);
    }

    method CountItems() returns (count: int)
      ensures count == Count(State())
    {
      count := 0;
      var cur := 0;
      while cur < |inventory.items|
        invariant cur <= |inventory.items|
        invariant count == Total(inventory.items[..cur])
      {
        TotalPrefix(inventory.items, cur);
        count := count + inventory.items[cur].quantity;
        cur := cur + 1;
      }
      assert inventory.items[..cur] == inventory.items;
      cur := 0;
      while cur < |shipping.items|
        invariant cur <= |shipping.items|
        invariant count == Total(inventory.items) + Total(shipping.items[..cur])
      {
        TotalPrefix(shipping.items, cur);
        count := count + shipping.items[cur].quantity;
        cur := cur + 1;
      }
      assert shipping.items[..cur] == shipping.items;
    }

    method UpdateItem(o: string, n: string, q: int) returns (r: Result<()>)
      requires Valid() && q > 0
      modifies inventory, shipping
      ensures Valid()
      ensures (r, State()) == Update(old(State()), o, n, q)
    {
      ghost var l := State();
      var inInventory := Locate(inventory.items, o);
      if inInventory.Some? {
        inventory.items := inventory.items[inInventory.value := Item(n, q)];
      }
      var inShipping := Locate(shipping.items, o);
      if inShipping.Some? {
        shipping.items := shipping.items[inShipping.value := Item(n, q)];
      }
      r := if inInventory.Some? || inShipping.Some? then Ok(()) else Err(ItemNotFound);
      assert ValidLedger(State()) by {
        UpdateProperties(l, o, n, q);
      }
    }

    method SaveLines() returns (lines: seq<string>)
      ensures lines == Save(State())
    {
      lines := [InventoryMarker];
      var empty := inventory.IsEmpty();
      if empty {
        lines := lines + [InventoryEmpty];
      } else {
        var cur := 0;
        while cur < |inventory.items|
          invariant cur <= |inventory.items|
          invariant lines == [InventoryMarker] + Names(inventory.items[..cur])
        {
          assert Names(inventory.items[..cur + 1]) == Names(inventory.items[..cur]) + [inventory.items[cur].name];
          lines := lines + [inventory.items[cur].name];
          cur := cur + 1;
        }
        assert inventory.items[..cur] == inventory.items;
      }
      ghost var head := lines;
      lines := lines + [ShippingMarker];
      empty := shipping.IsEmpty();
      if empty {
        lines := lines + [ShippingEmpty];
      } else {
        var cur := 0;
        while cur < |shipping.items|
          invariant cur <= |shipping.items|
          invariant lines == head + [ShippingMarker] + Names(shipping.items[..cur])
        {
          assert Names(shipping.items[..cur + 1]) == Names(shipping.items[..cur]) + [shipping.items[cur].name];
          lines := lines + [shipping.items[cur].name];
          cur := cur + 1;
        }
        assert shipping.items[..cur] == shipping.items;
      }
    }

    method LoadFromLines(lines: seq<string>)
      requires Valid() && shipping.RearIsLast()
      modifies inventory, shipping
      ensures Valid() && shipping.RearIsLast()
      ensures State() == LoadInto(lines, false, false, old(State()))
    {
      var loadingInventory := false;
      var loadingShipping := false;
      var i := 0;
      while i < |lines|
        invariant i <= |lines|
        invariant Valid() && shipping.RearIsLast()
        invariant LoadInto(lines[i..], loadingInventory, loadingShipping, State())
               == LoadInto(lines, false, false, old(State()))
      {
        var line := lines[i];
        assert lines[i..][0] == line && lines[i..][1..] == lines[i + 1..];
        if Contains(line, InventoryMarker) {
          loadingInventory, loadingShipping := true, false;
          i := i + 1;
          continue;
        }
        if Contains(line, ShippingMarker) {
          loadingInventory, loadingShipping := false, true;
          i := i + 1;
          continue;
        }
        if loadingInventory && line != InventoryEmpty {
          inventory.Push(line, 1);
        }
        if loadingShipping && line != ShippingEmpty {
          shipping.Enqueue(line, 1);
        }
        i := i + 1;
      }
      assert lines[i..] == [];
    }
  }
}
