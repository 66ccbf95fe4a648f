/** InventoryStack: the LIFO chain of incoming items, `top` first. */
module Stack {
  import opened Items

  /** The chain after push(n, q): a top node of the same name absorbs the
      quantity, otherwise a new node goes on top. */
  function Pushed(s: seq<Item>, n: string, q: int): seq<Item>
  {
    if s != [] && s[0].name == n then s[0 := s[0].(quantity := s[0].quantity + q)]
    else [Item(n, q)] + s
  }

  /** The chain after pop() on a non-empty stack. */
  function Popped(s: seq<Item>): seq<Item>
    requires s != []
  {
    TakeUnit(s, 0)
  }

  /** Push merges into the top node only: a node further down with the same
      name is never touched, and then a new node is stacked above it. */
  lemma PushProperties(s: seq<Item>, n: string, q: int)
    requires AllPositive(s) && q > 0
    ensures AllPositive(Pushed(s, n, q))
    ensures Total(Pushed(s, n, q)) == Total(s) + q
    ensures Pushed(s, n, q)[0].name == n
    ensures s != [] && s[0].name == n ==>
      |Pushed(s, n, q)| == |s| && Pushed(s, n, q)[1..] == s[1..]
    ensures s == [] || s[0].name != n ==>
      |Pushed(s, n, q)| == |s| + 1 && Pushed(s, n, q)[1..] == s
  {
    if s != [] && s[0].name == n {
      TotalUpdate(s, 0, s[0].(quantity := s[0].quantity + q));
    } else {
      assert ([Item(n, q)] + s)[1..] == s;
    }
  }

  /** LIFO: pushing one unit and popping one unit gives back the stack. */
  lemma PopAfterPush(s: seq<Item>, n: string)
    requires AllPositive(s)
    ensures Popped(Pushed(s, n, 1)) == s
  {
    if s != [] && s[0].name == n {
      assert Pushed(s, n, 1)[0].quantity > 1;
    } else {
      assert RemoveAt([Item(n, 1)] + s, 0) == s;
    }
  }

  /** Pop takes exactly one unit off the top node, which is also why the
      destructor's pop loop ends. */
  lemma PopProperties(s: seq<Item>)
    requires s != [] && AllPositive(s)
    ensures Total(Popped(s)) == Total(s) - 1 && AllPositive(Popped(s))
    ensures s[0].quantity > 1 ==> |Popped(s)| == |s| && Popped(s)[0].quantity == s[0].quantity - 1
    ensures s[0].quantity == 1 ==> Popped(s) == s[1..]
  {
    TotalTakeUnit(s, 0);
  }

  class InventoryStack {
    /** The chain hanging from `top`; `[]` when top is nullptr. */
    var items: seq<Item>

    ghost predicate Valid()
      reads this
    {
      AllPositive(items)
    }

    constructor ()
      ensures Valid() && items == []
    {
      items := [];
    }

    method IsEmpty() returns (b: bool)
      ensures b <==> items == []
    {
      b := items == [];
    }

    method Push(n: string, q: int)
      requires Valid() && q > 0
      modifies this
      ensures Valid() && items == Pushed(old(items), n, q)
    {
      PushProperties(items, n, q);
      var empty := IsEmpty();
      if !empty && items[0].name == n {
        items := items[0 := items[0].(quantity := items[0].quantity + q)];
        return;
      }
      var node := Item(n, q);
      items := [node] + items;
    }

    method Pop() returns (r: Result<string>)
      requires Valid()
      modifies this
      ensures Valid()
      ensures old(items) == [] ==> r == Err(EmptyContainer) && items == old(items)
      ensures old(items) != [] ==> r == Ok(old(items)[0].name) && items == Popped(old(items))
    {
      var empty := IsEmpty();
      if empty {
        r := Err(EmptyContainer);
        return;
      }
      PopProperties(items);
      var name := items[0].name;
      if items[0].quantity > 1 {
        items := items[0 := items[0].(quantity := items[0].quantity - 1)];
      } else {
        items := items[1..];
      }
      r := Ok(name);
    }

    method Peek() returns (r: Result<string>)
      ensures items == [] ==> r == Err(EmptyContainer)
      ensures items != [] ==> r == Ok(items[0].name)
    {
      var empty := IsEmpty();
      if empty {
        r := Err(EmptyContainer);
      } else {
        r := Ok(items[0].name);
      }
    }

    /** setTop(node) where `node` is the node at position `i` (position
        |items| stands for nullptr): the nodes above it leave the chain. */
    method SetTop(i: nat)
      requires i <= |items|
      modifies this
      ensures items == old(items)[i..]
    {
      items := items[i..];
    }

    /** `prev->next = cur->next` with `prev` at position `prev` and `cur`
        right after it: only `cur` leaves the chain. */
    method UnlinkAfter(prev: nat)
      requires prev + 1 < |items|
      modifies this
      ensures items == RemoveAt(old(items), prev + 1)
    {
      items := items[..prev + 1] + items[prev + 2..];
    }

    /** removeItem's step on the node at position `k`, whose predecessor
        is `prev`: one unit less, or the node leaves the chain through
        setTop when `prev` is nullptr and through `prev->next` otherwise. */
    method TakeUnitAt(k: nat)
      requires Valid() && k < |items|
      modifies this
      ensures Valid()
      ensures items == TakeUnit(old(items), k)
    {
      if items[k].quantity > 1 {
        items := items[k := items[k].(quantity := items[k].quantity - 1)];
      } else if k == 0 {
        SetTop(k + 1);
        assert items == RemoveAt(old(items), 0);
      } else {
        UnlinkAfter(k - 1);
      }
      TotalTakeUnit(old(items), k);
    }

    /** processItem's step on the node at position `k`: it gives `q` units,
        and at zero the top is set to the node below it, whatever lies
        above. */
    method DrainAt(k: nat, q: int)
      requires Valid() && k < |items| && 0 < q <= items[k].quantity
      modifies this
      ensures Valid()
      ensures items == Drained(old(items), k, q)
    {
      var left := items[k].quantity - q;
      items := items[k := items[k].(quantity := left)];
      if left == 0 {
        assert items[k + 1..] == old(items)[k + 1..];
        SetTop(k + 1);
      }
    }

    /** The destructor: pop until empty. */
    method Dispose()
      requires Valid()
      modifies this
      ensures Valid() && items == []
    {
      var empty := IsEmpty();
      while !empty
        invariant Valid() && (empty <==> items == [])
        decreases Total(items)
      {
        TotalNonNegative(items);
        PopProperties(items);
        var _ := Pop();
        empty := IsEmpty();
      }
    }
  }
}
