/** ShippingQueue: the FIFO chain of outgoing items, `front` first, with an
    explicit `rear` pointer. */
module Queue {
  import opened Items

  /** A node pointer seen through the chain: nullptr, the node at a
      position of the chain, or a node that has left the chain (deleted, so
      the pointer dangles). */
  datatype Ref = Null | At(index: nat) | Dangling

  /** Where a pointer points once the nodes at positions lo..hi-1 have left
      the chain: it keeps its node, which moves up by hi - lo places, or it
      dangles if its node was one of those that left. */
  function Shifted(r: Ref, lo: nat, hi: nat): Ref
    requires lo <= hi
  {
    match r
    case At(j) => if j < lo then r else if j < hi then Dangling else At(j - (hi - lo))
    case _ => r
  }

  /** What every path of the source keeps true of `rear`: it points at the
      last node, or dangles, and it is nullptr only on an empty queue. */
  predicate RearShape(s: seq<Item>, rear: Ref)
  {
    (rear.At? ==> rear.index + 1 == |s|) && (rear == Null ==> s == [])
  }

  /** What enqueue needs of `rear`: on a non-empty queue it is the last node. */
  predicate RearLive(s: seq<Item>, rear: Ref)
  {
    s != [] ==> rear == At(|s| - 1)
  }

  /** The chain after enqueue(n, q) when `rear` is the last node: a rear
      node of the same name absorbs the quantity, otherwise a new node goes
      behind it. */
  function Enqueued(s: seq<Item>, n: string, q: int): seq<Item>
  {
    if s != [] && s[|s| - 1].name == n then s[|s| - 1 := s[|s| - 1].(quantity := s[|s| - 1].quantity + q)]
    else s + [Item(n, q)]
  }

  /** The chain after dequeue() on a non-empty queue. */
  function Dequeued(s: seq<Item>): seq<Item>
    requires s != []
  {
    TakeUnit(s, 0)
  }

  /** Enqueue merges into the rear node only, and the front is unchanged
      unless the queue was empty. */
  lemma EnqueueProperties(s: seq<Item>, n: string, q: int)
    requires AllPositive(s) && q > 0
    ensures AllPositive(Enqueued(s, n, q))
    ensures Total(Enqueued(s, n, q)) == Total(s) + q
    ensures Enqueued(s, n, q)[|Enqueued(s, n, q)| - 1].name == n
    ensures s != [] && s[|s| - 1].name == n ==>
      |Enqueued(s, n, q)| == |s| && Enqueued(s, n, q)[..|s| - 1] == s[..|s| - 1]
    ensures s == [] || s[|s| - 1].name != n ==>
      Enqueued(s, n, q) == s + [Item(n, q)]
    ensures s != [] ==> Enqueued(s, n, q)[0].name == s[0].name
  {
    if s != [] && s[|s| - 1].name == n {
      TotalUpdate(s, |s| - 1, s[|s| - 1].(quantity := s[|s| - 1].quantity + q));
    } else {
      TotalAppend(s, [Item(n, q)]);
    }
  }

  /** Dequeue takes exactly one unit off the front node. */
  lemma DequeueProperties(s: seq<Item>)
    requires s != [] && AllPositive(s)
    ensures Total(Dequeued(s)) == Total(s) - 1 && AllPositive(Dequeued(s))
    ensures s[0].quantity > 1 ==> |Dequeued(s)| == |s| && Dequeued(s)[0].quantity == s[0].quantity - 1
    ensures s[0].quantity == 1 ==> Dequeued(s) == s[1..]
  {
    TotalTakeUnit(s, 0);
  }

  /** FIFO: what is enqueued at the rear does not change what is dequeued
      at the front. */
  lemma {:induction false} DequeueEnqueueCommute(s: seq<Item>, n: string, q: int)
    requires s != [] && AllPositive(s) && q > 0
    ensures Dequeued(Enqueued(s, n, q)) == Enqueued(Dequeued(s), n, q)
  {
    var e := Enqueued(s, n, q);
    if s[0].quantity > 1 {
      assert e[0].quantity > 1;
      assert Dequeued(e) == Enqueued(Dequeued(s), n, q);
    } else if |s| == 1 {
      if s[0].name == n {
        assert e == [Item(n, 1 + q)];
      } else {
        assert e == [s[0], Item(n, q)];
        assert Dequeued(e) == [Item(n, q)];
      }
    } else {
      assert e[0] == s[0];
      assert Dequeued(e) == e[1..];
      assert Dequeued(s) == s[1..];
    }
  }

  class ShippingQueue {
    /** The chain hanging from `front`; `[]` when front is nullptr. */
    var items: seq<Item>
    var rear: Ref

    ghost predicate Valid()
      reads this
    {
      AllPositive(items) && RearShape(items, rear)
    }

    /** True when `rear` may be dereferenced by enqueue. */
    predicate RearIsLast()
      reads this
    {
      RearLive(items, rear)
    }

    constructor ()
      ensures Valid() && items == [] && rear == Null
    {
      items := [];
      rear := Null;
    }

    method IsEmpty() returns (b: bool)
      ensures b <==> items == []
    {
      b := items == [];
    }

    method Enqueue(n: string, q: int)
      requires Valid() && RearIsLast() && q > 0
      modifies this
      ensures Valid() && RearIsLast()
      ensures items == Enqueued(old(items), n, q) && rear == At(|items| - 1)
    {
      EnqueueProperties(items, n, q);
      var empty := IsEmpty();
      if !empty && items[rear.index].name == n {
        items := items[rear.index := items[rear.index].(quantity := items[rear.index].quantity + q)];
        return;
      }
      var node := Item(n, q);
      if empty {
        items, rear := [node], At(0);
      } else {
        items := items + [node];
        rear := At(rear.index + 1);
      }
    }

    method Dequeue() returns (r: Result<string>)
      requires Valid()
      modifies this
      ensures Valid()
      ensures old(items) == [] ==> r == Err(EmptyContainer) && items == old(items) && rear == old(rear)
      ensures old(items) != [] ==> r == Ok(old(items)[0].name) && items == Dequeued(old(items))
      ensures old(items) != [] && old(items)[0].quantity > 1 ==> rear == old(rear)
      ensures old(items) != [] && old(items)[0].quantity == 1 ==>
        rear == if items == [] then Null else Shifted(old(rear), 0, 1)
    {
      var empty := IsEmpty();
      if empty {
        r := Err(EmptyContainer);
        return;
      }
      DequeueProperties(items);
      var name := items[0].name;
      if items[0].quantity > 1 {
        items := items[0 := items[0].(quantity := items[0].quantity - 1)];
      } else {
        items, rear := items[1..], Shifted(rear, 0, 1);
        if items == [] {
          rear := Null;
        }
      }
      r := Ok(name);
    }

    method Peek() returns (r: Result<string>)
      ensures items == [] ==> r == Err(EmptyContainer)
      ensures items != [] ==> r == Ok(items[0].name)
    {
      var empty := IsEmpty();
      if empty {
        r := Err(EmptyContainer);
      } else {
        r := Ok(items[0].name);
      }
    }

    /** setFront(node) where `node` is the node at position `i` (position
        |items| stands for nullptr).  `rear` is not written: it keeps
        pointing at its node, which is why its position moves. */
    method SetFront(i: nat)
      requires i <= |items|
      modifies this
      ensures items == old(items)[i..] && rear == Shifted(old(rear), 0, i)
    {
      items, rear := items[i..], Shifted(rear, 0, i);
    }

    /** `prev->next = cur->next` with `prev` at position `prev`: only `cur`
        leaves the chain; `rear` keeps pointing at its node. */
    method UnlinkAfter(prev: nat)
      requires prev + 1 < |items|
      modifies this
      ensures items == RemoveAt(old(items), prev + 1)
      ensures rear == Shifted(old(rear), prev + 1, prev + 2)
    {
      items := items[..prev + 1] + items[prev + 2..];
      rear := Shifted(rear, prev + 1, prev + 2);
    }

    /** shipItem's step on the node at position `k`: `q` units less, and
        at zero the node leaves the chain through setFront when `prev` is
        nullptr and through `prev->next` otherwise; `rear` is not written. */
    method Withdraw(k: nat, q: int)
      requires Valid() && k < |items| && 0 < q <= items[k].quantity
      modifies this
      ensures Valid()
      ensures old(items)[k].quantity == q ==>
        items == RemoveAt(old(items), k) && rear == Shifted(old(rear), k, k + 1)
      ensures old(items)[k].quantity > q ==>
        items == old(items)[k := old(items)[k].(quantity := old(items)[k].quantity - q)] && rear == old(rear)
    {
      items := items[k := items[k].(quantity := items[k].quantity - q)];
      if items[k].quantity == 0 {
        assert RemoveAt(items, k) == RemoveAt(old(items), k);
        if k == 0 {
          SetFront(k + 1);
          assert items == RemoveAt(old(items), 0);
        } else {
          UnlinkAfter(k - 1);
        }
        AllPositiveRemoveAt(old(items), k);
      }
    }

    /** removeItem's step on the node at position `k`: one unit less, or the
        node leaves the chain as in Withdraw; `rear` is not written. */
    method TakeUnitAt(k: nat)
      requires Valid() && k < |items|
      modifies this
      ensures Valid()
      ensures items == TakeUnit(old(items), k)
      ensures rear == if old(items)[k].quantity > 1 then old(rear) else Shifted(old(rear), k, k + 1)
    {
      if items[k].quantity > 1 {
        items := items[k := items[k].(quantity := items[k].quantity - 1)];
      } else if k == 0 {
        SetFront(k + 1);
        assert items == RemoveAt(old(items), 0);
      } else {
        UnlinkAfter(k - 1);
      }
      TotalTakeUnit(old(items), k);
    }

    /** The destructor: dequeue until empty. */
    method Dispose()
      requires Valid()
      modifies this
      ensures Valid() && items == []
      ensures old(items) != [] ==> rear == Null
    {
      var empty := IsEmpty();
      while !empty
        invariant Valid() && (empty <==> items == [])
        invariant empty && old(items) != [] ==> rear == Null
        decreases Total(items)
      {
        TotalNonNegative(items);
        DequeueProperties(items);
        var _ := Dequeue();
        empty := IsEmpty();
      }
    }
  }
}
