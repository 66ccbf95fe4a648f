/** The payload of an ItemNode, the failure kinds of the ledger, and the
    facts about node chains that both containers share.  A chain of nodes
    is a `seq<Item>` read from the first node (top of the stack, front of
    the queue) along the `next` links. */
module Items {

  /** One node's data: its itemName and its quantity (a C++ int, here
      unbounded). */
  datatype Item = Item(name: string, quantity: int)

  /** The three conditions the ledger reports instead of throwing. */
  datatype Error = EmptyContainer | ItemNotFound | InsufficientQuantity

  datatype Result<T> = Ok(value: T) | Err(error: Error)

  datatype Option<T> = None | Some(value: T)

  /** Every node in the chain holds at least one unit. */
  predicate AllPositive(s: seq<Item>)
  {
    forall i :: 0 <= i < |s| ==> s[i].quantity >= 1
  }

  /** Sum of the quantities along a chain. */
  function Total(s: seq<Item>): int
  {
    if s == [] then 0 else s[0].quantity + Total(s[1..])
  }

  /** The item names along a chain, first node first. */
  function Names(s: seq<Item>): seq<string>
  {
    seq(|s|, i requires 0 <= i < |s| => s[i].name)
  }

  function Reverse<T>(s: seq<T>): seq<T>
  {
    seq(|s|, i requires 0 <= i < |s| => s[|s| - 1 - i])
  }

  /** The position of the first node named `n`, walking the chain from its
      first node as every `while (cur != nullptr)` search does. */
  function FindFirst(s: seq<Item>, n: string): (r: Option<nat>)
    ensures r.Some? ==> r.value < |s| && s[r.value].name == n
    ensures r.Some? ==> forall j :: 0 <= j < r.value ==> s[j].name != n
    ensures r.None? <==> forall j :: 0 <= j < |s| ==> s[j].name != n
  {
    if s == [] then None
    else if s[0].name == n then Some(0)
    else match FindFirst(s[1..], n)
      case None => None
      case Some(k) => Some(k + 1)
  }

  /** The cursor walk every search over a chain performs: start at the
      first node and follow the links until a node carries the name or the
      chain ends. */
  method Locate(s: seq<Item>, n: string) returns (r: Option<nat>)
    ensures r == FindFirst(s, n)
  {
    var cur := 0;
    while cur < |s| && s[cur].name != n
      invariant cur <= |s|
      invariant forall j :: 0 <= j < cur ==> s[j].name != n
    {
      cur := cur + 1;
    }
    r := if cur == |s| then None else Some(cur);
  }

  /** The chain with node `k` unlinked and every other node kept in order. */
  function RemoveAt(s: seq<Item>, k: nat): seq<Item>
    requires k < |s|
  {
    s[..k] + s[k + 1..]
  }

  /** The inventory chain once node `k` has given `q` units, as
      processItem leaves it: at zero the stack is reset to the nodes below
      `k` (`setTop(cur->next)`). */
  function Drained(s: seq<Item>, k: nat, q: int): seq<Item>
    requires k < |s|
  {
    var left := s[k].quantity - q;
    if left == 0 then s[k + 1..] else s[k := s[k].(quantity := left)]
  }

  /** The same, with node `k` unlinked from its predecessor at zero. */
  function DrainedIntended(s: seq<Item>, k: nat, q: int): seq<Item>
    requires k < |s|
  {
    var left := s[k].quantity - q;
    if left == 0 then RemoveAt(s, k) else s[k := s[k].(quantity := left)]
  }

  /** One unit taken from node `k`: its quantity drops by one when it is
      above 1, otherwise the node is unlinked. */
  function TakeUnit(s: seq<Item>, k: nat): seq<Item>
    requires k < |s|
  {
    if s[k].quantity > 1 then s[k := s[k].(quantity := s[k].quantity - 1)]
    else RemoveAt(s, k)
  }

  lemma AllPositiveRemoveAt(s: seq<Item>, k: nat)
    requires AllPositive(s) && k < |s|
    ensures AllPositive(RemoveAt(s, k))
  {
    var r := RemoveAt(s, k);
    forall i | 0 <= i < |r| ensures r[i].quantity >= 1 {
      if i < k { assert r[i] == s[i]; } else { assert r[i] == s[i + 1]; }
    }
  }

  lemma {:induction false} TotalAppend(a: seq<Item>, b: seq<Item>)
    ensures Total(a + b) == Total(a) + Total(b)
  {
    if a != [] {
      assert (a + b)[1..] == a[1..] + b;
      TotalAppend(a[1..], b);
    } else {
      assert a + b == b;
    }
  }

  lemma {:induction false} TotalNonNegative(s: seq<Item>)
    requires AllPositive(s)
    ensures Total(s) >= |s|
  {
    if s != [] {
      TotalNonNegative(s[1..]);
    }
  }

  /** The total of a chain counts node `k` once: replacing that node changes
      the total by the difference of the two quantities. */
  lemma {:induction false} TotalUpdate(s: seq<Item>, k: nat, it: Item)
    requires k < |s|
    ensures Total(s[k := it]) == Total(s) - s[k].quantity + it.quantity
  {
    if k == 0 {
      assert s[k := it][1..] == s[1..];
    } else {
      assert s[k := it][1..] == s[1..][k - 1 := it];
      TotalUpdate(s[1..], k - 1, it);
    }
  }

  lemma {:induction false} TotalRemoveAt(s: seq<Item>, k: nat)
    requires k < |s|
    ensures Total(RemoveAt(s, k)) == Total(s) - s[k].quantity
  {
    var r := RemoveAt(s, k);
    if k == 0 {
      assert r == s[1..];
    } else {
      assert r[0] == s[0] && r[1..] == RemoveAt(s[1..], k - 1);
      TotalRemoveAt(s[1..], k - 1);
    }
  }

  lemma TotalPrefix(s: seq<Item>, i: nat)
    requires i < |s|
    ensures Total(s[..i + 1]) == Total(s[..i]) + s[i].quantity
  {
    assert s[..i + 1] == s[..i] + [s[i]];
    TotalAppend(s[..i], [s[i]]);
  }

  /** Taking one unit from a node of a chain of positive quantities lowers
      the total by exactly one and leaves every node positive. */
  lemma TotalTakeUnit(s: seq<Item>, k: nat)
    requires k < |s| && AllPositive(s)
    ensures Total(TakeUnit(s, k)) == Total(s) - 1
    ensures AllPositive(TakeUnit(s, k))
  {
    if s[k].quantity > 1 {
      TotalUpdate(s, k, s[k].(quantity := s[k].quantity - 1));
    } else {
      TotalRemoveAt(s, k);
      var r := RemoveAt(s, k);
      forall i | 0 <= i < |r| ensures r[i].quantity >= 1 {
        if i < k { assert r[i] == s[i]; } else { assert r[i] == s[i + 1]; }
      }
    }
  }
}
