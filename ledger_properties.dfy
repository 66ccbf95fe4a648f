/** What the WarehouseSystem operations promise, proved about their effects
    in module Ledgers, and the two places where the code as written breaks
    the ledger: processItem's unlink and the stale `rear` pointer. */
module LedgerProperties {
  import opened Items
  import opened Queue
  import opened Ledgers

  lemma AllPositiveSuffix(s: seq<Item>, i: nat)
    requires AllPositive(s) && i <= |s|
    ensures AllPositive(s[i..])
  {
    assert forall j :: 0 <= j < |s[i..]| ==> s[i..][j] == s[i + j];
  }

  lemma NamesMember(s: seq<Item>, n: string)
    ensures n in Names(s) <==> exists i :: 0 <= i < |s| && s[i].name == n
  {
    if n in Names(s) {
      var i :| 0 <= i < |Names(s)| && Names(s)[i] == n;
      assert s[i].name == n;
    }
    if exists i :: 0 <= i < |s| && s[i].name == n {
      var i :| 0 <= i < |s| && s[i].name == n;
      assert Names(s)[i] == n;
    }
  }

  /** A total split at position k: the nodes above, the node, the rest. */
  lemma TotalSplit(s: seq<Item>, k: nat)
    requires k < |s|
    ensures Total(s) == Total(s[..k]) + s[k].quantity + Total(s[k + 1..])
  {
    assert s == s[..k] + ([s[k]] + s[k + 1..]);
    TotalAppend(s[..k], [s[k]] + s[k + 1..]);
    assert ([s[k]] + s[k + 1..])[1..] == s[k + 1..];
  }

  /** Enqueue at the ledger level keeps the shipping side of the invariant
      and leaves `rear` on the last node, whatever the inventory holds. */
  lemma ShippingEnqueuedValid(l: Ledger, n: string, q: int)
    requires AllPositive(l.inventory) && AllPositive(l.shipping) && q > 0
    ensures var after := ShippingEnqueued(l, n, q);
      && ValidLedger(after) && CanEnqueue(after)
      && after.inventory == l.inventory
      && Total(after.shipping) == Total(l.shipping) + q
  {
    EnqueueProperties(l.shipping, n, q);
  }

  /** processItem fails without touching either container when the name is
      missing or its first node is short, whatever `rear` holds.  With
      `rear` on the last node, a success gives the shipping queue exactly
      what enqueue(n, q) gives and leaves `rear` on the new last node. */
  lemma ProcessProperties(l: Ledger, n: string, q: int)
    requires ValidLedger(l) && q > 0
    ensures var (r, after) := Process(l, n, q);
      && (r == Err(ItemNotFound) <==> n !in Names(l.inventory))
      && (r == Err(InsufficientQuantity) <==>
            exists k :: FirstMatch(l.inventory, n, k) && l.inventory[k].quantity < q)
      && (r.Err? ==> after == l)
      && (CanEnqueue(l) ==> ValidLedger(after) && CanEnqueue(after))
      && (CanEnqueue(l) && r.Ok? ==> after.shipping == Enqueued(l.shipping, n, q))
      && (CanEnqueue(l) && r.Ok? ==> Total(after.shipping) == Total(l.shipping) + q)
  {
    NamesMember(l.inventory, n);
    match FindFirst(l.inventory, n)
    case None =>
    case Some(k) =>
      assert FirstMatch(l.inventory, n, k);
      assert forall j :: FirstMatch(l.inventory, n, j) ==> j == k;
      if l.inventory[k].quantity >= q {
        var inv := Drained(l.inventory, k, q);
        if l.inventory[k].quantity == q {
          AllPositiveSuffix(l.inventory, k + 1);
        }
        assert AllPositive(inv);
        assert Process(l, n, q).1 == ShippingEnqueued(l.(inventory := inv), n, q);
        ShippingEnqueuedValid(l.(inventory := inv), n, q);
      }
  }

  /** When the processed node is the top, or keeps some units, processItem
      only moves units: countItems is unchanged. */
  lemma ProcessKeepsCount(l: Ledger, n: string, q: int, k: nat)
    requires ValidLedger(l) && q > 0
    requires FindFirst(l.inventory, n) == Some(k)
    requires k == 0 || l.inventory[k].quantity > q
    ensures var (r, after) := Process(l, n, q);
      r.Ok? || r == Err(InsufficientQuantity)
    ensures Count(Process(l, n, q).1) == Count(l)
  {
    var (r, after) := Process(l, n, q);
    if r.Ok? {
      EnqueueProperties(l.shipping, n, q);
      var left := l.inventory[k].quantity - q;
      if left == 0 {
        TotalSplit(l.inventory, 0);
      } else {
        TotalUpdate(l.inventory, k, l.inventory[k].(quantity := left));
      }
    }
  }

  /** The defect at processItem's `setTop(cur->next)`: when a node below the
      top runs out, every node above it leaves the stack too, and their
      units vanish from countItems. */
  lemma ProcessDropsNodesAbove(l: Ledger, n: string, q: int, k: nat)
    requires ValidLedger(l) && q > 0
    requires FindFirst(l.inventory, n) == Some(k) && l.inventory[k].quantity == q
    ensures Process(l, n, q).0 == Ok(())
    ensures Process(l, n, q).1.inventory == l.inventory[k + 1..]
    ensures Count(Process(l, n, q).1) == Count(l) - Total(l.inventory[..k])
    ensures k > 0 ==> Count(Process(l, n, q).1) < Count(l)
  {
    EnqueueProperties(l.shipping, n, q);
    TotalSplit(l.inventory, k);
    TotalNonNegative(l.inventory[..k]);
  }

  /** A concrete case: processing all of the bottom node also throws away
      the "bolts" above it. */
  lemma ProcessDropsBoltsExample()
    ensures var l := Ledger([Item("bolts", 3), Item("nuts", 2)], [], Null);
      Process(l, "nuts", 2).1 == Ledger([], [Item("nuts", 2)], At(0))
  {
    var l := Ledger([Item("bolts", 3), Item("nuts", 2)], [], Null);
    assert FindFirst(l.inventory, "nuts") == Some(1);
  }

  /** The corrected processItem only moves units, for every input. */
  lemma ProcessIntendedKeepsCount(l: Ledger, n: string, q: int)
    requires ValidLedger(l) && CanEnqueue(l) && q > 0
    ensures var (r, after) := ProcessIntended(l, n, q);
      && ValidLedger(after) && CanEnqueue(after)
      && Count(after) == Count(l)
      && (r.Err? ==> after == l)
      && (r.Ok? ==> after.shipping == Enqueued(l.shipping, n, q))
      && (r.Ok? ==> Total(after.inventory) == Total(l.inventory) - q)
  {
    match FindFirst(l.inventory, n)
    case None =>
    case Some(k) =>
      if l.inventory[k].quantity >= q {
        var left := l.inventory[k].quantity - q;
        var inv := if left == 0 then RemoveAt(l.inventory, k)
                   else l.inventory[k := l.inventory[k].(quantity := left)];
        if left == 0 {
          TotalRemoveAt(l.inventory, k);
          AllPositiveRemoveAt(l.inventory, k);
        } else {
          TotalUpdate(l.inventory, k, l.inventory[k].(quantity := left));
        }
        assert Total(inv) == Total(l.inventory) - q && AllPositive(inv);
        assert ProcessIntended(l, n, q).1 == ShippingEnqueued(l.(inventory := inv), n, q);
        ShippingEnqueuedValid(l.(inventory := inv), n, q);
        EnqueueProperties(l.shipping, n, q);
      }
  }

  /** The two agree exactly where the source's unlink is right. */
  lemma ProcessIntendedAgrees(l: Ledger, n: string, q: int)
    requires FindFirst(l.inventory, n) == Some(0) || FindFirst(l.inventory, n).None?
    ensures Process(l, n, q) == ProcessIntended(l, n, q)
  {
    if FindFirst(l.inventory, n) == Some(0) {
      assert Drained(l.inventory, 0, q) == DrainedIntended(l.inventory, 0, q) by {
        assert RemoveAt(l.inventory, 0) == l.inventory[1..];
      }
    }
  }

  /** shipItem: the inventory is never touched; on success the first
      shipping node named `n` loses exactly `q` units, is unlinked at zero,
      and every other node keeps its place and quantity. */
  lemma ShipProperties(l: Ledger, n: string, q: int)
    requires ValidLedger(l) && q > 0
    ensures var (r, after) := Ship(l, n, q);
      && ValidLedger(after)
      && after.inventory == l.inventory
      && (r == Err(ItemNotFound) <==> n !in Names(l.shipping))
      && (r.Err? ==> after == l)
      && (r.Ok? ==> Total(after.shipping) == Total(l.shipping) - q && Count(after) == Count(l) - q)
      && (r == Err(InsufficientQuantity) <==>
            exists k :: FirstMatch(l.shipping, n, k) && l.shipping[k].quantity < q)
  {
    NamesMember(l.shipping, n);
    match FindFirst(l.shipping, n)
    case None =>
    case Some(k) =>
      assert FirstMatch(l.shipping, n, k);
      var s := l.shipping;
      if s[k].quantity == q {
        TotalRemoveAt(s, k);
        AllPositiveRemoveAt(s, k);
      } else if s[k].quantity > q {
        TotalUpdate(s, k, s[k].(quantity := s[k].quantity - q));
      }
  }

  /** The stale-rear defect in shipItem: after it unlinks a node, enqueue
      may use `rear` again exactly when the unlinked node was not the rear
      node of a queue of two or more. */
  lemma ShipRearLive(l: Ledger, n: string, q: int, k: nat)
    requires ValidLedger(l) && CanEnqueue(l) && q > 0
    requires FindFirst(l.shipping, n) == Some(k) && l.shipping[k].quantity == q
    ensures CanEnqueue(Ship(l, n, q).1) <==> k + 1 < |l.shipping| || |l.shipping| == 1
  {
  }

  /** A concrete case: shipping all of the rear node "b" leaves `rear`
      dangling while "a" is still queued. */
  lemma ShipRearDanglesExample()
    ensures var l := Ledger([], [Item("a", 1), Item("b", 1)], At(1));
      && CanEnqueue(l)
      && Ship(l, "b", 1).1 == Ledger([], [Item("a", 1)], Dangling)
      && !CanEnqueue(Ship(l, "b", 1).1)
  {
    var l := Ledger([], [Item("a", 1), Item("b", 1)], At(1));
    assert FindFirst(l.shipping, "b") == Some(1);
    assert RemoveAt(l.shipping, 1) == [Item("a", 1)];
  }

  lemma RetargetedRearLive(s: seq<Item>, rear: Ref, k: nat)
    requires RearLive(s, rear) && k < |s|
    ensures RearLive(RemoveAt(s, k), RetargetedRear(rear, k))
    ensures RearShape(RemoveAt(s, k), RetargetedRear(rear, k))
  {
  }

  /** With `rear` moved back, shipItem keeps `rear` usable for every input. */
  lemma ShipIntendedKeepsRearLive(l: Ledger, n: string, q: int)
    requires ValidLedger(l) && CanEnqueue(l) && q > 0
    ensures ValidLedger(ShipIntended(l, n, q).1) && CanEnqueue(ShipIntended(l, n, q).1)
    ensures Ship(l, n, q).0 == ShipIntended(l, n, q).0
    ensures Ship(l, n, q).1.shipping == ShipIntended(l, n, q).1.shipping
  {
    match FindFirst(l.shipping, n)
    case None =>
    case Some(k) =>
      if l.shipping[k].quantity == q {
        AllPositiveRemoveAt(l.shipping, k);
        RetargetedRearLive(l.shipping, l.rear, k);
      }
  }

  /** removeItem looks in the inventory first and takes exactly one unit
      from the first match; it reports ItemNotFound, changing nothing, only
      when neither container has the name. */
  lemma RemoveProperties(l: Ledger, n: string)
    requires ValidLedger(l)
    ensures var (r, after) := Remove(l, n);
      && ValidLedger(after)
      && (r == Err(ItemNotFound) <==> n !in Names(l.inventory) && n !in Names(l.shipping))
      && (r.Err? ==> after == l)
      && (r.Ok? ==> Count(after) == Count(l) - 1)
      && (r == Ok(InInventory) <==> n in Names(l.inventory))
      && (r == Ok(InInventory) ==> after.shipping == l.shipping && after.rear == l.rear)
      && (r == Ok(InShipping) ==> after.inventory == l.inventory)
  {
    NamesMember(l.inventory, n);
    NamesMember(l.shipping, n);
    match FindFirst(l.inventory, n)
    case Some(k) =>
      TotalTakeUnit(l.inventory, k);
    case None =>
      match FindFirst(l.shipping, n)
      case None =>
      case Some(k) =>
        TotalTakeUnit(l.shipping, k);
  }

  /** The stale-rear defect in removeItem's shipping branch. */
  lemma RemoveRearLive(l: Ledger, n: string, k: nat)
    requires ValidLedger(l) && CanEnqueue(l)
    requires n !in Names(l.inventory)
    requires FindFirst(l.shipping, n) == Some(k) && l.shipping[k].quantity == 1
    ensures Remove(l, n).0 == Ok(InShipping)
    ensures CanEnqueue(Remove(l, n).1) <==> k + 1 < |l.shipping| || |l.shipping| == 1
  {
    NamesMember(l.inventory, n);
  }

  /** With `rear` moved back, removeItem keeps `rear` usable for every input. */
  lemma RemoveIntendedKeepsRearLive(l: Ledger, n: string)
    requires ValidLedger(l) && CanEnqueue(l)
    ensures ValidLedger(RemoveIntended(l, n).1) && CanEnqueue(RemoveIntended(l, n).1)
    ensures Remove(l, n).0 == RemoveIntended(l, n).0
    ensures Remove(l, n).1.shipping == RemoveIntended(l, n).1.shipping
  {
    match FindFirst(l.inventory, n)
    case Some(k) =>
      TotalTakeUnit(l.inventory, k);
    case None =>
      match FindFirst(l.shipping, n)
      case None =>
      case Some(k) =>
        TotalTakeUnit(l.shipping, k);
        if l.shipping[k].quantity == 1 {
          RetargetedRearLive(l.shipping, l.rear, k);
        }
  }

  /** Renaming touches only the first `o` node of a chain. */
  lemma RenamedProperties(s: seq<Item>, o: string, n: string, q: int)
    ensures |Renamed(s, o, n, q)| == |s|
    ensures forall i :: 0 <= i < |s| && Renamed(s, o, n, q)[i] != s[i] ==>
      FirstMatch(s, o, i) && Renamed(s, o, n, q)[i] == Item(n, q)
    ensures o in Names(s) ==> exists i :: FirstMatch(s, o, i) && Renamed(s, o, n, q)[i] == Item(n, q)
    ensures o !in Names(s) ==> Renamed(s, o, n, q) == s
  {
    NamesMember(s, o);
    match FindFirst(s, o)
    case None =>
    case Some(k) =>
      assert FirstMatch(s, o, k);
  }

  /** updateItem overwrites the first `o` node of each container that has
      one, merges nothing, and reports ItemNotFound only when neither has. */
  lemma UpdateProperties(l: Ledger, o: string, n: string, q: int)
    requires ValidLedger(l) && q > 0
    ensures var (r, after) := Update(l, o, n, q);
      && ValidLedger(after)
      && after.rear == l.rear
      && (r == Err(ItemNotFound) <==> o !in Names(l.inventory) && o !in Names(l.shipping))
      && (r.Ok? || after == l)
      && |after.inventory| == |l.inventory| && |after.shipping| == |l.shipping|
      && (forall i :: 0 <= i < |l.inventory| && after.inventory[i] != l.inventory[i] ==>
            FirstMatch(l.inventory, o, i) && after.inventory[i] == Item(n, q))
      && (forall i :: 0 <= i < |l.shipping| && after.shipping[i] != l.shipping[i] ==>
            FirstMatch(l.shipping, o, i) && after.shipping[i] == Item(n, q))
      && (o in Names(l.inventory) ==>
            exists i :: FirstMatch(l.inventory, o, i) && after.inventory[i] == Item(n, q))
      && (o in Names(l.shipping) ==>
            exists i :: FirstMatch(l.shipping, o, i) && after.shipping[i] == Item(n, q))
  {
    RenamedProperties(l.inventory, o, n, q);
    RenamedProperties(l.shipping, o, n, q);
    NamesMember(l.inventory, o);
    NamesMember(l.shipping, o);
  }

  /** Renaming back undoes a rename, provided no earlier node already bore
      the new name. */
  lemma RenameUndo(s: seq<Item>, o: string, n: string, q: int, k: nat)
    requires FindFirst(s, o) == Some(k)
    requires forall j :: 0 <= j < k ==> s[j].name != n
    ensures Renamed(Renamed(s, o, n, q), n, o, s[k].quantity) == s
  {
    var t := s[k := Item(n, q)];
    assert t[k].name == n;
    assert forall j :: 0 <= j < k ==> t[j] == s[j];
    match FindFirst(t, n)
    case None =>
      assert false;
    case Some(i) =>
      assert i == k;
    assert t[k := Item(o, s[k].quantity)] == s;
  }
}
