/** The line format of saveToFile / loadFromFile, as functions between a
    ledger and the sequence of lines of the file. */
module Persistence {
  import opened Items
  import opened Stack
  import opened Queue
  import opened Ledgers

  const InventoryMarker := "--- Final Inventory ---"
  const ShippingMarker := "--- Final Shipping Queue ---"
  const InventoryEmpty := "Inventory is empty."
  const ShippingEmpty := "Shipping queue is empty."

  /** `sub` occurs in `line` starting at position `i`. */
  predicate OccursAt(line: string, sub: string, i: nat)
  {
    i + |sub| <= |line| && line[i..i + |sub|] == sub
  }

  /** `line.find(sub) != string::npos`. */
  predicate Contains(line: string, sub: string)
  {
    exists i: nat :: i <= |line| && OccursAt(line, sub, i)
  }

  /** One section of the file: its marker, then the names along the chain,
      or the section's empty sentence.  Quantities are not written. */
  function Section(marker: string, empty: string, s: seq<Item>): seq<string>
  {
    [marker] + (if s == [] then [empty] else Names(s))
  }

  /** The lines saveToFile writes. */
  function Save(l: Ledger): seq<string>
  {
    Section(InventoryMarker, InventoryEmpty, l.inventory) + Section(ShippingMarker, ShippingEmpty, l.shipping)
  }

  /** loadFromFile's loop from the current line on, with its two flags:
      a line containing a marker switches section, any other line except the
      section's empty sentence is pushed or enqueued with quantity 1. */
  function LoadInto(lines: seq<string>, loadingInventory: bool, loadingShipping: bool, l: Ledger): Ledger
    decreases |lines|
  {
    if lines == [] then l
    else
      var line := lines[0];
      if Contains(line, InventoryMarker) then LoadInto(lines[1..], true, false, l)
      else if Contains(line, ShippingMarker) then LoadInto(lines[1..], false, true, l)
      else
        var l1 := if loadingInventory && line != InventoryEmpty
                  then l.(inventory := Pushed(l.inventory, line, 1)) else l;
        var l2 := if loadingShipping && line != ShippingEmpty
                  then ShippingEnqueued(l1, line, 1) else l1;
        LoadInto(lines[1..], loadingInventory, loadingShipping, l2)
  }

  /** Loading a file into a fresh system. */
  function Load(lines: seq<string>): Ledger
  {
    LoadInto(lines, false, false, Empty)
  }

  /** The stack built by pushing each name with quantity 1, in order. */
  function Stacked(ns: seq<string>): seq<Item>
  {
    if ns == [] then [] else Pushed(Stacked(ns[..|ns| - 1]), ns[|ns| - 1], 1)
  }

  /** The queue built by enqueueing each name with quantity 1, in order. */
  function Queued(ns: seq<string>): seq<Item>
  {
    if ns == [] then [] else Enqueued(Queued(ns[..|ns| - 1]), ns[|ns| - 1], 1)
  }

  /** The names with each run of equal adjacent names kept once. */
  function Squash(ns: seq<string>): seq<string>
  {
    if |ns| <= 1 then ns
    else if ns[|ns| - 1] == ns[|ns| - 2] then Squash(ns[..|ns| - 1])
    else Squash(ns[..|ns| - 1]) + [ns[|ns| - 1]]
  }

  predicate NoAdjacentRepeats(ns: seq<string>)
  {
    forall i :: 0 < i < |ns| ==> ns[i - 1] != ns[i]
  }

  /** A name the format can carry: no marker inside it and neither empty
      sentence. */
  predicate Storable(name: string)
  {
    !Contains(name, InventoryMarker) && !Contains(name, ShippingMarker)
    && name != InventoryEmpty && name != ShippingEmpty
  }

  predicate AllStorable(s: seq<Item>)
  {
    forall i :: 0 <= i < |s| ==> Storable(s[i].name)
  }

  lemma ContainsItself(s: string)
    ensures Contains(s, s)
  {
    assert OccursAt(s, s, 0);
  }

  lemma MarkersAreDistinct()
    ensures !Contains(ShippingMarker, InventoryMarker) && !Contains(InventoryMarker, ShippingMarker)
    ensures !Contains(InventoryEmpty, InventoryMarker) && !Contains(InventoryEmpty, ShippingMarker)
    ensures !Contains(ShippingEmpty, InventoryMarker) && !Contains(ShippingEmpty, ShippingMarker)
  {
    forall i: nat | i + |InventoryMarker| <= |ShippingMarker|
      ensures !OccursAt(ShippingMarker, InventoryMarker, i)
    {
      assert ShippingMarker[i + 10] != InventoryMarker[10];
    }
    forall i: nat | i + |InventoryMarker| <= |ShippingEmpty|
      ensures !OccursAt(ShippingEmpty, InventoryMarker, i)
    {
      assert ShippingEmpty[i] != InventoryMarker[0];
    }
  }

  /** Lines before the first marker are ignored. */
  lemma {:induction false} LoadSkipsPreamble(pre: seq<string>, rest: seq<string>, l: Ledger)
    requires forall i :: 0 <= i < |pre| ==> !Contains(pre[i], InventoryMarker) && !Contains(pre[i], ShippingMarker)
    ensures LoadInto(pre + rest, false, false, l) == LoadInto(rest, false, false, l)
  {
    if pre == [] {
      assert pre + rest == rest;
    } else {
      assert (pre + rest)[0] == pre[0];
      assert (pre + rest)[1..] == pre[1..] + rest;
      LoadSkipsPreamble(pre[1..], rest, l);
    }
  }

  /** The inventory section: each stored name is pushed in turn. */
  lemma {:induction false} LoadInventoryLines(ns: seq<string>, done: seq<string>, rest: seq<string>, l: Ledger)
    requires forall i :: 0 <= i < |ns| ==> Storable(ns[i])
    requires l.inventory == Stacked(done)
    ensures LoadInto(ns + rest, true, false, l)
         == LoadInto(rest, true, false, l.(inventory := Stacked(done + ns)))
  {
    if ns == [] {
      assert done + ns == done;
      assert ns + rest == rest;
      assert l.(inventory := Stacked(done)) == l;
    } else {
      assert (ns + rest)[0] == ns[0];
      assert (ns + rest)[1..] == ns[1..] + rest;
      var done' := done + [ns[0]];
      assert done'[..|done'| - 1] == done;
      assert Stacked(done') == Pushed(l.inventory, ns[0], 1);
      LoadInventoryLines(ns[1..], done', rest, l.(inventory := Stacked(done')));
      assert done' + ns[1..] == done + ns;
    }
  }

  /** The shipping section: each stored name is enqueued in turn. */
  lemma {:induction false} LoadShippingLines(ns: seq<string>, done: seq<string>, l: Ledger)
    requires forall i :: 0 <= i < |ns| ==> Storable(ns[i])
    requires l.shipping == Queued(done)
    ensures LoadInto(ns, false, true, l).inventory == l.inventory
    ensures LoadInto(ns, false, true, l).shipping == Queued(done + ns)
  {
    if ns == [] {
      assert done + ns == done;
    } else {
      var done' := done + [ns[0]];
      var l' := ShippingEnqueued(l, ns[0], 1);
      assert LoadInto(ns, false, true, l) == LoadInto(ns[1..], false, true, l') by {
        assert Storable(ns[0]);
      }
      assert Queued(done') == l'.shipping by {
        assert done'[..|done'| - 1] == done;
      }
      assert done' + ns[1..] == done + ns;
      LoadShippingLines(ns[1..], done', l');
    }
  }

  /** Reading the inventory section into a fresh system leaves the
      inventory holding the stored names pushed in order. */
  lemma LoadInventorySection(inv: seq<Item>, tail: seq<string>)
    requires AllStorable(inv)
    ensures LoadInto(Section(InventoryMarker, InventoryEmpty, inv) + tail, false, false, Empty)
         == LoadInto(tail, true, false, Empty.(inventory := Stacked(Names(inv))))
  {
    MarkersAreDistinct();
    ContainsItself(InventoryMarker);
    var body := if inv == [] then [InventoryEmpty] else Names(inv);
    assert Section(InventoryMarker, InventoryEmpty, inv) + tail == [InventoryMarker] + (body + tail);
    assert ([InventoryMarker] + (body + tail))[1..] == body + tail;
    if inv == [] {
      assert Names(inv) == [];
      assert (body + tail)[1..] == tail;
      assert Empty.(inventory := Stacked(Names(inv))) == Empty;
    } else {
      assert [] + Names(inv) == Names(inv);
      LoadInventoryLines(Names(inv), [], tail, Empty);
    }
  }

  /** Reading the shipping section enqueues the stored names in order and
      leaves the inventory alone. */
  lemma LoadShippingSection(ship: seq<Item>, l: Ledger)
    requires AllStorable(ship) && l.shipping == []
    ensures LoadInto(Section(ShippingMarker, ShippingEmpty, ship), true, false, l).inventory == l.inventory
    ensures LoadInto(Section(ShippingMarker, ShippingEmpty, ship), true, false, l).shipping == Queued(Names(ship))
  {
    MarkersAreDistinct();
    ContainsItself(ShippingMarker);
    var body := if ship == [] then [ShippingEmpty] else Names(ship);
    assert Section(ShippingMarker, ShippingEmpty, ship)[1..] == body;
    if ship == [] {
      assert Names(ship) == [];
      assert Section(ShippingMarker, ShippingEmpty, ship) == [ShippingMarker, ShippingEmpty];
      assert LoadInto([ShippingEmpty], false, true, l) == l;
      assert LoadInto([ShippingMarker, ShippingEmpty], true, false, l) == LoadInto([ShippingEmpty], false, true, l);
    } else {
      assert [] + Names(ship) == Names(ship);
      LoadShippingLines(Names(ship), [], l);
    }
  }

  /** Round trip: loading a saved ledger into a fresh system pushes the
      inventory names top to bottom (so they come back reversed) and
      enqueues the shipping names front to rear, one unit per line. */
  lemma SaveLoadRoundTrip(l: Ledger)
    requires AllStorable(l.inventory) && AllStorable(l.shipping)
    ensures Load(Save(l)).inventory == Stacked(Names(l.inventory))
    ensures Load(Save(l)).shipping == Queued(Names(l.shipping))
  {
    LoadInventorySection(l.inventory, Section(ShippingMarker, ShippingEmpty, l.shipping));
    LoadShippingSection(l.shipping, Empty.(inventory := Stacked(Names(l.inventory))));
  }

  lemma PushedReversed(t: seq<Item>, n: string, q: int)
    ensures Pushed(Reverse(t), n, q) == Reverse(Enqueued(t, n, q))
  {
    if t != [] && t[|t| - 1].name == n {
      assert Reverse(t)[0] == t[|t| - 1];
    } else if t != [] {
      assert Reverse(t)[0] == t[|t| - 1];
    }
  }

  /** Pushing names builds the reverse of the queue enqueueing them builds:
      the head-only and the tail-only merge are mirror images. */
  lemma {:induction false} StackedIsReversedQueued(ns: seq<string>)
    ensures Stacked(ns) == Reverse(Queued(ns))
  {
    if ns != [] {
      StackedIsReversedQueued(ns[..|ns| - 1]);
      PushedReversed(Queued(ns[..|ns| - 1]), ns[|ns| - 1], 1);
    }
  }

  /** The names along the chain after an enqueue: the rear's name once
      more unless the rear absorbed the new units. */
  lemma NamesEnqueued(s: seq<Item>, n: string, q: int)
    ensures Names(Enqueued(s, n, q))
         == if s != [] && s[|s| - 1].name == n then Names(s) else Names(s) + [n]
  {
  }

  /** Loading n lines gives n units in all, on nodes whose names are the
      lines with adjacent repeats merged. */
  lemma {:induction false} QueuedProperties(ns: seq<string>)
    ensures Names(Queued(ns)) == Squash(ns)
    ensures Total(Queued(ns)) == |ns|
    ensures AllPositive(Queued(ns))
    ensures ns != [] ==> Queued(ns) != [] && Queued(ns)[|Queued(ns)| - 1].name == ns[|ns| - 1]
  {
    if ns != [] {
      var init := ns[..|ns| - 1];
      var last := ns[|ns| - 1];
      QueuedProperties(init);
      EnqueueProperties(Queued(init), last, 1);
      NamesEnqueued(Queued(init), last, 1);
      if |ns| == 1 {
        assert init == [];
      } else {
        assert init[|init| - 1] == ns[|ns| - 2];
      }
    }
  }

  /** The one-unit nodes for a list of names. */
  function Ones(ns: seq<string>): seq<Item>
  {
    seq(|ns|, i requires 0 <= i < |ns| => Item(ns[i], 1))
  }

  lemma {:induction false} QueuedDistinct(ns: seq<string>)
    requires NoAdjacentRepeats(ns)
    ensures Queued(ns) == Ones(ns)
  {
    if ns != [] {
      var init := ns[..|ns| - 1];
      assert NoAdjacentRepeats(init);
      QueuedDistinct(init);
      if |ns| > 1 {
        assert Ones(init)[|init| - 1].name == ns[|ns| - 2];
      }
      assert Ones(ns) == Ones(init) + [Item(ns[|ns| - 1], 1)];
    }
  }

  /** When every node holds one unit and no two neighbours share a name,
      saving and loading gives back the shipping queue exactly and the
      inventory stack upside down. */
  lemma ExactRoundTrip(l: Ledger)
    requires AllStorable(l.inventory) && AllStorable(l.shipping)
    requires l.inventory == Ones(Names(l.inventory)) && l.shipping == Ones(Names(l.shipping))
    requires NoAdjacentRepeats(Names(l.inventory)) && NoAdjacentRepeats(Names(l.shipping))
    ensures Load(Save(l)).inventory == Reverse(l.inventory)
    ensures Load(Save(l)).shipping == l.shipping
  {
    SaveLoadRoundTrip(l);
    StackedIsReversedQueued(Names(l.inventory));
    QueuedDistinct(Names(l.inventory));
    QueuedDistinct(Names(l.shipping));
  }
}
