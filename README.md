# Warehouse ledger model

This project is a Dafny model of the console warehouse program in
`warehouse_system_b.cpp`. The program keeps two singly linked chains of
`ItemNode`s, each node holding a name and a quantity:

- an `InventoryStack` of incoming goods. The stack is LIFO and its `top` is the newest node. A push with the same name as the top node merges into that node.
- a `ShippingQueue` of outgoing goods. The queue is FIFO, with `front` and `rear` pointers. An enqueue with the same name as the rear node merges into that node.

`WarehouseSystem` owns one of each. Its operations are:

- `addItem` pushes stock.
- `processItem` moves stock from the inventory to the shipping queue.
- `shipItem` takes stock off the shipping queue.
- `removeItem` takes one unit from the inventory, or else from the shipping queue.
- `searchItem` and `countItems` query both chains.
- `updateItem` overwrites a node.
- `saveToFile` and `loadFromFile` write the chains to a line-based text format and read them back.

How the model is organised:

- Each chain is a class whose `items: seq<Item>` field lists the nodes from `top` or `front` onwards.
- The shipping queue also keeps its `rear` as an explicit `Ref`. A `Ref` is `Null`, `At(position)`, or `Dangling` once its node has been unlinked. This lets the model show where `rear` is left stale.
- The pointer writes the source performs are methods of those classes:
  - `setTop(node)` and `setFront(node)` become `SetTop(i)` and `SetFront(i)`.
  - `prev->next = cur->next` becomes `UnlinkAfter(prev)`.
- Module `Ledgers` states what every `WarehouseSystem` operation does, as functions over a value `Ledger(inventory, shipping, rear)`.
- Each method of `Warehouse.WarehouseSystem` finds its node with the cursor walk `Items.Locate`, as the source does. It then makes the source's pointer writes through the container methods. It is proved to have exactly the effect of its `Ledgers` function.
- Module `LedgerProperties` proves what those functions guarantee: counts, errors, invariants, and the two defects listed under Findings.
- Module `Persistence` models the save format as a function `Save` and the load loop as a function `LoadInto`. It proves what a save followed by a load returns.
- Module `ItemNames` models the name check the menu performs before `addItem`. It proves that every name the check accepts survives a save and a load.

The invariant all operations keep is `Ledgers.ValidLedger`:

- every quantity is positive;
- `rear` is `Null` only on an empty queue. Otherwise it is `Dangling` or the last node. An empty queue can also have a `Dangling` rear, left when shipItem ships out the only node.

The stronger `CanEnqueue` requires `rear` to be the last node of a non-empty queue. It is what `enqueue` needs, because `enqueue` dereferences `rear`.

## Model

| member | source | states |
|---|---|---|
| Stack.PushProperties | warehouse_system_b.cpp:40-51 | a push keeps quantities positive, raises the total by `q` and leaves a node named `n` on top; it either merges into the top node (same length, top quantity + q) or prepends a new node `(n, q)` |
| Stack.PopAfterPush | warehouse_system_b.cpp:40-68 | popping after pushing one unit gives back the original stack |
| Stack.PopProperties | warehouse_system_b.cpp:53-68 | a pop lowers the total by exactly one; it decrements the top node, or unlinks it when its quantity is 1 |
| Stack.InventoryStack.constructor | warehouse_system_b.cpp:28 | a new stack is empty |
| Stack.InventoryStack.IsEmpty | warehouse_system_b.cpp:36-38 | true exactly when there is no node |
| Stack.InventoryStack.Push | warehouse_system_b.cpp:40-51 | the new chain is `Pushed(old chain, n, q)` and quantities stay positive |
| Stack.InventoryStack.Pop | warehouse_system_b.cpp:53-68 | on an empty stack: error and no change; otherwise returns the top name and the chain becomes `Popped(old chain)` |
| Stack.InventoryStack.Peek | warehouse_system_b.cpp:71-76 | error on an empty stack, otherwise the top node's name |
| Stack.InventoryStack.SetTop | warehouse_system_b.cpp:26 | the chain becomes the nodes from position `i` onwards; everything above `i` is no longer reachable |
| Stack.InventoryStack.UnlinkAfter | warehouse_system_b.cpp:369 | exactly the node after `prev` leaves the chain |
| Stack.InventoryStack.TakeUnitAt | warehouse_system_b.cpp:355-372 | removeItem's inventory branch at node `k`: the chain becomes `TakeUnit(old, k)`, so one unit leaves node `k` and the node is unlinked when it held one; quantities stay positive |
| Stack.InventoryStack.DrainAt | warehouse_system_b.cpp:237-242 | processItem's step on node `k`: the chain becomes `Drained(old, k, q)`, so node `k` loses `q` units and, at zero, every node above it leaves with it; quantities stay positive |
| Stack.InventoryStack.Dispose | warehouse_system_b.cpp:30-34 | the destructor's pop loop terminates and leaves the chain empty |
| Queue.EnqueueProperties | warehouse_system_b.cpp:118-130 | an enqueue keeps quantities positive, raises the total by `q`, leaves `n` at the rear and keeps the front; it either merges into the rear node or appends `(n, q)` |
| Queue.DequeueProperties | warehouse_system_b.cpp:132-149 | a dequeue lowers the total by one; it decrements the front node, or unlinks it when its quantity is 1 |
| Queue.DequeueEnqueueCommute | warehouse_system_b.cpp:118-149 | FIFO: on a non-empty queue, dequeue after enqueue equals enqueue after dequeue |
| Queue.ShippingQueue.constructor | warehouse_system_b.cpp:106 | a new queue is empty and `rear` is null |
| Queue.ShippingQueue.IsEmpty | warehouse_system_b.cpp:114-116 | true exactly when `front` is null |
| Queue.ShippingQueue.Enqueue | warehouse_system_b.cpp:118-130 | given a live `rear`, the chain becomes `Enqueued(old chain, n, q)` and `rear` is its last node |
| Queue.ShippingQueue.Dequeue | warehouse_system_b.cpp:132-149 | on an empty queue: error and no change; otherwise returns the front name and the chain becomes `Dequeued(old chain)`; `rear` becomes null only when the last node leaves |
| Queue.ShippingQueue.Peek | warehouse_system_b.cpp:152-157 | error on an empty queue, otherwise the front node's name |
| Queue.ShippingQueue.SetFront | warehouse_system_b.cpp:104 | the chain becomes the nodes from position `i` onwards; `rear` keeps its node, or dangles if its node was cut off |
| Queue.ShippingQueue.UnlinkAfter | warehouse_system_b.cpp:397 | exactly the node after `prev` leaves the chain; `rear` is not written, so it dangles if it pointed at that node |
| Queue.ShippingQueue.Withdraw | warehouse_system_b.cpp:266-276 | shipItem at node `k`: when `q` is all of the node's units the node leaves the chain and `rear` is only shifted (dangling if it pointed there); otherwise the node loses `q` units and `rear` is untouched |
| Queue.ShippingQueue.TakeUnitAt | warehouse_system_b.cpp:385-400 | removeItem's shipping branch at node `k`: the chain becomes `TakeUnit(old, k)`; `rear` is untouched unless the node is unlinked, and then it is only shifted |
| Queue.ShippingQueue.Dispose | warehouse_system_b.cpp:108-112 | the destructor's dequeue loop terminates with an empty chain, and `rear` is null whenever the loop dequeued anything |
| Items.Locate | warehouse_system_b.cpp:230-248 | the cursor walk `while (cur != nullptr)` stops at the first node with the name, or reports none when no node has it; equal to `FindFirst` |
| Ledgers.Search | warehouse_system_b.cpp:312-344 | fails only when the name is in neither chain; reports the inventory exactly when the name is there; the quantity is that of the first matching node |
| LedgerProperties.ProcessProperties | warehouse_system_b.cpp:227-253 | whatever `rear` holds, processItem reports "not found" exactly when no inventory node has the name and "insufficient" exactly when the first match holds fewer than `q`, and on failure nothing changes; with `rear` on the last node it keeps the invariant and a usable `rear`, and on success the shipping chain is `Enqueued(old, n, q)` and gains `q` units |
| LedgerProperties.ShippingEnqueuedValid | warehouse_system_b.cpp:243 | the enqueue at the end of processItem keeps quantities positive, leaves `rear` on the last node, leaves the inventory alone and adds exactly `q` units to the queue |
| LedgerProperties.ProcessKeepsCount | warehouse_system_b.cpp:227-253 | when the match is the top node, or is left non-empty, processItem moves `q` units and countItems is unchanged |
| LedgerProperties.ProcessDropsNodesAbove | warehouse_system_b.cpp:238-241 | when the match at depth `k` empties, the inventory becomes the nodes below it, so countItems falls by every unit above it |
| LedgerProperties.ProcessDropsBoltsExample | warehouse_system_b.cpp:238-241 | with `bolts` (3) on top of `nuts` (2), processing 2 nuts leaves an empty inventory: the bolts are lost |
| LedgerProperties.ProcessIntendedKeepsCount | warehouse_system_b.cpp:227-253 | with the emptied node unlinked from its predecessor, processItem keeps the invariant, a live `rear` and countItems, and moves exactly `q` units |
| LedgerProperties.ProcessIntendedAgrees | warehouse_system_b.cpp:238-241 | the source and the corrected processItem agree whenever the match is the top node or there is none |
| LedgerProperties.ShipProperties | warehouse_system_b.cpp:256-286 | shipItem keeps the invariant and never touches the inventory; "not found" exactly when no shipping node has the name, "insufficient" exactly when the first match holds fewer than `q`; on failure nothing changes; on success countItems falls by `q` |
| LedgerProperties.ShipRearLive | warehouse_system_b.cpp:270-275 | after shipping out a whole node, `rear` is still usable exactly when that node was not the rear node or was the only node |
| LedgerProperties.ShipRearDanglesExample | warehouse_system_b.cpp:270-275 | shipping all of the rear node `b` out of `[a, b]` leaves `rear` dangling, so the next enqueue has no valid rear |
| LedgerProperties.RetargetedRearLive | warehouse_system_b.cpp:270-275 | moving `rear` back to the previous node, or to null, when the rear node is unlinked keeps `rear` on the last node |
| LedgerProperties.ShipIntendedKeepsRearLive | warehouse_system_b.cpp:256-286 | the corrected shipItem keeps `rear` live and agrees with the source on the result and on the chain |
| LedgerProperties.RemoveProperties | warehouse_system_b.cpp:347-413 | removeItem keeps the invariant; "not found" exactly when neither chain has the name; it acts on the inventory exactly when the name is there, and then leaves the shipping queue alone; on success countItems falls by exactly one |
| LedgerProperties.RemoveRearLive | warehouse_system_b.cpp:392-399 | removing the last unit of a shipping node leaves `rear` usable exactly when that node was not the rear node or was the only node |
| LedgerProperties.RemoveIntendedKeepsRearLive | warehouse_system_b.cpp:347-413 | the corrected removeItem keeps `rear` live and agrees with the source on the result and on the chain |
| LedgerProperties.RenamedProperties | warehouse_system_b.cpp:476-487 | rewriting the first `o` node changes at most that node, to `(n, q)`, and changes nothing when there is no `o` node |
| LedgerProperties.UpdateProperties | warehouse_system_b.cpp:473-504 | updateItem keeps the invariant, the lengths and `rear`; it fails exactly when neither chain has `o`; in each chain only the first `o` node changes, to `(n, q)` |
| LedgerProperties.RenameUndo | warehouse_system_b.cpp:473-504 | renaming `o` to `n` and back restores the chain when no earlier node is named `n` |
| Persistence.MarkersAreDistinct | warehouse_system_b.cpp:196-205 | neither section marker contains the other, and neither "empty" sentence contains a marker, so the loader classifies every line it wrote correctly |
| Persistence.LoadInventoryLines | warehouse_system_b.cpp:207-210 | in the inventory section, each storable line pushes one unit |
| Persistence.LoadShippingLines | warehouse_system_b.cpp:211-214 | in the shipping section, each storable line enqueues one unit and the inventory is untouched |
| Persistence.SaveLoadRoundTrip | warehouse_system_b.cpp:183-219 | loading a saved state whose names contain no marker and are neither "empty" sentence rebuilds the inventory as `Stacked(names)` and the queue as `Queued(names)` |
| Persistence.StackedIsReversedQueued | warehouse_system_b.cpp:207-214 | loading a list of names into the stack gives the reverse of loading the same list into the queue |
| Persistence.QueuedProperties | warehouse_system_b.cpp:211-214 | a loaded queue has one unit per line, names equal to the lines with adjacent repeats merged, and the last line at its rear |
| Persistence.QueuedDistinct | warehouse_system_b.cpp:211-214 | with no adjacent repeats, each line becomes its own one-unit node |
| Persistence.ExactRoundTrip | warehouse_system_b.cpp:436-468 | a state of one-unit nodes with no adjacent repeated names survives save and load with its shipping queue unchanged and its inventory reversed |
| ItemNames.CheckName | warehouse_system_b.cpp:559-573 | the name is accepted exactly when it is non-empty, not all white space, and only letters and white space; "empty or blank" exactly when every character is white space |
| ItemNames.ValidNameStorable | warehouse_system_b.cpp:559-573 | every accepted name survives saveToFile / loadFromFile: it contains no marker and is no "empty" sentence |
| Warehouse.WarehouseSystem.constructor | warehouse_system_b.cpp:176-179 | a new system has both chains empty |
| Warehouse.WarehouseSystem.AddItem | warehouse_system_b.cpp:221-224 | the inventory becomes `Pushed(old, n, q)`; the shipping queue does not change |
| Warehouse.WarehouseSystem.ProcessItem | warehouse_system_b.cpp:227-253 | the walk, the subtraction and `setTop(cur->next)` have exactly the effect and result of `Ledgers.Process`; a failing call needs no usable `rear`, only a successful one (it enqueues); afterwards `rear` is usable exactly when the call succeeded or it was usable before |
| Warehouse.WarehouseSystem.ShipItem | warehouse_system_b.cpp:256-286 | the walk and the unlink have exactly the effect and result of `Ledgers.Ship` |
| Warehouse.WarehouseSystem.SearchItem | warehouse_system_b.cpp:312-344 | the two walks return `Ledgers.Search` of the state |
| Warehouse.WarehouseSystem.RemoveItem | warehouse_system_b.cpp:347-413 | the two walks and the one-unit removal have exactly the effect and result of `Ledgers.Remove` |
| Warehouse.WarehouseSystem.CountItems | warehouse_system_b.cpp:416-433 | the sum of every node's quantity in both chains |
| Warehouse.WarehouseSystem.UpdateItem | warehouse_system_b.cpp:473-504 | the two walks, each stopping at its first match, have exactly the effect and result of `Ledgers.Update` |
| Warehouse.WarehouseSystem.SaveLines | warehouse_system_b.cpp:436-468 | the lines written are `Persistence.Save` of the state |
| Warehouse.WarehouseSystem.LoadFromLines | warehouse_system_b.cpp:183-219 | the line loop, with its two section flags, leaves the state `Persistence.LoadInto(lines, false, false, old state)` |

## Left out

- The menu loop, `main`, the prompts and console messages are not modelled. The menu's own checks appear only as preconditions: `q > 0` on the quantity-taking operations, from warehouse_system_b.cpp:552, :588, :605 and :653. The name check is `ItemNames.CheckName`.
- `viewLastIncoming`, `viewNextShipment`, `viewAll` and both `displayAll` methods are left out, because they only print. The values they print are covered by the `Peek` methods and by the chains themselves.
- Errors that the source catches and prints are returned as `Err(...)` values. The printed text is not modelled.
- Opening, closing and failing to open files is left out. `saveToFile` is modelled as the list of lines it writes, and `loadFromFile` as a loop over a given list of lines.
- How `getline` splits a file into lines is left out. A name that contains a newline is therefore outside the model.
- `new` and `delete` are not modelled, and neither is memory reuse after `delete`. An unlinked node simply leaves the sequence. A `Dangling` rear stands for a pointer to freed memory.
- `int` overflow is not modelled. Quantities and `count` are unbounded integers, so a sum past 2^31 - 1 does not wrap.
- Queue.ShippingQueue.Enqueue: requires `rear` to be the last node. The source dereferences a dangling `rear` at that point, which is undefined behaviour and cannot be modelled. `ProcessItem` inherits this requirement on its successful path only, and `LoadFromLines` for every call.
- LedgerProperties.ProcessProperties: says nothing about a successful call on a non-empty queue whose `rear` dangles. The source's enqueue then reads freed memory, which is undefined behaviour. `Ledgers.Process` gives that case a value only by convention, as an enqueue with a usable `rear`, and `Warehouse.WarehouseSystem.ProcessItem` never reaches it.
- Queue.ShippingQueue.Dispose: states a null `rear` only when the queue was non-empty. On an empty queue with a dangling `rear` the source's loop does nothing, and `rear` stays dangling.
- Persistence.SaveLoadRoundTrip: holds only for names that are storable: a name that contains no marker anywhere (the loader tests each line with `find`) and is neither "empty" sentence. `updateItem` does not validate the new name, so the source can save names that do not load back. `ItemNames.ValidNameStorable` shows that names accepted by the menu are storable.
- Persistence.SaveLoadRoundTrip: quantities are not restored, because the file holds names only. Each saved node loads back as one unit, and adjacent equal names merge.

## Findings

| source | as written | input that shows it | evidently intended | confidence | as-written member | corrected member |
|---|---|---|---|---|---|---|
| warehouse_system_b.cpp:238-241 | when the matched node reaches zero, processItem calls `inventory.setTop(cur->next)`, which discards every node above the match | inventory `bolts` (3) above `nuts` (2); process `nuts` 2: the inventory becomes empty and 3 bolts vanish from countItems | unlink only the matched node from its predecessor, as removeItem does | high, not executed | LedgerProperties.ProcessDropsNodesAbove, LedgerProperties.ProcessDropsBoltsExample | LedgerProperties.ProcessIntendedKeepsCount |
| warehouse_system_b.cpp:270-275 | shipItem unlinks an emptied node but never updates `rear` | queue `[a 1, b 1]`; ship `b` 1: `rear` still points at the freed `b`, and the next enqueue dereferences it | when the rear node is unlinked, move `rear` to `prev` (null if the queue empties) | high, not executed | LedgerProperties.ShipRearDanglesExample, LedgerProperties.ShipRearLive | LedgerProperties.ShipIntendedKeepsRearLive |
| warehouse_system_b.cpp:392-399 | removeItem's shipping branch unlinks a one-unit node without updating `rear` | queue `[a 1, b 1]`, empty inventory; remove `b`: `rear` dangles | as for shipItem: move `rear` to `prev` (null if the queue empties) | high, not executed | LedgerProperties.RemoveRearLive | LedgerProperties.RemoveIntendedKeepsRearLive |
