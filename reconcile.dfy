/**
  Inventory reconciliation (main.py, `update_inventory`) as functions on
  values: the effect of one `{name, change_amount}` update on the inventory
  and on the change log, and the effect of an ordered list of updates. The
  in-place loop in module Game is proved against `Apply`.
 */
module Reconcile {
  import opened GameStates
  import opened Decimal
  import opened Wrappers

  datatype ItemUpdate = ItemUpdate(name: string, changeAmount: int)

  /** The inventory after some updates, and the log lines they produced. */
  datatype Reconciled = Reconciled(inventory: Inventory, log: string)

  /** The part of a log line in front of the signed amount. */
  function LinePrefix(name: string): string {
    "\nInventory: " + name + " "
  }

  /** Log line for a gain: the source writes a '+' before the number. */
  function GainLine(name: string, amount: int): string {
    LinePrefix(name) + "+" + IntToString(amount)
  }

  /** Log line for a loss: the '-' is the one the number itself renders with. */
  function LossLine(name: string, amount: int): string {
    LinePrefix(name) + IntToString(amount)
  }

  /** The quantity held of `name`, 0 when it is absent. */
  function Held(inv: Inventory, name: string): int {
    if name in inv then inv[name] else 0
  }

  ghost predicate NonNegative(inv: Inventory) {
    forall k :: k in inv ==> inv[k] >= 0
  }

  /** One iteration of the loop in `update_inventory`. */
  function Step(inv: Inventory, u: ItemUpdate): (r: Reconciled)
    // every other item is untouched
    ensures forall k :: k != u.name ==> (k in r.inventory <==> k in inv)
    ensures forall k :: k != u.name && k in inv ==> r.inventory[k] == inv[k]
    // the named item never stays below zero
    ensures u.name in r.inventory ==> r.inventory[u.name] >= 0
    // a gain adds to what is held (creating the item), and is logged with '+'
    ensures u.changeAmount > 0 ==>
      && r.log == GainLine(u.name, u.changeAmount)
      && (u.name in r.inventory <==> Held(inv, u.name) + u.changeAmount >= 0)
      && (u.name in r.inventory ==> r.inventory[u.name] == Held(inv, u.name) + u.changeAmount)
    // a loss of a held item subtracts, keeps the item at exactly zero, drops it below zero
    ensures u.changeAmount < 0 && u.name in inv ==>
      && r.log == LossLine(u.name, u.changeAmount)
      && (u.name in r.inventory <==> inv[u.name] + u.changeAmount >= 0)
      && (u.name in r.inventory ==> r.inventory[u.name] == inv[u.name] + u.changeAmount)
    // a loss of an item not held is ignored entirely
    ensures u.changeAmount < 0 && u.name !in inv ==> r == Reconciled(inv, "")
    // a zero change logs nothing and only prunes an item already below zero
    ensures u.changeAmount == 0 ==> r.log == ""
    ensures u.changeAmount == 0 && (u.name !in inv || inv[u.name] >= 0) ==> r.inventory == inv
    ensures u.changeAmount == 0 && u.name in inv && inv[u.name] < 0 ==> r.inventory == inv - {u.name}
  {
    var changed := Change(inv, u);
    Reconciled(Prune(changed.inventory, u.name), changed.log)
  }

  /** The `if`/`elif` of the loop body: the quantity change and its log line. */
  function Change(inv: Inventory, u: ItemUpdate): Reconciled {
    var name, amount := u.name, u.changeAmount;
    if amount > 0 then
      Reconciled(if name !in inv then inv[name := amount] else inv[name := inv[name] + amount],
                 GainLine(name, amount))
    else if name in inv && amount < 0 then
      Reconciled(inv[name := inv[name] + amount], LossLine(name, amount))
    else
      Reconciled(inv, "")
  }

  /** The deletion that ends the loop body: only a quantity strictly below zero is removed. */
  function Prune(inv: Inventory, name: string): Inventory {
    if name in inv && inv[name] < 0 then inv - {name} else inv
  }

  /** The whole of `update_inventory`: the updates applied in list order, the lines logged in that order. */
  function Apply(inv: Inventory, updates: seq<ItemUpdate>): (r: Reconciled)
    // an item can only appear through a gain of that item somewhere in the list
    ensures forall k :: k in r.inventory && k !in inv ==>
      exists j :: 0 <= j < |updates| && updates[j].name == k && updates[j].changeAmount > 0
    decreases |updates|
  {
    if updates == [] then Reconciled(inv, "")
    else
      var before := Apply(inv, updates[..|updates| - 1]);
      var last := Step(before.inventory, updates[|updates| - 1]);
      Reconciled(last.inventory, before.log + last.log)
  }

  /**
    The entries of a detector list that `update_inventory` gets through
    before it raises: those in front of the first malformed entry (`None`,
    a missing key or a non-numeric amount), unwrapped.
   */
  function ParsedPrefix(entries: seq<Option<ItemUpdate>>): (p: seq<ItemUpdate>)
    ensures |p| <= |entries|
    ensures forall j :: 0 <= j < |p| ==> entries[j] == Some(p[j])
    ensures |p| < |entries| ==> entries[|p|] == None
    decreases |entries|
  {
    if entries == [] || entries[0] == None then []
    else [entries[0].value] + ParsedPrefix(entries[1..])
  }

  /** Applying one more update extends the run by one step. */
  lemma ApplySnoc(inv: Inventory, updates: seq<ItemUpdate>, u: ItemUpdate)
    ensures Apply(inv, updates + [u]).inventory == Step(Apply(inv, updates).inventory, u).inventory
    ensures Apply(inv, updates + [u]).log == Apply(inv, updates).log + Step(Apply(inv, updates).inventory, u).log
  {
    assert (updates + [u])[..|updates|] == updates;
  }

  /** The loop's view of `ApplySnoc`: the first `i + 1` updates are the first `i` and then update `i`. */
  lemma ApplyNext(inv: Inventory, updates: seq<ItemUpdate>, i: nat)
    requires i < |updates|
    ensures Apply(inv, updates[..i + 1]).inventory == Step(Apply(inv, updates[..i]).inventory, updates[i]).inventory
    ensures Apply(inv, updates[..i + 1]).log == Apply(inv, updates[..i]).log + Step(Apply(inv, updates[..i]).inventory, updates[i]).log
  {
    assert updates[..i + 1] == updates[..i] + [updates[i]];
    ApplySnoc(inv, updates[..i], updates[i]);
  }

  lemma ConcatAssoc(x: string, y: string, z: string)
    ensures (x + y) + z == x + (y + z)
  {
  }

  /** Applying `a + b` is applying `a` and then `b` to the result, with the two logs in that order. */
  lemma {:induction false} ApplyAppend(inv: Inventory, a: seq<ItemUpdate>, b: seq<ItemUpdate>)
    ensures Apply(inv, a + b).inventory == Apply(Apply(inv, a).inventory, b).inventory
    ensures Apply(inv, a + b).log == Apply(inv, a).log + Apply(Apply(inv, a).inventory, b).log
    decreases |b|
  {
    if b == [] {
      assert a + b == a;
    } else {
      var b', u := b[..|b| - 1], b[|b| - 1];
      var mid := Apply(inv, a);
      assert b == b' + [u];
      assert a + b == (a + b') + [u];
      ApplyAppend(inv, a, b');
      ApplySnoc(inv, a + b', u);
      ApplySnoc(mid.inventory, b', u);
      var rest := Apply(mid.inventory, b');
      ConcatAssoc(mid.log, rest.log, Step(rest.inventory, u).log);
    }
  }

  /** If no quantity is negative before the call, none is after it. */
  lemma {:induction false} ApplyPreservesNonNegative(inv: Inventory, updates: seq<ItemUpdate>)
    requires NonNegative(inv)
    ensures NonNegative(Apply(inv, updates).inventory)
    decreases |updates|
  {
    if updates != [] {
      ApplyPreservesNonNegative(inv, updates[..|updates| - 1]);
    }
  }

  /** Only items named in some update can change: any other item keeps its presence and quantity. */
  lemma {:induction false} ApplyFrame(inv: Inventory, updates: seq<ItemUpdate>, k: string)
    requires forall j :: 0 <= j < |updates| ==> updates[j].name != k
    ensures k in Apply(inv, updates).inventory <==> k in inv
    ensures k in inv ==> Apply(inv, updates).inventory[k] == inv[k]
    decreases |updates|
  {
    if updates != [] {
      ApplyFrame(inv, updates[..|updates| - 1], k);
    }
  }

  /**
    An update that cannot change anything: a loss of an item not held, or a
    zero change of an item that is absent or not below zero.
   */
  predicate Inert(inv: Inventory, u: ItemUpdate) {
    || (u.changeAmount < 0 && u.name !in inv)
    || (u.changeAmount == 0 && (u.name !in inv || inv[u.name] >= 0))
  }

  /** A list of inert updates, the empty list among them, returns the empty log and the inventory as it was. */
  lemma {:induction false} InertUpdatesChangeNothing(inv: Inventory, updates: seq<ItemUpdate>)
    requires forall j :: 0 <= j < |updates| ==> Inert(inv, updates[j])
    ensures Apply(inv, updates) == Reconciled(inv, "")
    decreases |updates|
  {
    if updates != [] {
      InertUpdatesChangeNothing(inv, updates[..|updates| - 1]);
    }
  }

  /** Every gain line reads back as "+" and the amount after the item's prefix. */
  lemma GainLineRecordsAmount(name: string, amount: int)
    requires amount > 0
    ensures GainLine(name, amount)[..|LinePrefix(name)|] == LinePrefix(name)
    ensures GainLine(name, amount)[|LinePrefix(name)|] == '+'
    ensures ParseInt(GainLine(name, amount)[|LinePrefix(name)|..]) == Some(amount)
  {
    assert GainLine(name, amount)[|LinePrefix(name)|..] == "+" + IntToString(amount);
    PlusSignedRoundTrip(amount);
  }

  /** Every loss line reads back as the signed amount, its '-' coming from the number. */
  lemma LossLineRecordsAmount(name: string, amount: int)
    requires amount < 0
    ensures LossLine(name, amount)[..|LinePrefix(name)|] == LinePrefix(name)
    ensures LossLine(name, amount)[|LinePrefix(name)|] == '-'
    ensures ParseInt(LossLine(name, amount)[|LinePrefix(name)|..]) == Some(amount)
  {
    assert LossLine(name, amount)[|LinePrefix(name)|..] == IntToString(amount);
    IntToStringRoundTrip(amount);
  }

  /** Spending all 5 gold keeps "gold" at quantity 0: only a quantity below zero is deleted. */
  lemma SpendingAllGoldKeepsZero()
    ensures Apply(map["gold" := 5], [ItemUpdate("gold", -5)])
         == Reconciled(map["gold" := 0], LossLine("gold", -5))
    ensures LossLine("gold", -5) == "\nInventory: gold -5"
  {
    var u := ItemUpdate("gold", -5);
    assert [u][..0] == [];
    assert IntToString(-5) == "-5";
  }

  /** Overspending deletes the item, and the line still records the full amount asked for. */
  lemma OverspendingGoldDeletesIt()
    ensures Apply(map["gold" := 5], [ItemUpdate("gold", -7)])
         == Reconciled(map[], LossLine("gold", -7))
  {
    var u := ItemUpdate("gold", -7);
    assert [u][..0] == [];
    assert map["gold" := -2] - {"gold"} == map[];
  }

  /** A rope gained and then lost in one list stays at 0, and both lines are logged in order. */
  lemma RopeGainedThenLost()
    ensures Apply(map[], [ItemUpdate("rope", 2), ItemUpdate("rope", -2)])
         == Reconciled(map["rope" := 0], GainLine("rope", 2) + LossLine("rope", -2))
  {
    var a, b := ItemUpdate("rope", 2), ItemUpdate("rope", -2);
    var first := Step(map[], a);
    assert first == Reconciled(map["rope" := 2], GainLine("rope", 2));
    assert Step(first.inventory, b) == Reconciled(map["rope" := 0], LossLine("rope", -2));
    assert [a][..0] == [];
    assert Apply(map[], [a]) == first;
    ApplySnoc(map[], [a], b);
    assert [a] + [b] == [a, b];
  }

  /** The log lines of the examples above, as text. */
  lemma ExampleLinesAsText()
    ensures GainLine("rope", 2) == "\nInventory: rope +2"
    ensures LossLine("rope", -2) == "\nInventory: rope -2"
  {
    assert IntToString(2) == "2";
    assert IntToString(-2) == "-2";
  }

  /**
    A detector list whose second entry is malformed: the source raises on
    it, but only after the first entry has added the rope.
   */
  lemma MalformedEntryKeepsEarlierUpdates()
    ensures ParsedPrefix([Some(ItemUpdate("rope", 2)), None]) == [ItemUpdate("rope", 2)]
    ensures Apply(map[], [ItemUpdate("rope", 2)]).inventory == map["rope" := 2]
  {
    var u := ItemUpdate("rope", 2);
    assert [Some(u), None][1..] == [None];
    assert [u][..0] == [];
  }
}
