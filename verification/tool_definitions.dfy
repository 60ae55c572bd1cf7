/** The inventory tools offered to the language model
    (backend/src/llm_tools/toolDefinitions.js).  Each handler reads its
    arguments from the parsed argument object, forwards to the item ledger and
    answers with a message or a small object.  The shared ledger is passed in
    and handed back explicitly. */
module ToolDefinitions {
  import opened Js
  import opened Inventory
  import ToolSchema

  /** The parsed argument object of a tool call. */
  type Args = map<string, JsValue>

  /** What a handler returns: a message, `{ money }`, or `{ items: listItems() }`. */
  datatype Reply = Text(text: string) | MoneyReply(money: int) | ItemsReply(items: Listing)

  type LedgerTool = ToolSchema.Tool<Inventory, Args, Reply>

  const NotPositive := "Amount must be a positive integer."

  function AddedText(name: JsValue): string {
    "Item \"" + ToString(name) + "\" added successfully."
  }

  function RemovedText(name: JsValue): string {
    "Item \"" + ToString(name) + "\" removed successfully."
  }

  /** `Number(amount)` is a positive integer. */
  predicate PositiveAmount(amount: JsValue) {
    ToNumber(amount).Num? && ToNumber(amount).n > 0
  }

  /** The addItem handler. */
  function AddItemHandler(inv: Inventory, args: Args): (r: Outcome<(Inventory, Reply)>)
    ensures var added := AddItem(inv, Field(args, "name"), Field(args, "description"), Field(args, "count"));
            && (r.Threw? <==> added.Threw?)
            && (r.Threw? ==> r.error == added.error)
            && (r.Returned? ==> r.value == (added.value, Text(AddedText(Field(args, "name")))))
  {
    var name := Field(args, "name");
    match AddItem(inv, name, Field(args, "description"), Field(args, "count"))
    case Threw(e) => Threw(e)
    case Returned(inv') => Returned((inv', Text(AddedText(name))))
  }

  /** The removeItem handler: the ledger's own answer is dropped. */
  function RemoveItemHandler(inv: Inventory, args: Args): (r: Outcome<(Inventory, Reply)>)
    ensures var removed := RemoveItem(inv, Field(args, "name"), Field(args, "count"));
            && (r.Threw? <==> removed.Threw?)
            && (r.Threw? ==> r.error == removed.error)
            && (r.Returned? ==> r.value == (removed.value.0, Text(RemovedText(Field(args, "name")))))
  {
    var name := Field(args, "name");
    match RemoveItem(inv, name, Field(args, "count"))
    case Threw(e) => Threw(e)
    case Returned((inv', _)) => Returned((inv', Text(RemovedText(name))))
  }

  /** The addMoney handler. */
  function AddMoneyHandler(inv: Inventory, args: Args): (r: Outcome<(Inventory, Reply)>)
    ensures r.Threw? <==> !PositiveAmount(Field(args, "amount"))
    ensures r.Threw? ==> r.error == NotPositive
    ensures r.Returned? ==>
              var amt := ToNumber(Field(args, "amount")).n;
              && r.value.0 == inv.(money := inv.money + amt)
              && r.value.1 == Text("Money increased by " + IntToString(amt) + ". Balance: "
                                   + IntToString(inv.money + amt))
  {
    var amt := ToNumber(Field(args, "amount"));
    if !(amt.Num? && amt.n > 0) then Threw(NotPositive)
    else
      var inv' := AddMoney(inv, amt).value.0;
      Returned((inv', Text("Money increased by " + ToString(amt) + ". Balance: " + IntToString(GetMoney(inv')))))
  }

  /** The removeMoney handler: the ledger's refusal is dropped, so the reply
      reports a decrease even when the balance did not move. */
  function RemoveMoneyHandler(inv: Inventory, args: Args): (r: Outcome<(Inventory, Reply)>)
    ensures r.Threw? <==> !PositiveAmount(Field(args, "amount"))
    ensures r.Threw? ==> r.error == NotPositive
    ensures r.Returned? ==>
              var amt := ToNumber(Field(args, "amount")).n;
              var balance := if amt <= inv.money then inv.money - amt else inv.money;
              && r.value.0 == inv.(money := balance)
              && r.value.1 == Text("Money decreased by " + IntToString(amt) + ". Balance: " + IntToString(balance))
  {
    var amt := ToNumber(Field(args, "amount"));
    if !(amt.Num? && amt.n > 0) then Threw(NotPositive)
    else
      var inv' := RemoveMoney(inv, amt).value.0;
      Returned((inv', Text("Money decreased by " + ToString(amt) + ". Balance: " + IntToString(GetMoney(inv')))))
  }

  /** The getMoney handler. */
  function GetMoneyHandler(inv: Inventory, args: Args): (r: Outcome<(Inventory, Reply)>)
    ensures r == Returned((inv, MoneyReply(inv.money)))
  {
    Returned((inv, MoneyReply(GetMoney(inv))))
  }

  /** The listInventory handler: `listItems()` nested under `items`. */
  function ListInventoryHandler(inv: Inventory, args: Args): (r: Outcome<(Inventory, Reply)>)
    ensures r.Returned? && r.value.0 == inv
    ensures r.value.1.ItemsReply? && r.value.1.items.items == inv.items && r.value.1.items.money == inv.money
  {
    Returned((inv, ItemsReply(ListItems(inv))))
  }

  function Required(name: string, typeName: string, description: string): (string, ToolSchema.Property) {
    (name, ToolSchema.NewProperty(name, typeName, description, Bool(true)))
  }

  const AddItemProperties: ToolSchema.Entries := [
    Required("name", "string", "Name of the item"),
    Required("description", "string", "Description of the item"),
    Required("count", "number", "Number of items to add")
  ]

  const RemoveItemProperties: ToolSchema.Entries := [
    Required("name", "string", "Name of the item"),
    Required("count", "number", "Number of items to remove")
  ]

  const AddMoneyProperties: ToolSchema.Entries := [
    Required("amount", "number", "Positive amount to add (same units as Inventory.money)")
  ]

  const RemoveMoneyProperties: ToolSchema.Entries := [
    Required("amount", "number", "Positive amount to remove (same units as Inventory.money)")
  ]

  function MakeTool(name: string, description: string, props: ToolSchema.Entries,
                    execute: (Inventory, Args) -> Outcome<(Inventory, Reply)>): (t: LedgerTool)
    ensures t.name == name && t.requiredProperties == ToolSchema.RequiredKeys(props)
    ensures forall inv, args :: ToolSchema.Call(t, inv, args) == execute(inv, args)
  {
    ToolSchema.NewTool(name, description, Some(props), execute).value
  }

  const AddItemTool: LedgerTool :=
    MakeTool("addItem", "Adds an item to the inventory", AddItemProperties, AddItemHandler)

  const RemoveItemTool: LedgerTool :=
    MakeTool("removeItem", "Removes an item from the inventory", RemoveItemProperties, RemoveItemHandler)

  const AddMoneyTool: LedgerTool :=
    MakeTool("addMoney", "Increases the player's money by a positive amount.", AddMoneyProperties, AddMoneyHandler)

  const RemoveMoneyTool: LedgerTool :=
    MakeTool("removeMoney", "Decreases the player's money by a positive amount.", RemoveMoneyProperties,
             RemoveMoneyHandler)

  const GetMoneyTool: LedgerTool :=
    MakeTool("getMoney", "Returns the player's current money amount.", [], GetMoneyHandler)

  const ListInventoryTool: LedgerTool :=
    MakeTool("listInventory", "Returns the list of inventory items with counts.", [], ListInventoryHandler)

  /** The parameters each tool declares as required. */
  lemma DeclaredRequired()
    ensures AddItemTool.requiredProperties == ["name", "description", "count"]
    ensures RemoveItemTool.requiredProperties == ["name", "count"]
    ensures AddMoneyTool.requiredProperties == ["amount"] && RemoveMoneyTool.requiredProperties == ["amount"]
    ensures GetMoneyTool.requiredProperties == [] && ListInventoryTool.requiredProperties == []
  {
    assert AddItemProperties[1..][1..][1..] == [];
    assert RemoveItemProperties[1..][1..] == [];
    assert AddMoneyProperties[1..] == [] && RemoveMoneyProperties[1..] == [];
  }

  /** Whatever happened in the ledger, a removeItem call that does not throw
      reports success; a missing name or too low a stock leave the ledger as it was. */
  lemma RemoveAlwaysReportsSuccess(inv: Inventory, args: Args)
    requires RemoveItemHandler(inv, args).Returned?
    ensures RemoveItemHandler(inv, args).value.1 == Text(RemovedText(Field(args, "name")))
    ensures RemoveItem(inv, Field(args, "name"), Field(args, "count")).value.1 != Removed ==>
              RemoveItemHandler(inv, args).value.0 == inv
  {
  }

  /** Money validation happens before the ledger is touched, and a refused
      withdrawal still reports "Money decreased by" with the unchanged balance. */
  lemma RefusedWithdrawalReportsDecrease(inv: Inventory, n: nat)
    requires 0 < n && inv.money < n
    ensures RemoveMoneyHandler(inv, map["amount" := Num(n)])
            == Returned((inv, Text("Money decreased by " + IntToString(n) + ". Balance: " + IntToString(inv.money))))
  {
    assert Field(map["amount" := Num(n)], "amount") == Num(n);
  }

  /** Adding then removing the same positive amount restores the ledger. */
  lemma MoneyToolsRoundTrip(inv: Inventory, args: Args)
    requires inv.money >= 0
    requires PositiveAmount(Field(args, "amount"))
    ensures var added := AddMoneyHandler(inv, args).value.0;
            RemoveMoneyHandler(added, args).value.0 == inv
  {
  }

  /** The read tools change nothing. */
  lemma ReadToolsLeaveLedger(inv: Inventory, args: Args)
    ensures ToolSchema.Call(GetMoneyTool, inv, args).value.0 == inv
    ensures ToolSchema.Call(ListInventoryTool, inv, args).value.0 == inv
  {
  }

  function Call(t: LedgerTool, inv: Inventory, args: Args): Inventory {
    var out := ToolSchema.Call(t, inv, args);
    if out.Returned? then out.value.0 else inv
  }

  /** `{ name, description, count }` */
  function AddArgs(name: string, description: string, count: int): (args: Args)
    ensures Field(args, "name") == Str(name) && Field(args, "description") == Str(description)
    ensures Field(args, "count") == Num(count)
  {
    map["name" := Str(name), "description" := Str(description), "count" := Num(count)]
  }

  /** `{ name, count }` */
  function RemoveArgs(name: string, count: int): (args: Args)
    ensures Field(args, "name") == Str(name) && Field(args, "count") == Num(count)
  {
    map["name" := Str(name), "count" := Num(count)]
  }

  /** Adding a new item by tool appends it. */
  lemma AddNewByTool(inv: Inventory, name: string, description: string, count: nat)
    requires name != "" && description != "" && count > 0
    requires Find(inv.items, name).None?
    ensures Call(AddItemTool, inv, AddArgs(name, description, count)).items
            == inv.items + [Item(name, description, count)]
  {
  }

  /** Removing fewer than the stock by tool decrements that record only. */
  lemma RemoveSomeByTool(inv: Inventory, i: nat, count: nat)
    requires i < |inv.items| && Find(inv.items, inv.items[i].name) == Some(i)
    requires 0 < count < inv.items[i].count
    ensures Call(RemoveItemTool, inv, RemoveArgs(inv.items[i].name, count)).items
            == inv.items[i := inv.items[i].(count := inv.items[i].count - count)]
  {
    var r := Call(RemoveItemTool, inv, RemoveArgs(inv.items[i].name, count)).items;
    assert |r| == |inv.items|;
  }

  const Sword := Item("Sword", "A sharp blade for combat", 1)

  /** The first two steps of the tool test: add one Sword and three Potions. */
  lemma TestAdds()
    ensures var inv1 := Call(AddItemTool, Empty, AddArgs("Sword", "A sharp blade for combat", 1));
            Call(AddItemTool, inv1, AddArgs("Potion", "Restores health", 3)).items
            == [Sword, Item("Potion", "Restores health", 3)]
  {
    AddNewByTool(Empty, "Sword", "A sharp blade for combat", 1);
    var inv1 := Call(AddItemTool, Empty, AddArgs("Sword", "A sharp blade for combat", 1));
    TestAddPotion(inv1);
  }

  lemma TestAddPotion(inv: Inventory)
    requires inv.items == [Sword]
    ensures Call(AddItemTool, inv, AddArgs("Potion", "Restores health", 3)).items
            == [Sword, Item("Potion", "Restores health", 3)]
  {
    assert Find(inv.items, "Potion").None?;
    AddNewByTool(inv, "Potion", "Restores health", 3);
  }

  /** The third step of the tool test: remove one Potion. */
  lemma TestRemove(inv: Inventory)
    requires inv.items == [Sword, Item("Potion", "Restores health", 3)]
    ensures Call(RemoveItemTool, inv, RemoveArgs("Potion", 1)).items
            == [Sword, Item("Potion", "Restores health", 2)]
  {
    assert Find(inv.items, "Potion") == Some(1);
    RemoveSomeByTool(inv, 1, 1);
  }

  /** The in-memory call sequence of the tool test: two adds and a remove,
      a clear, and one more add. */
  lemma TestSequence()
    ensures var inv1 := Call(AddItemTool, Empty, AddArgs("Sword", "A sharp blade for combat", 1));
            var inv2 := Call(AddItemTool, inv1, AddArgs("Potion", "Restores health", 3));
            var inv3 := Call(RemoveItemTool, inv2, RemoveArgs("Potion", 1));
            var inv4 := ClearInventory(inv3);
            var inv5 := Call(AddItemTool, inv4, AddArgs("Shield", "Protects against attacks", 1));
            && inv3.items == [Sword, Item("Potion", "Restores health", 2)]
            && inv4.items == []
            && inv5.items == [Item("Shield", "Protects against attacks", 1)]
  {
    TestAdds();
    var inv1 := Call(AddItemTool, Empty, AddArgs("Sword", "A sharp blade for combat", 1));
    var inv2 := Call(AddItemTool, inv1, AddArgs("Potion", "Restores health", 3));
    TestRemove(inv2);
    var inv4 := ClearInventory(Call(RemoveItemTool, inv2, RemoveArgs("Potion", 1)));
    AddNewByTool(inv4, "Shield", "Protects against attacks", 1);
  }
}
