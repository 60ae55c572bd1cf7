/** The item ledger (`Inventory` in backend/models/inventoryClass.js): named
    items with positive counts plus a cash balance.

    Malformed arguments make the JavaScript methods throw; refusals caused by
    the game state (too few items, too little money) are returned as message
    strings instead.  Every operation here is a pure function from the old
    ledger to the new one. */
module Inventory {
  import opened Js
  import Seqs

  datatype Item = Item(name: string, description: string, count: int)

  datatype Inventory = Inventory(items: seq<Item>, money: int)

  /** What `listItems` returns. */
  datatype Listing = Listing(items: seq<Item>, money: int)

  /** What a `removeItem` call did; `JsReturn` gives the value the method returns. */
  datatype RemoveStatus = Removed | NotFound | NotEnough(message: string)

  /** What a `removeMoney` call that did not throw returned: the new balance or a refusal message. */
  datatype Withdrawal = Balance(money: int) | InsufficientFunds(message: string)

  /** `new Inventory()` */
  const Empty: Inventory := Inventory([], 0)

  /** The ledger invariant: money is never negative, every stored count is
      positive and no two records share a name. */
  predicate Valid(inv: Inventory) {
    && inv.money >= 0
    && (forall i :: 0 <= i < |inv.items| ==> inv.items[i].count > 0)
    && (forall i, j :: 0 <= i < j < |inv.items| ==> inv.items[i].name != inv.items[j].name)
  }

  /** The total stock of `name`, summed over every record with that name. */
  function CountOf(items: seq<Item>, name: string): int {
    if |items| == 0 then 0
    else (if items[0].name == name then items[0].count else 0) + CountOf(items[1..], name)
  }

  /** `items.find(item => item.name === name)`, as the index of the first match. */
  function Find(items: seq<Item>, name: string): (r: Option<nat>)
    ensures r.Some? ==> r.value < |items| && items[r.value].name == name
    ensures r.Some? ==> forall j :: 0 <= j < r.value ==> items[j].name != name
    ensures r.None? ==> forall j :: 0 <= j < |items| ==> items[j].name != name
  {
    if |items| == 0 then None
    else if items[0].name == name then Some(0)
    else match Find(items[1..], name)
      case None => None
      case Some(i) => Some(i + 1)
  }

  /** The same lookup with a JavaScript key: only a string can be `===` to a name. */
  function FindValue(items: seq<Item>, name: JsValue): (r: Option<nat>)
    ensures r.Some? ==> name.Str? && r == Find(items, name.s)
    ensures name.Str? ==> r == Find(items, name.s)
  {
    if name.Str? then Find(items, name.s) else None
  }

  /** The callback `item => item.name !== name` */
  function NameIsNot(name: string): Item -> bool {
    (it: Item) => it.name != name
  }

  /** `items.filter(item => item.name !== name)` */
  function WithoutName(items: seq<Item>, name: string): seq<Item> {
    Seqs.Filter(items, NameIsNot(name))
  }

  /** `Inventory.addItem`: throws on a missing or non-string name or
      description, or on a count that is not a positive integer; otherwise
      adds to an existing record of that name (keeping its description) or
      appends a new record. */
  function AddItem(inv: Inventory, name: JsValue, description: JsValue, count: JsValue): (r: Outcome<Inventory>)
    ensures !IsNonEmptyString(name) ==> r == Threw("Invalid item name.")
    ensures IsNonEmptyString(name) && !IsNonEmptyString(description) ==> r == Threw("Invalid item description.")
    ensures IsNonEmptyString(name) && IsNonEmptyString(description) && !IsPositiveInteger(count) ==>
              r == Threw("Invalid item count.")
    ensures r.Returned? <==> IsNonEmptyString(name) && IsNonEmptyString(description) && IsPositiveInteger(count)
    ensures r.Returned? ==> r.value.money == inv.money
    ensures r.Returned? && Find(inv.items, name.s).Some? ==>
              var i := Find(inv.items, name.s).value;
              && |r.value.items| == |inv.items|
              && r.value.items[i] == Item(name.s, inv.items[i].description, inv.items[i].count + count.n)
              && (forall j :: 0 <= j < |inv.items| && j != i ==> r.value.items[j] == inv.items[j])
    ensures r.Returned? && Find(inv.items, name.s).None? ==>
              r.value.items == inv.items + [Item(name.s, description.s, count.n)]
    ensures r.Returned? && Valid(inv) ==> Valid(r.value)
  {
    if !IsNonEmptyString(name) then Threw("Invalid item name.")
    else if !IsNonEmptyString(description) then Threw("Invalid item description.")
    else if !IsPositiveInteger(count) then Threw("Invalid item count.")
    else match Find(inv.items, name.s)
      case Some(i) =>
        var it := inv.items[i];
        Returned(inv.(items := inv.items[i := it.(count := it.count + count.n)]))
      case None =>
        Returned(inv.(items := inv.items + [Item(name.s, description.s, count.n)]))
  }

  /** `Inventory.removeItem`: throws on a count that is not a positive integer;
      reports a missing name or a count above the stock without changing
      anything; otherwise decrements the record and deletes it when it
      reaches zero. */
  function RemoveItem(inv: Inventory, name: JsValue, count: JsValue): (r: Outcome<(Inventory, RemoveStatus)>)
    ensures r.Threw? <==> !IsPositiveInteger(count)
    ensures r.Threw? ==> r.error == "Invalid remove count."
    ensures r.Returned? ==> r.value.0.money == inv.money
    ensures r.Returned? && r.value.1 != Removed ==> r.value.0 == inv
    ensures r.Returned? ==> (r.value.1 == NotFound <==> FindValue(inv.items, name).None?)
    ensures r.Returned? && FindValue(inv.items, name).Some? ==>
              var stock := inv.items[FindValue(inv.items, name).value].count;
              && (r.value.1.NotEnough? <==> stock < count.n)
              && (r.value.1.NotEnough? ==>
                    r.value.1.message == "Not enough " + name.s + " to remove. Available count: " + IntToString(stock))
    ensures r.Returned? && r.value.1 == Removed ==>
              var i := FindValue(inv.items, name).value;
              var stock := inv.items[i].count;
              && (stock == count.n ==> r.value.0.items == WithoutName(inv.items, name.s))
              && (stock > count.n ==>
                    && |r.value.0.items| == |inv.items|
                    && r.value.0.items[i] == inv.items[i].(count := stock - count.n)
                    && (forall j :: 0 <= j < |inv.items| && j != i ==> r.value.0.items[j] == inv.items[j]))
  {
    if !IsPositiveInteger(count) then Threw("Invalid remove count.")
    else match FindValue(inv.items, name)
      case None => Returned((inv, NotFound))
      case Some(i) =>
        var it := inv.items[i];
        if it.count < count.n then
          Returned((inv, NotEnough("Not enough " + name.s + " to remove. Available count: " + IntToString(it.count))))
        else if it.count - count.n == 0 then
          Returned((inv.(items := WithoutName(inv.items, name.s)), Removed))
        else
          Returned((inv.(items := inv.items[i := it.(count := it.count - count.n)]), Removed))
  }

  /** The value `removeItem` hands back to its JavaScript caller: nothing on
      success and on a missing name, the message on too low a stock. */
  function JsReturn(status: RemoveStatus): (v: JsValue)
    ensures v.Undefined? <==> !status.NotEnough?
  {
    match status
    case Removed => Undefined
    case NotFound => Undefined
    case NotEnough(m) => Str(m)
  }

  /** `Inventory.clearInventory`: drops every item and leaves the money alone. */
  function ClearInventory(inv: Inventory): (r: Inventory)
    ensures r.items == [] && r.money == inv.money
    ensures Valid(inv) ==> Valid(r)
  {
    inv.(items := [])
  }

  /** `Inventory.listItems` */
  function ListItems(inv: Inventory): Listing {
    Listing(inv.items, inv.money)
  }

  /** `Inventory.setMoney`: only a non-negative integer is accepted. */
  function SetMoney(inv: Inventory, value: JsValue): (r: Outcome<Inventory>)
    ensures r.Returned? <==> value.Num? && value.n >= 0
    ensures r.Threw? ==> r.error == "Invalid money value"
    ensures r.Returned? ==> r.value.money == value.n && r.value.items == inv.items
    ensures r.Returned? && Valid(inv) ==> Valid(r.value)
  {
    if !(value.Num? && value.n >= 0) then Threw("Invalid money value")
    else Returned(inv.(money := value.n))
  }

  /** `Inventory.getMoney` */
  function GetMoney(inv: Inventory): int {
    inv.money
  }

  /** `Inventory.addMoney`: a positive integer is added and the new balance returned. */
  function AddMoney(inv: Inventory, amount: JsValue): (r: Outcome<(Inventory, int)>)
    ensures r.Returned? <==> IsPositiveInteger(amount)
    ensures r.Threw? ==> r.error == "Amount to add must be a positive integer"
    ensures r.Returned? ==>
              && r.value.0.money == inv.money + amount.n
              && r.value.1 == r.value.0.money
              && r.value.0.items == inv.items
    ensures r.Returned? && Valid(inv) ==> Valid(r.value.0)
  {
    if !IsPositiveInteger(amount) then Threw("Amount to add must be a positive integer")
    else
      var inv' := inv.(money := inv.money + amount.n);
      Returned((inv', inv'.money))
  }

  /** `Inventory.removeMoney`: a positive integer no larger than the balance is
      subtracted and the new balance returned; a larger one is refused with a
      message and changes nothing. */
  function RemoveMoney(inv: Inventory, amount: JsValue): (r: Outcome<(Inventory, Withdrawal)>)
    ensures r.Returned? <==> IsPositiveInteger(amount)
    ensures r.Threw? ==> r.error == "Amount to remove must be a positive integer"
    ensures r.Returned? ==> r.value.0.items == inv.items
    ensures r.Returned? ==> (r.value.1.InsufficientFunds? <==> inv.money < amount.n)
    ensures r.Returned? && r.value.1.InsufficientFunds? ==>
              && r.value.0 == inv
              && r.value.1.message == "Insufficient funds. Current balance: " + IntToString(inv.money)
    ensures r.Returned? && r.value.1.Balance? ==>
              && r.value.0.money == inv.money - amount.n
              && r.value.1.money == r.value.0.money
    ensures r.Returned? && Valid(inv) ==> Valid(r.value.0)
  {
    if !IsPositiveInteger(amount) then Threw("Amount to remove must be a positive integer")
    else if inv.money < amount.n then
      Returned((inv, InsufficientFunds("Insufficient funds. Current balance: " + IntToString(inv.money))))
    else
      var inv' := inv.(money := inv.money - amount.n);
      Returned((inv', Balance(inv'.money)))
  }

  // ---------------------------------------------------------------------------
  // Properties of the ledger operations
  // ---------------------------------------------------------------------------

  lemma {:induction false} FilterKeepsAll(items: seq<Item>, name: string)
    requires forall j :: 0 <= j < |items| ==> items[j].name != name
    ensures WithoutName(items, name) == items
  {
    if |items| > 0 {
      FilterKeepsAll(items[1..], name);
    }
  }

  /** With unique names, deleting by name deletes exactly the one record. */
  lemma {:induction false} WithoutNameRemovesIndex(items: seq<Item>, i: nat)
    requires i < |items|
    requires forall a, b :: 0 <= a < b < |items| ==> items[a].name != items[b].name
    ensures WithoutName(items, items[i].name) == items[..i] + items[i + 1..]
  {
    var name := items[i].name;
    if i == 0 {
      FilterKeepsAll(items[1..], name);
    } else {
      WithoutNameRemovesIndex(items[1..], i - 1);
      assert items[1..][i - 1].name == name;
      assert items[1..][..i - 1] + items[1..][i..] == items[1..i] + items[i + 1..];
      assert [items[0]] + (items[1..i] + items[i + 1..]) == items[..i] + items[i + 1..];
    }
  }

  lemma {:induction false} CountOfAppend(a: seq<Item>, b: seq<Item>, name: string)
    ensures CountOf(a + b, name) == CountOf(a, name) + CountOf(b, name)
  {
    if |a| == 0 {
      assert a + b == b;
    } else {
      assert (a + b)[1..] == a[1..] + b;
      CountOfAppend(a[1..], b, name);
    }
  }

  /** Replacing one record changes the total of its old and its new name only. */
  lemma CountOfUpdate(items: seq<Item>, i: nat, it: Item, name: string)
    requires i < |items|
    ensures CountOf(items[i := it], name)
         == CountOf(items, name)
            - (if items[i].name == name then items[i].count else 0)
            + (if it.name == name then it.count else 0)
  {
    var left, right := items[..i], items[i + 1..];
    assert items == left + [items[i]] + right;
    assert items[i := it] == left + [it] + right;
    CountOfAppend(left + [items[i]], right, name);
    CountOfAppend(left, [items[i]], name);
    CountOfAppend(left + [it], right, name);
    CountOfAppend(left, [it], name);
  }

  /** `addItem` raises the stock of the named item by `count` and no other stock. */
  lemma AddItemCounts(inv: Inventory, name: JsValue, description: JsValue, count: JsValue, other: string)
    requires AddItem(inv, name, description, count).Returned?
    ensures CountOf(AddItem(inv, name, description, count).value.items, other)
         == CountOf(inv.items, other) + (if other == name.s then count.n else 0)
  {
    match Find(inv.items, name.s)
    case Some(i) =>
      CountOfUpdate(inv.items, i, inv.items[i].(count := inv.items[i].count + count.n), other);
    case None =>
      CountOfAppend(inv.items, [Item(name.s, description.s, count.n)], other);
  }

  /** In a valid ledger the stock of a name is the count of its one record. */
  lemma {:induction false} CountOfUnique(items: seq<Item>, name: string)
    requires forall a, b :: 0 <= a < b < |items| ==> items[a].name != items[b].name
    ensures Find(items, name).Some? ==> CountOf(items, name) == items[Find(items, name).value].count
    ensures Find(items, name).None? ==> CountOf(items, name) == 0
  {
    if |items| > 0 {
      CountOfUnique(items[1..], name);
      if items[0].name == name && |items| > 1 {
        assert forall j :: 0 <= j < |items[1..]| ==> items[1..][j].name != name by {
          forall j | 0 <= j < |items[1..]|
            ensures items[1..][j].name != name
          {
            assert items[1..][j] == items[j + 1];
          }
        }
        assert Find(items[1..], name).None?;
      }
    }
  }

  /** `removeItem` keeps the ledger invariant. */
  lemma RemoveItemKeepsValid(inv: Inventory, name: JsValue, count: JsValue)
    requires Valid(inv)
    requires RemoveItem(inv, name, count).Returned?
    ensures Valid(RemoveItem(inv, name, count).value.0)
  {
    var r := RemoveItem(inv, name, count).value;
    if r.1 == Removed {
      var i := FindValue(inv.items, name).value;
      if inv.items[i].count == count.n {
        WithoutNameRemovesIndex(inv.items, i);
        var left, right := inv.items[..i], inv.items[i + 1..];
        assert forall a :: 0 <= a < |r.0.items| ==> r.0.items[a] == if a < i then left[a] else right[a - i];
      }
    }
  }

  /** A successful `removeItem` lowers the stock of the named item by `count`
      and no other stock. */
  lemma RemoveItemCounts(inv: Inventory, name: JsValue, count: JsValue, other: string)
    requires Valid(inv)
    requires RemoveItem(inv, name, count).Returned? && RemoveItem(inv, name, count).value.1 == Removed
    ensures CountOf(RemoveItem(inv, name, count).value.0.items, other)
         == CountOf(inv.items, other) - (if other == name.s then count.n else 0)
  {
    var i := FindValue(inv.items, name).value;
    var it := inv.items[i];
    if it.count == count.n {
      WithoutNameRemovesIndex(inv.items, i);
      assert inv.items == inv.items[..i] + [it] + inv.items[i + 1..];
      CountOfAppend(inv.items[..i] + [it], inv.items[i + 1..], other);
      CountOfAppend(inv.items[..i], [it], other);
      CountOfAppend(inv.items[..i], inv.items[i + 1..], other);
    } else {
      CountOfUpdate(inv.items, i, it.(count := it.count - count.n), other);
    }
  }

  /** Adding a valid item and then removing the same count gives back the
      ledger exactly, whether the name was new or already present. */
  lemma AddThenRemoveItem(inv: Inventory, name: JsValue, description: JsValue, count: JsValue)
    requires Valid(inv)
    requires IsNonEmptyString(name) && IsNonEmptyString(description) && IsPositiveInteger(count)
    ensures RemoveItem(AddItem(inv, name, description, count).value, name, count) == Returned((inv, Removed))
  {
    var added := AddItem(inv, name, description, count).value;
    match Find(inv.items, name.s)
    case Some(i) =>
      assert Find(added.items, name.s) == Some(i) by {
        assert added.items[i].name == name.s;
      }
      assert added.items[i := added.items[i].(count := added.items[i].count - count.n)] == inv.items;
    case None =>
      var n := |inv.items|;
      var added1 := [Item(name.s, description.s, count.n)];
      assert added.items == inv.items + added1;
      assert Find(added.items, name.s) == Some(n) by {
        assert added.items[n].name == name.s;
      }
      Seqs.FilterAppend(inv.items, added1, NameIsNot(name.s));
      FilterKeepsAll(inv.items, name.s);
      assert WithoutName(added1, name.s) == [] by {
        assert added1[1..] == [];
      }
      assert WithoutName(added.items, name.s) == inv.items;
  }

  /** `addMoney(a)` followed by `removeMoney(a)` restores the balance and reports it. */
  lemma AddThenRemoveMoney(inv: Inventory, amount: JsValue)
    requires Valid(inv)
    requires IsPositiveInteger(amount)
    ensures var added := AddMoney(inv, amount).value.0;
            RemoveMoney(added, amount) == Returned((inv, Balance(inv.money)))
  {
  }
}
