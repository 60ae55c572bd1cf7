/** The stats tracker (`Stats` in backend/models/statsClass.js): elapsed game
    time and the current location.  Travelling burns "Gas" from the item ledger.

    `Math.random()` is the parameter `random` (a real in [0, 1)), and the shared
    ledger is passed in and handed back explicitly. */
module Stats {
  import opened Js
  import I = Inventory

  const SpawnLocations: seq<string> := ["Modesto", "Stockton", "Salinas", "Gilroy"]

  datatype Stats = Stats(elapsedMinutes: int, currentLocation: string)

  /** How an `updateStatus` call ended.  `Error` is an exception escaping the
      method; the other two are the strings it returns. */
  datatype UpdateOutcome = Updated(message: string) | Refused(message: string) | Error(error: string)

  /** The tracker and the ledger after `updateStatus`, and how it ended. */
  datatype StatusUpdate = StatusUpdate(stats: Stats, inv: I.Inventory, outcome: UpdateOutcome)

  const RefusalMessage: string :=
    "Cannot travel because gas is too low.  Time and location remain unchanged.  Please alert the player of this issue."

  const SuccessPrefix: string :=
    "Update successful.  Time and location updated.  Current player inventory: "

  /** The exception raised by calling `startsWith` on `undefined`. */
  const StartsWithOnUndefined: string :=
    "TypeError: Cannot read properties of undefined (reading 'startsWith')"

  /** `spawnLocations[Math.floor(Math.random() * spawnLocations.length)]` */
  function SpawnPick(random: real): (loc: string)
    requires 0.0 <= random < 1.0
    ensures loc in SpawnLocations
  {
    var i := (random * (|SpawnLocations| as real)).Floor;
    SpawnLocations[i]
  }

  /** `new Stats()` */
  function NewStats(random: real): (s: Stats)
    requires 0.0 <= random < 1.0
    ensures s.elapsedMinutes == 0 && s.currentLocation in SpawnLocations
  {
    Stats(0, SpawnPick(random))
  }

  /** `Stats.resetStats`: forgets the old state entirely. */
  function ResetStats(s: Stats, random: real): (r: Stats)
    requires 0.0 <= random < 1.0
    ensures r.elapsedMinutes == 0 && r.currentLocation in SpawnLocations
    ensures r == NewStats(random)
  {
    Stats(0, SpawnPick(random))
  }

  /** Every spawn location is the starting point for some draw of `Math.random()`. */
  lemma EverySpawnLocationReachable(k: nat)
    requires k < |SpawnLocations|
    ensures var random := (k as real) / (|SpawnLocations| as real);
            0.0 <= random < 1.0 && NewStats(random).currentLocation == SpawnLocations[k]
  {
    var random := (k as real) / 4.0;
    assert random * 4.0 == k as real;
    assert (random * 4.0).Floor == k;
  }

  /** `Stats.getStats` */
  function GetStats(s: Stats): (int, string) {
    (s.elapsedMinutes, s.currentLocation)
  }

  function Abs(x: int): nat {
    if x < 0 then -x else x
  }

  /** `Math.round(Math.abs(distance) / 30 * 5)`, the gas units a trip burns,
      in integer arithmetic: the nearest integer to |distance| / 6, halves
      rounded up. */
  function GasUnits(distance: int): (units: nat)
    ensures (units as real) - 0.5 <= (Abs(distance) as real) / 6.0 < (units as real) + 0.5
  {
    (Abs(distance) + 3) / 6
  }

  /** The inventory part of the success message: `name: count` per item joined
      by ", ", then " and $<money> in cash". */
  function InventorySummary(inv: I.Inventory): string {
    Join(ItemLines(inv.items), ", ") + " and $" + IntToString(inv.money) + " in cash"
  }

  function ItemLines(items: seq<I.Item>): (lines: seq<string>)
    ensures |lines| == |items|
    ensures forall i :: 0 <= i < |items| ==> lines[i] == items[i].name + ": " + IntToString(items[i].count)
  {
    if |items| == 0 then [] else [items[0].name + ": " + IntToString(items[0].count)] + ItemLines(items[1..])
  }

  /** The tail of `updateStatus` shared by every successful path. */
  function Advance(s: Stats, inv: I.Inventory, timeElapsed: int, location: string): StatusUpdate {
    StatusUpdate(Stats(s.elapsedMinutes + timeElapsed, location), inv, Updated(SuccessPrefix + InventorySummary(inv)))
  }

  /** `Stats.updateStatus` as written.  `removeItem` returns `undefined` both
      when it removed the gas and when there was no "Gas" record, so the
      `result.startsWith(...)` test throws in both cases, after the gas has
      already been taken; a distance of 1 or 2 asks for 0 units, which
      `removeItem` rejects by throwing.  Only a distance of 0 reaches the
      update. */
  function UpdateStatus(s: Stats, inv: I.Inventory, timeElapsed: int, location: string, distanceTraveled: int): (r: StatusUpdate)
    ensures r.outcome.Updated? <==> distanceTraveled == 0
    ensures distanceTraveled == 0 ==>
              && r.stats == Stats(s.elapsedMinutes + timeElapsed, location)
              && r.inv == inv
              && r.outcome.message == SuccessPrefix + InventorySummary(inv)
    ensures !r.outcome.Updated? ==> r.stats == s
    ensures r.outcome.Refused? <==>
              && distanceTraveled != 0 && GasUnits(distanceTraveled) > 0
              && I.Find(inv.items, "Gas").Some?
              && inv.items[I.Find(inv.items, "Gas").value].count < GasUnits(distanceTraveled)
    ensures r.outcome.Refused? ==> r.inv == inv && r.outcome.message == RefusalMessage
    ensures distanceTraveled != 0 && GasUnits(distanceTraveled) == 0 ==>
              r == StatusUpdate(s, inv, Error("Invalid remove count."))
    ensures r.outcome.Error? && r.inv != inv ==> r.outcome.error == StartsWithOnUndefined
    ensures distanceTraveled != 0 && GasUnits(distanceTraveled) > 0 && I.Find(inv.items, "Gas").None? ==>
              r == StatusUpdate(s, inv, Error(StartsWithOnUndefined))
    ensures distanceTraveled != 0 && GasUnits(distanceTraveled) > 0 && I.Find(inv.items, "Gas").Some? ==>
              var g := I.Find(inv.items, "Gas").value;
              var units := GasUnits(distanceTraveled);
              var stock := inv.items[g].count;
              stock >= units ==>
                && r.outcome == Error(StartsWithOnUndefined)
                && r.inv.money == inv.money
                && (stock == units ==> r.inv.items == I.WithoutName(inv.items, "Gas"))
                && (stock > units ==> r.inv.items == inv.items[g := inv.items[g].(count := stock - units)])
  {
    var d := Abs(distanceTraveled);
    if d > 0 then
      var units := GasUnits(d);
      match I.RemoveItem(inv, Str("Gas"), Num(units))
      case Threw(e) => StatusUpdate(s, inv, Error(e))
      case Returned((inv', status)) =>
        var result := I.JsReturn(status);
        if result.Undefined? then
          StatusUpdate(s, inv', Error(StartsWithOnUndefined))
        else
          var message := result.s;
          if StartsWith(message, "Not enough") || StartsWith(message, "Item not found") then
            StatusUpdate(s, inv', Refused(RefusalMessage))
          else
            Advance(s, inv', timeElapsed, location)
    else
      Advance(s, inv, timeElapsed, location)
  }

  /** `updateStatus` as its callers evidently expect it to behave: the gas
      removal's own outcome decides, so a completed removal moves the player
      and a missing or too small "Gas" stock refuses the trip. */
  function UpdateStatusIntended(s: Stats, inv: I.Inventory, timeElapsed: int, location: string, distanceTraveled: int): (r: StatusUpdate)
    ensures distanceTraveled == 0 ==> r == Advance(s, inv, timeElapsed, location)
    ensures !r.outcome.Updated? ==> r.stats == s && r.inv == inv
    ensures r.outcome.Updated? ==> r.stats == Stats(s.elapsedMinutes + timeElapsed, location)
    ensures r.outcome.Refused? ==> r.outcome.message == RefusalMessage
    ensures distanceTraveled != 0 && GasUnits(distanceTraveled) > 0 ==>
              (r.outcome.Updated? <==>
                 I.Find(inv.items, "Gas").Some? && inv.items[I.Find(inv.items, "Gas").value].count >= GasUnits(distanceTraveled))
  {
    var d := Abs(distanceTraveled);
    if d > 0 then
      var units := GasUnits(d);
      match I.RemoveItem(inv, Str("Gas"), Num(units))
      case Threw(e) => StatusUpdate(s, inv, Error(e))
      case Returned((inv', status)) =>
        if status == I.Removed then Advance(s, inv', timeElapsed, location)
        else StatusUpdate(s, inv, Refused(RefusalMessage))
    else
      Advance(s, inv, timeElapsed, location)
  }

  /** Travelling backwards is travelling forwards: only |distance| matters. */
  lemma UpdateStatusIgnoresDirection(s: Stats, inv: I.Inventory, timeElapsed: int, location: string, distance: int)
    ensures UpdateStatus(s, inv, timeElapsed, location, distance) == UpdateStatus(s, inv, timeElapsed, location, -distance)
    ensures UpdateStatusIntended(s, inv, timeElapsed, location, distance)
         == UpdateStatusIntended(s, inv, timeElapsed, location, -distance)
  {
  }

  /** `updateStatus` touches nothing in the ledger but the "Gas" record: every
      other stock and the money are as before, and the ledger stays valid. */
  lemma UpdateStatusTouchesOnlyGas(s: Stats, inv: I.Inventory, timeElapsed: int, location: string, distance: int, other: string)
    requires I.Valid(inv)
    requires other != "Gas"
    ensures var r := UpdateStatus(s, inv, timeElapsed, location, distance);
            && r.inv.money == inv.money
            && I.CountOf(r.inv.items, other) == I.CountOf(inv.items, other)
            && I.Valid(r.inv)
    ensures var r := UpdateStatusIntended(s, inv, timeElapsed, location, distance);
            && r.inv.money == inv.money
            && I.CountOf(r.inv.items, other) == I.CountOf(inv.items, other)
            && I.Valid(r.inv)
  {
    var units := GasUnits(distance);
    if distance != 0 && units > 0 {
      var removal := I.RemoveItem(inv, Str("Gas"), Num(units));
      I.RemoveItemKeepsValid(inv, Str("Gas"), Num(units));
      if removal.value.1 == I.Removed {
        I.RemoveItemCounts(inv, Str("Gas"), Num(units), other);
      }
    }
  }

  /** The defect of the code as written: with enough gas for a trip, the gas
      is burnt, yet time and location stay as they were and the call ends in
      a TypeError; the intended version moves the player instead. */
  lemma TravelWithEnoughGasFails(s: Stats, inv: I.Inventory, timeElapsed: int, location: string, distance: int)
    requires I.Valid(inv)
    requires distance != 0 && GasUnits(distance) > 0
    requires I.CountOf(inv.items, "Gas") >= GasUnits(distance)
    ensures var r := UpdateStatus(s, inv, timeElapsed, location, distance);
            && r.outcome == Error(StartsWithOnUndefined)
            && r.stats == s
            && I.CountOf(r.inv.items, "Gas") == I.CountOf(inv.items, "Gas") - GasUnits(distance)
    ensures var r := UpdateStatusIntended(s, inv, timeElapsed, location, distance);
            && r.outcome.Updated?
            && r.stats == Stats(s.elapsedMinutes + timeElapsed, location)
            && I.CountOf(r.inv.items, "Gas") == I.CountOf(inv.items, "Gas") - GasUnits(distance)
  {
    var units := GasUnits(distance);
    I.CountOfUnique(inv.items, "Gas");
    I.RemoveItemCounts(inv, Str("Gas"), Num(units), "Gas");
  }

  /** A ledger of 100 cash and 50 Gas: a 30-mile trip burns 5 units; a
      9999-mile trip needs 1667 and is refused with nothing changed. */
  lemma TravelExample()
    ensures var inv := I.Inventory([I.Item("Gas", "Fuel", 50)], 100);
            var after := I.Inventory([I.Item("Gas", "Fuel", 45)], 100);
            var start := Stats(0, "Modesto");
            var moved := Stats(30, "Midway");
            && GasUnits(30) == 5 && GasUnits(9999) == 1667
            && UpdateStatus(start, inv, 30, "Midway", 30) == StatusUpdate(start, after, Error(StartsWithOnUndefined))
            && UpdateStatusIntended(start, inv, 30, "Midway", 30).stats == moved
            && UpdateStatusIntended(start, inv, 30, "Midway", 30).inv == after
            && UpdateStatusIntended(moved, after, 10, "Dest", 9999) == StatusUpdate(moved, after, Refused(RefusalMessage))
  {
    var inv := I.Inventory([I.Item("Gas", "Fuel", 50)], 100);
    var after := I.Inventory([I.Item("Gas", "Fuel", 45)], 100);
    assert I.Find(inv.items, "Gas") == Some(0);
    assert I.Find(after.items, "Gas") == Some(0);
    assert inv.items[0 := inv.items[0].(count := 45)] == after.items;
  }
}
