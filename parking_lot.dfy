/** First-free-spot allocation and per-type fees of parkinglot.cpp. */
module Parking {
  import opened Wrappers

  datatype VehicleKind = CarKind | BikeKind

  /** A vehicle by its id and type; the clock readings it keeps in the source
      are replaced by the duration passed to `Vacate`. */
  datatype Vehicle = Vehicle(uid: int, kind: VehicleKind)

  /** The fee strategy a spot is built with. */
  datatype FeeStrategy = CarFee | BikeFee

  /** CarFeeStrategy and BikeFeeStrategy: 10 and 5 per unit of duration. */
  function ParkingFee(strategy: FeeStrategy, duration: int): int {
    match strategy
    case CarFee => duration * 10
    case BikeFee => duration * 5
  }

  /** A car pays twice what a bike pays for the same stay, and neither fee
      falls as the stay grows or goes below 0 for a stay of 0 or more. */
  lemma FeesCompare(d1: int, d2: int)
    requires 0 <= d1 <= d2
    ensures ParkingFee(CarFee, d1) == 2 * ParkingFee(BikeFee, d1)
    ensures 0 <= ParkingFee(CarFee, d1) <= ParkingFee(CarFee, d2)
    ensures 0 <= ParkingFee(BikeFee, d1) <= ParkingFee(BikeFee, d2)
  {
  }

  // ---------------------------------------------------------------------------
  // A row of spots, seen as the vehicle each holds

  /** The first empty slot, or |slots| when every slot is taken. */
  function FirstFree(slots: seq<Option<Vehicle>>): (i: nat)
    ensures i <= |slots|
    ensures i < |slots| ==> slots[i].None?
    ensures forall j :: 0 <= j < i ==> slots[j].Some?
  {
    if slots == [] then 0 else if slots[0].None? then 0 else 1 + FirstFree(slots[1..])
  }

  /** The first taken slot, or |slots| when every slot is empty. */
  function FirstTaken(slots: seq<Option<Vehicle>>): (i: nat)
    ensures i <= |slots|
    ensures i < |slots| ==> slots[i].Some?
    ensures forall j :: 0 <= j < i ==> slots[j].None?
  {
    if slots == [] then 0 else if slots[0].Some? then 0 else 1 + FirstTaken(slots[1..])
  }

  /** How many slots hold a vehicle. */
  function Parked(slots: seq<Option<Vehicle>>): (n: nat)
    ensures n <= |slots|
  {
    if slots == [] then 0 else (if slots[0].Some? then 1 else 0) + Parked(slots[1..])
  }

  /** Filling an empty slot adds one parked vehicle; emptying a taken one removes one. */
  lemma {:induction false} ParkedAfterUpdate(slots: seq<Option<Vehicle>>, i: nat, x: Option<Vehicle>)
    requires i < |slots|
    ensures Parked(slots[i := x]) == Parked(slots) - (if slots[i].Some? then 1 else 0) + (if x.Some? then 1 else 0)
  {
    if i > 0 {
      assert slots[i := x][1..] == slots[1..][i - 1 := x];
      ParkedAfterUpdate(slots[1..], i - 1, x);
    } else {
      assert slots[i := x][1..] == slots[1..];
    }
  }

  /** Parking takes a free slot when there is one and then fills exactly one
      more; with no free slot every slot is taken. */
  lemma ParkingFillsOne(slots: seq<Option<Vehicle>>, v: Vehicle)
    ensures var i := FirstFree(slots);
      && (i < |slots| ==> Parked(slots[i := Some(v)]) == Parked(slots) + 1)
      && (i == |slots| <==> Parked(slots) == |slots|)
  {
    var i := FirstFree(slots);
    if i < |slots| {
      ParkedAfterUpdate(slots, i, Some(v));
      NotFullWhenFree(slots, i);
    } else {
      AllTakenIsFull(slots);
    }
  }

  /** Vacating frees a taken slot when there is one and then empties exactly
      one; with no taken slot the row is empty. */
  lemma VacatingFreesOne(slots: seq<Option<Vehicle>>)
    ensures var i := FirstTaken(slots);
      && (i < |slots| ==> Parked(slots[i := None]) == Parked(slots) - 1)
      && (i == |slots| <==> Parked(slots) == 0)
  {
    var i := FirstTaken(slots);
    if i < |slots| {
      ParkedAfterUpdate(slots, i, None);
      ParkedPositive(slots, i);
    } else {
      AllFreeIsEmpty(slots);
    }
  }

  lemma {:induction false} NotFullWhenFree(slots: seq<Option<Vehicle>>, i: nat)
    requires i < |slots| && slots[i].None?
    ensures Parked(slots) < |slots|
  {
    if i > 0 {
      NotFullWhenFree(slots[1..], i - 1);
    }
  }

  lemma {:induction false} ParkedPositive(slots: seq<Option<Vehicle>>, i: nat)
    requires i < |slots| && slots[i].Some?
    ensures Parked(slots) > 0
  {
    if i > 0 {
      ParkedPositive(slots[1..], i - 1);
    }
  }

  lemma {:induction false} AllTakenIsFull(slots: seq<Option<Vehicle>>)
    requires forall j :: 0 <= j < |slots| ==> slots[j].Some?
    ensures Parked(slots) == |slots|
  {
    if slots != [] {
      AllTakenIsFull(slots[1..]);
    }
  }

  lemma {:induction false} AllFreeIsEmpty(slots: seq<Option<Vehicle>>)
    requires forall j :: 0 <= j < |slots| ==> slots[j].None?
    ensures Parked(slots) == 0
  {
    if slots != [] {
      AllFreeIsEmpty(slots[1..]);
    }
  }

  // ---------------------------------------------------------------------------
  // The classes

  /** ParkingSpot: an occupancy flag, the vehicle and the fee strategy. */
  class ParkingSpot {
    var occupied: bool
    var vehicle: Option<Vehicle>
    const strategy: FeeStrategy

    ghost predicate Valid()
      reads this
    {
      occupied <==> vehicle.Some?
    }

    constructor (strategy: FeeStrategy)
      ensures Valid() && !occupied && vehicle == None && this.strategy == strategy
    {
      occupied := false;
      vehicle := None;
      this.strategy := strategy;
    }

    /** ParkingSpot::isAvailable: free exactly when no vehicle is parked. */
    predicate IsAvailable()
      reads this
      ensures Valid() ==> (IsAvailable() <==> vehicle.None?)
    {
      !occupied
    }

    /** ParkingSpot::park: an occupied spot refuses (the source throws) and
        stays as it was; a free one takes the vehicle. */
    method Park(v: Vehicle) returns (ok: bool)
      requires Valid()
      modifies this
      ensures Valid()
      ensures ok <==> !old(occupied)
      ensures ok ==> occupied && vehicle == Some(v)
      ensures !ok ==> occupied == old(occupied) && vehicle == old(vehicle)
    {
      if !IsAvailable() {
        return false;
      }
      occupied := true;
      vehicle := Some(v);
      return true;
    }

    /** ParkingSpot::vacate: an empty spot refuses (the source throws); an
        occupied one is freed and charges its strategy's fee for `duration`. */
    method Vacate(duration: int) returns (fee: Option<int>)
      requires Valid()
      modifies this
      ensures Valid()
      ensures fee.Some? <==> old(occupied)
      ensures fee.Some? ==> !occupied && vehicle == None && fee.value == ParkingFee(strategy, duration)
      ensures fee.None? ==> !occupied && vehicle == old(vehicle)
    {
      if IsAvailable() {
        return None;
      }
      occupied := false;
      fee := Some(ParkingFee(strategy, duration));
      vehicle := None;
    }
  }

  /** The vehicle each spot of a row holds. */
  function Slots(spots: seq<ParkingSpot>): (slots: seq<Option<Vehicle>>)
    reads set s | s in spots
    ensures |slots| == |spots|
    ensures forall j :: 0 <= j < |spots| ==> slots[j] == spots[j].vehicle
  {
    seq(|spots|, j reads set s | s in spots requires 0 <= j < |spots| => spots[j].vehicle)
  }

  /** The spots of a row are distinct objects, each valid and built with `strategy`. */
  ghost predicate ValidRow(spots: seq<ParkingSpot>, strategy: FeeStrategy)
    reads set s | s in spots
  {
    && (forall i, j :: 0 <= i < j < |spots| ==> spots[i] != spots[j])
    && (forall i :: 0 <= i < |spots| ==> spots[i].Valid() && spots[i].strategy == strategy)
  }

  /** ParkingLot: a row of car spots and a row of bike spots. */
  class ParkingLot {
    const cars: seq<ParkingSpot>
    const bikes: seq<ParkingSpot>

    ghost predicate Valid()
      reads this, set s | s in cars + bikes
    {
      && ValidRow(cars, CarFee)
      && ValidRow(bikes, BikeFee)
      && (forall i, j :: 0 <= i < |cars| && 0 <= j < |bikes| ==> cars[i] != bikes[j])
    }

    /** ParkingLot(cars, bikes): that many free car spots and bike spots (none
        for a negative count). */
    constructor (numCars: int, numBikes: int)
      ensures Valid()
      ensures |cars| == (if numCars < 0 then 0 else numCars) && |bikes| == (if numBikes < 0 then 0 else numBikes)
      ensures forall s :: s in cars + bikes ==> fresh(s)
      ensures Slots(cars) == seq(|cars|, _ => None) && Slots(bikes) == seq(|bikes|, _ => None)
    {
      var carSpots: seq<ParkingSpot> := [];
      for i := 0 to (if numCars < 0 then 0 else numCars)
        invariant |carSpots| == i
        invariant ValidRow(carSpots, CarFee)
        invariant forall s :: s in carSpots ==> fresh(s) && s.vehicle == None
      {
        var spot := new ParkingSpot(CarFee);
        carSpots := carSpots + [spot];
      }
      var bikeSpots: seq<ParkingSpot> := [];
      for j := 0 to (if numBikes < 0 then 0 else numBikes)
        invariant |bikeSpots| == j
        invariant ValidRow(bikeSpots, BikeFee)
        invariant forall s :: s in bikeSpots ==> fresh(s) && s.vehicle == None
        invariant forall s :: s in carSpots ==> s !in bikeSpots
        invariant ValidRow(carSpots, CarFee) && forall s :: s in carSpots ==> s.vehicle == None
      {
        var spot := new ParkingSpot(BikeFee);
        bikeSpots := bikeSpots + [spot];
      }
      assert Slots(carSpots) == seq(|carSpots|, _ => None);
      assert Slots(bikeSpots) == seq(|bikeSpots|, _ => None);
      cars := carSpots;
      bikes := bikeSpots;
    }

    /** ParkingLot::parkVehicle: a car goes to the first free car spot, any
        other vehicle to the first free bike spot; with none free nothing
        changes. The other row is never touched. */
    method ParkVehicle(v: Vehicle) returns (spot: Option<nat>)
      requires Valid()
      modifies set s | s in cars + bikes
      ensures Valid()
      ensures var row := if v.kind == CarKind then old(Slots(cars)) else old(Slots(bikes));
        var i := FirstFree(row);
        && spot == (if i < |row| then Some(i) else None)
        && (if v.kind == CarKind then Slots(cars) else Slots(bikes)) == (if i < |row| then row[i := Some(v)] else row)
      ensures v.kind == CarKind ==> Slots(bikes) == old(Slots(bikes))
      ensures v.kind != CarKind ==> Slots(cars) == old(Slots(cars))
    {
      var spots := if v.kind == CarKind then cars else bikes;
      for k := 0 to |spots|
        invariant forall j :: 0 <= j < k ==> spots[j].occupied
      {
        if spots[k].IsAvailable() {
          var ok := spots[k].Park(v);
          assert Slots(spots) == old(Slots(spots))[k := Some(v)];
          return Some(k);
        }
      }
      return None;
    }

    /** ParkingLot::vacateSpot: "Car" frees the first occupied car spot, any
        other type the first occupied bike spot, returning its fee for
        `duration`; with none occupied nothing changes. */
    method VacateSpot(vehicleType: string, duration: int) returns (fee: Option<int>)
      requires Valid()
      modifies set s | s in cars + bikes
      ensures Valid()
      ensures var row := if vehicleType == "Car" then old(Slots(cars)) else old(Slots(bikes));
        var i := FirstTaken(row);
        && (fee.Some? <==> i < |row|)
        && (fee.Some? ==> fee.value == ParkingFee(if vehicleType == "Car" then CarFee else BikeFee, duration))
        && (if vehicleType == "Car" then Slots(cars) else Slots(bikes)) == (if i < |row| then row[i := None] else row)
      ensures vehicleType == "Car" ==> Slots(bikes) == old(Slots(bikes))
      ensures vehicleType != "Car" ==> Slots(cars) == old(Slots(cars))
    {
      var spots := if vehicleType == "Car" then cars else bikes;
      for k := 0 to |spots|
        invariant forall j :: 0 <= j < k ==> !spots[j].occupied
      {
        if !spots[k].IsAvailable() {
          fee := spots[k].Vacate(duration);
          assert Slots(spots) == old(Slots(spots))[k := None];
          return fee;
        }
      }
      return None;
    }
  }
}
