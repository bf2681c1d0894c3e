/** The car availability map, reservations and price search of car-rental-system.cpp. */
module CarRental {
  import opened Wrappers

  /** Car: fixed details and a daily price; cars are told apart by identity,
      as the `shared_ptr` values that key the availability map are. */
  class Car {
    const maker: string
    const model: string
    const year: string
    const rentalPricePerDay: int

    constructor (c: string, m: string, y: string, rent: int)
      ensures maker == c && model == m && year == y && rentalPricePerDay == rent
    {
      maker := c;
      model := m;
      year := y;
      rentalPricePerDay := rent;
    }
  }

  datatype User = User(name: string, contactNumber: string, drivingLicenseNumber: string)

  /** Reservation: an id, the user, the car and the rental period. */
  class Reservation {
    const uid: int
    const user: User
    const car: Car
    const start: string
    const end: string

    constructor (id: int, u: User, c: Car, st: string, e: string)
      ensures uid == id && user == u && car == c && start == st && end == e
    {
      uid := id;
      user := u;
      car := c;
      start := st;
      end := e;
    }
  }

  predicate NoDuplicates(cars: seq<Car>) {
    forall i, j :: 0 <= i < j < |cars| ==> cars[i] != cars[j]
  }

  /** The cars a map marks available. */
  predicate AvailableIn(availability: map<Car, bool>, c: Car) {
    c in availability && availability[c]
  }

  /** CarAvailabilityService: which known cars are free to book. */
  class CarAvailabilityService {
    var carAvailability: map<Car, bool>

    constructor ()
      ensures carAvailability == map[]
    {
      carAvailability := map[];
    }

    /** addCar: the car becomes known and available, even if it was booked. */
    method AddCar(car: Car)
      modifies this
      ensures carAvailability == old(carAvailability)[car := true]
    {
      carAvailability := carAvailability[car := true];
    }

    /** removeCar: the car is forgotten; other cars keep their state. */
    method RemoveCar(car: Car)
      modifies this
      ensures carAvailability == old(carAvailability) - {car}
    {
      carAvailability := carAvailability - {car};
    }

    /** isAvailable: the car is known and not booked. */
    predicate IsAvailable(car: Car)
      reads this
      ensures IsAvailable(car) <==> AvailableIn(carAvailability, car)
      ensures car !in carAvailability ==> !IsAvailable(car)
    {
      car in carAvailability && carAvailability[car]
    }

    /** bookCar succeeds exactly for an available car, which it marks
        booked, so a second booking fails until the car is added again. */
    method BookCar(car: Car) returns (booked: bool)
      modifies this
      ensures booked <==> old(AvailableIn(carAvailability, car))
      ensures booked ==> carAvailability == old(carAvailability)[car := false] && !AvailableIn(carAvailability, car)
      ensures !booked ==> carAvailability == old(carAvailability)
    {
      if IsAvailable(car) {
        carAvailability := carAvailability[car := false];
        return true;
      }
      return false;
    }

    /** getAvailableCars: each car marked available, once. */
    method GetAvailableCars() returns (available: seq<Car>)
      ensures forall c :: c in available <==> AvailableIn(carAvailability, c)
      ensures NoDuplicates(available)
    {
      var remaining := carAvailability.Keys;
      available := [];
      while remaining != {}
        invariant remaining <= carAvailability.Keys
        invariant forall c :: c in available <==> AvailableIn(carAvailability, c) && c !in remaining
        invariant NoDuplicates(available)
        decreases |remaining|
      {
        var c :| c in remaining;
        if carAvailability[c] {
          available := available + [c];
        }
        remaining := remaining - {c};
      }
    }
  }

  /** RentalSystem: the facade over the availability service. */
  class RentalSystem {
    const availabilityService: CarAvailabilityService

    constructor ()
      ensures fresh(availabilityService) && availabilityService.carAvailability == map[]
    {
      availabilityService := new CarAvailabilityService();
    }

    method AddCar(car: Car)
      modifies availabilityService
      ensures availabilityService.carAvailability == old(availabilityService.carAvailability)[car := true]
    {
      availabilityService.AddCar(car);
    }

    method RemoveCar(car: Car)
      modifies availabilityService
      ensures availabilityService.carAvailability == old(availabilityService.carAvailability) - {car}
    {
      availabilityService.RemoveCar(car);
    }

    /** makeReservation books the reservation's car, failing when it is not available. */
    method MakeReservation(r: Reservation) returns (ok: bool)
      modifies availabilityService
      ensures ok <==> old(AvailableIn(availabilityService.carAvailability, r.car))
      ensures availabilityService.carAvailability ==
        if ok then old(availabilityService.carAvailability)[r.car := false] else old(availabilityService.carAvailability)
    {
      ok := availabilityService.BookCar(r.car);
    }

    /** getAllCars: despite its name, only the available cars. */
    method GetAllCars() returns (cars: seq<Car>)
      ensures forall c :: c in cars <==> AvailableIn(availabilityService.carAvailability, c)
      ensures NoDuplicates(cars)
    {
      cars := availabilityService.GetAvailableCars();
    }

    method GetAvailableCars() returns (cars: seq<Car>)
      ensures forall c :: c in cars <==> AvailableIn(availabilityService.carAvailability, c)
      ensures NoDuplicates(cars)
    {
      cars := availabilityService.GetAvailableCars();
    }

    /** searchCarsByPrice: the available cars whose daily price lies in
        [start, end], both ends included. */
    method SearchCarsByPrice(start: int, end: int) returns (res: seq<Car>)
      ensures forall c :: c in res <==>
        AvailableIn(availabilityService.carAvailability, c) && start <= c.rentalPricePerDay <= end
      ensures NoDuplicates(res)
    {
      var all := GetAllCars();
      res := [];
      for i := 0 to |all|
        invariant forall c :: c in res <==> c in all[..i] && start <= c.rentalPricePerDay <= end
        invariant forall j, k :: 0 <= j < k < |res| ==> res[j] != res[k]
        invariant forall c :: c in res ==> c in all[..i]
      {
        var car := all[i];
        assert all[..i + 1] == all[..i] + [car];
        if car.rentalPricePerDay >= start && car.rentalPricePerDay <= end {
          assert car !in all[..i];
          res := res + [car];
        }
      }
      assert all[..|all|] == all;
    }
  }

  /** CarRentalSystem: hands out reservation ids and charges on success. */
  class CarRentalSystem {
    const rental: RentalSystem
    var reservationCounter: int

    constructor (rentalSystem: RentalSystem)
      ensures rental == rentalSystem && reservationCounter == 0
    {
      rental := rentalSystem;
      reservationCounter := 0;
    }

    /** reserveCar: the counter advances on every call; only when the car is
        booked does a reservation with that id come back, with the car's
        daily price charged. */
    method ReserveCar(user: User, car: Car, start: string, end: string) returns (reservation: Reservation?, charged: Option<int>)
      modifies this, rental.availabilityService
      ensures reservationCounter == old(reservationCounter) + 1
      ensures reservation != null <==> old(AvailableIn(rental.availabilityService.carAvailability, car))
      ensures charged.Some? <==> reservation != null
      ensures reservation != null ==>
        && fresh(reservation) && reservation.uid == reservationCounter && reservation.car == car
        && reservation.user == user && reservation.start == start && reservation.end == end
        && charged.value == car.rentalPricePerDay
      ensures rental.availabilityService.carAvailability ==
        if reservation != null then old(rental.availabilityService.carAvailability)[car := false]
        else old(rental.availabilityService.carAvailability)
    {
      reservationCounter := reservationCounter + 1;
      var reservationId := reservationCounter;
      var r := new Reservation(reservationId, user, car, start, end);
      var ok := rental.MakeReservation(r);
      if ok {
        return r, Some(car.rentalPricePerDay);
      }
      return null, None;
    }
  }
}
