/** The cinema seat layout and first-available-seat booking of ticketBooking.cpp. */
module TicketBooking {

  datatype User = User(uid: int, name: string)

  /** The two booking strategies differ only in the message they print. */
  datatype BookingStrategy = PremiumBooking | GeneralBooking

  /** What a strategy leaves in a seat's `userId`: the booking user when the
      seat was free (0), the previous holder otherwise. */
  function BookedOwner(strategy: BookingStrategy, user: int, userId: int): (owner: int)
    ensures userId != 0 ==> owner == userId
    ensures userId == 0 ==> owner == user
  {
    match strategy
    case PremiumBooking => if userId == 0 then user else userId
    case GeneralBooking => if userId == 0 then user else userId
  }

  /** A seat as booking sees it: who holds it and its type. */
  datatype SeatState = SeatState(userId: int, seatType: string)

  /** The first free seat of the type, or |seats| when there is none. */
  function FirstOpen(seats: seq<SeatState>, seatType: string): (k: nat)
    ensures k <= |seats|
    ensures k < |seats| ==> seats[k].userId == 0 && seats[k].seatType == seatType
    ensures forall j :: 0 <= j < k ==> seats[j].userId != 0 || seats[j].seatType != seatType
  {
    if seats == [] then 0
    else if seats[0].userId == 0 && seats[0].seatType == seatType then 0
    else 1 + FirstOpen(seats[1..], seatType)
  }

  /** How many seats of the type are free. */
  function OpenCount(seats: seq<SeatState>, seatType: string): (n: nat)
    ensures n <= |seats|
  {
    if seats == [] then 0
    else (if seats[0].userId == 0 && seats[0].seatType == seatType then 1 else 0) + OpenCount(seats[1..], seatType)
  }

  lemma {:induction false} OpenCountAfterBooking(seats: seq<SeatState>, k: nat, user: int, seatType: string)
    requires k < |seats| && seats[k].userId == 0 && seats[k].seatType == seatType
    ensures OpenCount(seats[k := SeatState(user, seatType)], seatType) == OpenCount(seats, seatType) - (if user != 0 then 1 else 0)
  {
    var s := SeatState(user, seatType);
    if k > 0 {
      assert seats[k := s][1..] == seats[1..][k - 1 := s];
      OpenCountAfterBooking(seats[1..], k - 1, user, seatType);
    } else {
      assert seats[k := s][1..] == seats[1..];
    }
  }

  lemma {:induction false} NoneOpen(seats: seq<SeatState>, seatType: string)
    requires FirstOpen(seats, seatType) == |seats|
    ensures OpenCount(seats, seatType) == 0
  {
    if seats != [] {
      NoneOpen(seats[1..], seatType);
    }
  }

  /** Booking by a real user (id not 0) takes exactly one free seat of the
      type when there is one; there is none exactly when none is counted. */
  lemma BookingTakesOneSeat(seats: seq<SeatState>, user: int, seatType: string)
    ensures var k := FirstOpen(seats, seatType);
      && (k < |seats| ==> OpenCount(seats[k := SeatState(user, seatType)], seatType) == OpenCount(seats, seatType) - (if user != 0 then 1 else 0))
      && (k == |seats| ==> OpenCount(seats, seatType) == 0)
  {
    var k := FirstOpen(seats, seatType);
    if k < |seats| {
      OpenCountAfterBooking(seats, k, user, seatType);
    } else {
      NoneOpen(seats, seatType);
    }
  }

  /** Seat: its id, type and strategy, and the user holding it (0 for none). */
  class Seat {
    var userId: int
    const seatId: int
    const bookingStrategy: BookingStrategy
    const seatType: string

    constructor (id: int, strategy: BookingStrategy, s: string)
      ensures seatId == id && userId == 0 && bookingStrategy == strategy && seatType == s
    {
      seatId := id;
      userId := 0;
      bookingStrategy := strategy;
      seatType := s;
    }

    /** Seat::bookTicket: the strategy writes the holder through a reference. */
    method BookTicket(user: int)
      modifies this
      ensures userId == BookedOwner(bookingStrategy, user, old(userId))
    {
      userId := BookedOwner(bookingStrategy, user, userId);
    }

    /** Seat::isAvailable: nobody holds it, so a booking gives it to the
        booking user; a held seat keeps its holder whoever books. */
    predicate IsAvailable()
      reads this
      ensures IsAvailable() ==> forall u :: BookedOwner(bookingStrategy, u, userId) == u
      ensures !IsAvailable() ==> forall u :: BookedOwner(bookingStrategy, u, userId) == userId
    {
      userId == 0
    }
  }

  /** The state of each seat, in vector order. */
  function States(seats: seq<Seat>): (s: seq<SeatState>)
    reads set x | x in seats
    ensures |s| == |seats|
    ensures forall j :: 0 <= j < |seats| ==> s[j] == SeatState(seats[j].userId, seats[j].seatType)
  {
    seq(|seats|, j reads set x | x in seats requires 0 <= j < |seats| => SeatState(seats[j].userId, seats[j].seatType))
  }

  /** The layout the constructor builds: for i = 1..n, premium seat i and
      then general seat n + i, all free. */
  ghost predicate Layout(seats: seq<Seat>, n: int, count: int)
    reads set x | x in seats
  {
    && |seats| == 2 * count
    && forall k :: 0 <= k < count ==>
        && seats[2 * k].seatId == k + 1 && seats[2 * k].seatType == "Premium" && seats[2 * k].bookingStrategy == PremiumBooking
        && seats[2 * k + 1].seatId == n + k + 1 && seats[2 * k + 1].seatType == "General" && seats[2 * k + 1].bookingStrategy == GeneralBooking
  }

  /** Cinema: the seats, premium and general interleaved. */
  class Cinema {
    const seats: seq<Seat>

    /** No seat object appears twice. */
    ghost predicate Valid()
      reads this
    {
      forall i, j :: 0 <= i < j < |seats| ==> seats[i] != seats[j]
    }

    /** Cinema(n): 2n free seats laid out as `Layout` says (none for n < 1). */
    constructor (n: int)
      ensures Valid()
      ensures Layout(seats, n, if n < 0 then 0 else n)
      ensures forall s :: s in seats ==> fresh(s) && s.userId == 0
    {
      var built: seq<Seat> := [];
      var i := 1;
      while i <= n
        invariant 1 <= i && (n >= 0 ==> i <= n + 1) && (n < 0 ==> i == 1)
        invariant Layout(built, n, i - 1)
        invariant forall s :: s in built ==> fresh(s) && s.userId == 0
        invariant forall a, b :: 0 <= a < b < |built| ==> built[a] != built[b]
      {
        var premium := new Seat(i, PremiumBooking, "Premium");
        var general := new Seat(n + i, GeneralBooking, "General");
        built := built + [premium, general];
        i := i + 1;
      }
      seats := built;
    }

    /** Cinema::bookSeat: the first free seat of the type, in vector order,
        is booked for the user; no other seat changes, and with none free
        nothing changes. */
    method BookSeat(user: User, seatType: string) returns (found: bool)
      requires Valid()
      modifies set s | s in seats
      ensures var before := old(States(seats));
        var k := FirstOpen(before, seatType);
        && (found <==> k < |before|)
        && States(seats) == (if found then before[k := SeatState(user.uid, seatType)] else before)
    {
      found := false;
      for k := 0 to |seats|
        invariant forall j :: 0 <= j < k ==> !seats[j].IsAvailable() || seats[j].seatType != seatType
      {
        if seats[k].IsAvailable() && seats[k].seatType == seatType {
          found := true;
          seats[k].BookTicket(user.uid);
          assert States(seats) == old(States(seats))[k := SeatState(user.uid, seatType)];
          return;
        }
      }
    }
  }
}
