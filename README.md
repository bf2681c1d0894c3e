# Low-level design exercises, modelled in Dafny

This project models the state-changing core of a collection of C++
low-level-design exercises and proves properties of it. The main part is a
chess game: the movement rules of the six pieces, the board set-up, and the
turn logic that moves a piece, captures and keeps each player's roster. Ten
smaller systems sit beside it:

- an ATM with a greedy note dispenser and a login session;
- a vending machine state machine over an inventory;
- a parking lot with per-type spots and fees;
- a car-rental availability service;
- cinema seat booking;
- a snake-and-ladder game loop;
- a cricket scoreboard;
- a shopping cart;
- a library with loans and fines;
- a food-ordering service.

Each C++ file is one module:

| module | file |
|---|---|
| `ChessRules`, `ChessGame` | `chess_rules.dfy`, `chess_game.dfy` |
| `Atm` | `atm.dfy` |
| `Vending` | `vending_machine.dfy` |
| `Parking` | `parking_lot.dfy` |
| `CarRental` | `car_rental.dfy` |
| `TicketBooking` | `ticket_booking.dfy` |
| `SnakeAndLadder` | `snake_and_ladder.dfy` |
| `Cricket` | `cricket_score_board.dfy` |
| `Cart` | `cart_management.dfy` |
| `Library` | `library.dfy` |
| `Zomato` | `zomato.dfy` |

`Wrappers` (`wrappers.dfy`) holds the `Option` type the others share.

How the source's constructs map onto Dafny:

- Objects the source updates in place are classes with `modifies` clauses.
  Examples are the chess `Board`, `Player` and `Game`, the ATM's `Cash` and
  `AtmMachine`, and the parking spots.
- Every such method is tied to a specification function or to an explicit
  new state. What the source promises is then proved about those functions
  as lemmas.
- Values the source copies (an `Order`, a `Product`, a cart line) are
  datatypes.
- A `std::map` is a Dafny `map`. The ATM's ordered note store is a sequence
  of notes kept in ascending denomination order, because the dispenser
  depends on that order.
- A `nullptr` result becomes an `Option`, or a nullable class type where the
  source hands out the address of an object it stores.
- A thrown exception becomes a `false` or `None` result.
- Clock readings (`time(0)`, `steady_clock::now`), the dice roll and
  console output are left out. Durations, timestamps and rolls are
  parameters.

## Model

| member | source | states |
|---|---|---|
| ChessRules.RookIsValidMove | chess.cpp:33-58 | Accepts exactly a move along a file or a rank with every square strictly between empty, onto an empty square or an opposing piece. |
| ChessRules.IsValidMove | chess.cpp:419-420 | The strategy of a piece accepts exactly the rule of its kind: the rook, bishop and queen scans above; the knight's L-jump; the king's single step; and the pawn's single step, double step from row 1 or 6, or diagonal capture, each onto an empty square or an opposing piece where the rule allows. |
| ChessRules.PawnDoubleStepOnlyFromHomeRank | chess.cpp:79-83 | The colour-blind test `srr == 1 \|\| srr == 6` is equivalent to "two steps only from the pawn's own home rank" once the destination is on the board. |
| ChessRules.KnightIgnoresOtherSquares | chess.cpp:107-116 | A knight move's legality depends only on its source and destination squares, so the knight jumps over anything. |
| ChessRules.DiagonalScan | chess.cpp:137-144 | On a true diagonal of length at least one, the scan answers exactly whether every square strictly between is empty. |
| ChessRules.StopConditionAgreesOnDiagonals | chess.cpp:137-144 | The scan as written, with its stop condition `r != desr && c != desc`, never leaves the board on such a diagonal and reports Clear or Blocked exactly as the path is clear or not. |
| ChessRules.BishopIsValidMove | chess.cpp:133-147 | Accepts exactly a non-null diagonal move with every square between empty, onto an empty square or an opposing piece. |
| ChessRules.QueenStraightScan | chess.cpp:180-187 | The queen's straight-line scan answers exactly whether every square strictly between source and destination is empty. |
| ChessRules.QueenIsValidMove | chess.cpp:164-192 | Accepts exactly what the rook or the bishop rule accepts. |
| ChessRules.LegalMoveIsNotNull | chess.cpp:53-56 | No piece of any kind may move to its own square, because the destination then holds the mover's own colour. |
| ChessRules.LegalMoveLandsOnOpponentOrEmpty | chess.cpp:145-146 | Every legal move lands on an empty square or on a piece of the other colour. |
| ChessRules.InteriorPieceBlocksRook | chess.cpp:37-52 | Putting any piece on a square strictly between makes a rook move illegal. |
| ChessRules.InteriorPieceBlocksBishop | chess.cpp:140-141 | Putting any piece on a diagonal square strictly between makes a bishop move illegal. |
| ChessRules.InteriorPieceBlocksQueen | chess.cpp:171-172 | Putting any piece strictly between, on the line of the move, makes a queen move illegal. |
| ChessRules.NullDiagonalMoveLeavesBoard | chess.cpp:137-141 | As written, the null move of a bishop or queen on column 0 reads column -1 on the first step of the scan. |
| ChessGame.Board.constructor | chess.cpp:314-316 | The board starts with eight rows of eight empty squares. |
| ChessGame.Board.InitializeBoard | chess.cpp:318-329 | Pawns go on rows 1 (Black) and 6 (White), back ranks on rows 0 and 7 in the order rook, knight, bishop, queen, king, bishop, knight, rook; rows 2-5 are untouched. |
| ChessGame.SetUpFromEmpty | chess.cpp:314-329 | Setting up an empty board yields exactly the standard initial board. |
| ChessGame.InitialGridDistinct | chess.cpp:318-329 | The set-up never puts one piece on two squares. |
| ChessGame.Board.GetPieceAt | chess.cpp:343-347 | Gives the occupant of an on-board square and no piece for any off-board coordinates. |
| ChessGame.Board.MakeMove | chess.cpp:59-69 | A legal move puts the mover on the destination, empties the source and returns the former occupant of the destination; an illegal one changes nothing and returns no piece. |
| ChessGame.Player.AddPiece | chess.cpp:369-371 | Appends the piece to the roster. |
| ChessGame.Player.RemovePiece | chess.cpp:373-378 | Removes the first occurrence of the piece found by `std::find`; a piece not in the roster leaves it unchanged. |
| ChessGame.EraseAtFind | chess.cpp:374-377 | Erasing at the index `std::find` returns is removing the first occurrence. |
| ChessGame.RemoveFirstFromDistinct | chess.cpp:373-378 | From a roster without duplicates, removal drops exactly that piece, once, and keeps the roster duplicate-free. |
| ChessGame.Game.constructor | chess.cpp:397-410 | The game starts on the standard board with White to move; each roster holds exactly the 16 pieces of its colour in row-major order, once each. |
| ChessGame.InitialBoardPieces | chess.cpp:400-409 | The constructor's row-major scan collects exactly the initial roster of each colour. |
| ChessGame.InitialRosterExact | chess.cpp:397-410 | Each initial roster lists every piece of its colour on the initial board, and nothing else. |
| ChessGame.Game.ExecuteMove | chess.cpp:412-436 | Succeeds exactly when the source holds a piece of the side to move whose rule accepts the move. On failure nothing changes. On success the piece moves, the turn passes, a captured piece is always the opponent's and leaves its roster, and the rosters stay exact. |
| ChessGame.RosterAfterMove | chess.cpp:425-431 | After a move, removing the captured piece from its colour's roster keeps both rosters exact. |
| ChessGame.OnGridAfterMove | chess.cpp:425-434 | After a move a piece is on the board exactly when it was before and was not the captured one. |
| ChessGame.MovedIsDistinct | chess.cpp:425 | A move keeps every piece on at most one square. |
| Atm.User.AddMoney | atm.cpp:12-14 | Credits any amount. |
| Atm.User.WithdrawMoney | atm.cpp:15-21 | Debits exactly when the balance covers the amount, and reports whether it did. |
| Atm.Cash.AddMoney | atm.cpp:56-58 | Adds the count to the denomination, inserting it in order when new; only that denomination's count changes and the total value grows by val*cnt. |
| Atm.DepositAscending | atm.cpp:56-58 | Depositing keeps the note store in strictly ascending denomination order. |
| Atm.DepositCount | atm.cpp:57 | A deposit changes the count of its own denomination only. |
| Atm.DepositTotal | atm.cpp:57 | A deposit raises the total cash by val*cnt. |
| Atm.Cash.CanProcess | atm.cpp:59-72 | Rebuilds the plan greedily from the smallest denomination up; succeeds exactly when the plan pays the whole amount; the plan never takes more notes of a denomination than are stocked. |
| Atm.GreedyPaysAmount | atm.cpp:59-72 | The planned notes plus what is left unpaid always add up to the amount asked for. |
| Atm.GreedyWithinStock | atm.cpp:62-69 | The plan takes between 0 and the stocked count of each denomination and names only stocked denominations. |
| Atm.PlanLeavesEarlierDenominations | atm.cpp:62-69 | Planning from a later denomination on never touches the earlier ones. |
| Atm.SmallestDenominationFirst | atm.cpp:59-72 | With 100x20, 200x10 and 500x10 stocked, 700 is paid as seven 100 notes, because the scan starts from the smallest note. |
| Atm.Cash.PerformTransaction | atm.cpp:73-78 | Takes each planned count off its denomination and clears the plan; the total cash falls by the value of the plan. |
| Atm.SubtractTotal | atm.cpp:73-78 | Subtracting a plan lowers the total by the plan's value. |
| Atm.Cash.GetTotalCash | atm.cpp:79-85 | Returns the sum of denomination times count over the store. |
| Atm.AtmMachine.AddUser | atm.cpp:117-119 | Appends a fresh account with the given details; nothing else changes. |
| Atm.AtmMachine.EnterCard | atm.cpp:120-135 | Only the first account with the number is tried: a matching PIN logs it in (ACTIVE); a wrong PIN or an unknown number changes nothing. |
| Atm.AtmMachine.WithdrawMoney | atm.cpp:136-151 | Without a login nothing happens. Otherwise the machine's cash is checked before the balance, then the account is debited and the notes are paid out. The outcome names which check failed, and a withdrawal lowers the cash by exactly the amount. |
| Atm.AtmMachine.DepositMoney | atm.cpp:152-160 | With a login, the balance gets the whole amount and the store gets amount/500 notes of 500, truncated as in C++; without one nothing changes. |
| Atm.TruncDiv | atm.cpp:158 | Division truncating toward zero, as C++ `/` does: the quotient times the divisor lies between 0 and the dividend, less than one divisor away from it, for either sign of the dividend. |
| Atm.AtmMachine.CheckBalance | atm.cpp:161-167 | Shows the balance exactly when someone is logged in. |
| Atm.AtmMachine.Logout | atm.cpp:168-176 | ACTIVE becomes IDLE and forgets the user; in IDLE nothing changes. |
| Vending.GetProduct | vendingMachine.cpp:49-52 | A known id gives the stored product; an unknown id gives the default product, with id 0 and price 0. In a well-keyed stock the id is 0 exactly when the id is unknown (or is 0 itself). |
| Vending.IsAvailable | vendingMachine.cpp:44-47 | Only a stocked id can be available, and an available product has at least one unit and is looked up as the stored product. |
| Vending.AddThenLookUp | vendingMachine.cpp:39-52 | After stocking a product it is looked up as stocked and available exactly when its quantity is positive; other ids read as before. |
| Vending.Inventory.AddProduct | vendingMachine.cpp:39-42 | Files the product under its id, replacing any earlier entry. |
| Vending.Inventory.DispenseProduct | vendingMachine.cpp:54-60 | One unit fewer when available, otherwise nothing; no quantity drops below 0 and other entries are untouched. |
| Vending.VendingMachine.EnterCash | vendingMachine.cpp:79-91 | Accepted only in IDLE, which it leaves for ACTIVE with the amount added. |
| Vending.VendingMachine.ChooseProduct | vendingMachine.cpp:93-117 | Outside ACTIVE nothing happens. An unavailable product or a balance below the price refunds to 0 and IDLE. Otherwise one unit is sold and the change stays in the balance, except that a product filed under id 0 leaves the machine in DISPENSING with nothing sold. |
| Vending.VendingMachine.DispenseProduct | vendingMachine.cpp:119-129 | A known product loses one unit of stock, its price leaves the balance and the machine goes IDLE; the default product (id 0) changes nothing. |
| Vending.VendingMachine.Refund | vendingMachine.cpp:131-136 | The balance goes to 0 and the machine to IDLE. |
| Parking.FeesCompare | parkinglot.cpp:63-76 | A car pays 10 and a bike 5 per unit of duration: twice as much, non-negative, and never less for a longer stay. |
| Parking.ParkingSpot.Park | parkinglot.cpp:88-93 | A free spot takes the vehicle; an occupied one refuses (the source throws) and keeps its vehicle. |
| Parking.ParkingSpot.IsAvailable | parkinglot.cpp:85-87 | A spot is free exactly when no vehicle is parked in it. |
| Parking.ParkingSpot.Vacate | parkinglot.cpp:94-101 | An occupied spot is emptied and charges its strategy's fee for the duration; an empty one refuses. |
| Parking.ParkingLot.constructor | parkinglot.cpp:110-117 | Builds that many distinct free car spots and bike spots (none for a negative count). |
| Parking.ParkingLot.ParkVehicle | parkinglot.cpp:126-136 | A car takes the first free car spot and anything else the first free bike spot; with none free nothing changes; the other row is untouched. |
| Parking.ParkingFillsOne | parkinglot.cpp:126-136 | Parking fills exactly one spot when one is free, and there is none free only when the row is full. |
| Parking.ParkingLot.VacateSpot | parkinglot.cpp:137-147 | "Car" frees the first occupied car spot, any other string the first occupied bike spot, returning its fee; with none occupied nothing changes. |
| Parking.VacatingFreesOne | parkinglot.cpp:137-147 | Vacating frees exactly one spot when one is taken, and none is taken only when the row is empty. |
| CarRental.CarAvailabilityService.AddCar | car-rental-system.cpp:88 | The car becomes known and available, even if it was booked. |
| CarRental.CarAvailabilityService.RemoveCar | car-rental-system.cpp:89 | The car is forgotten; every other car keeps its state. |
| CarRental.CarAvailabilityService.BookCar | car-rental-system.cpp:94-102 | Succeeds exactly for an available car, which becomes booked, so a second booking fails. |
| CarRental.CarAvailabilityService.IsAvailable | car-rental-system.cpp:90-93 | A car is available exactly when it is known and not booked; an unknown car is never available. |
| CarRental.CarAvailabilityService.GetAvailableCars | car-rental-system.cpp:103-110 | Lists each available car exactly once and no other car. |
| CarRental.RentalSystem.MakeReservation | car-rental-system.cpp:131-137 | Books the reservation's car, failing without change when it is not available. |
| CarRental.RentalSystem.AddCar | car-rental-system.cpp:129 | Forwards to the availability service: the car becomes known and available. |
| CarRental.RentalSystem.RemoveCar | car-rental-system.cpp:130 | Forwards to the availability service: the car is forgotten and every other car keeps its state. |
| CarRental.RentalSystem.GetAvailableCars | car-rental-system.cpp:147 | Lists each available car exactly once and no other car. |
| CarRental.RentalSystem.GetAllCars | car-rental-system.cpp:146 | Despite its name, lists exactly the available cars. |
| CarRental.RentalSystem.SearchCarsByPrice | car-rental-system.cpp:138-145 | Lists exactly the available cars whose daily price lies in [start, end], both ends included, each once. |
| CarRental.CarRentalSystem.ReserveCar | car-rental-system.cpp:160-176 | The counter advances on every call. A reservation with that id, charged the car's daily price, is returned exactly when the car was available, and the car is then booked. |
| TicketBooking.BookedOwner | ticketBooking.cpp:97-117 | Either strategy writes the user into a free seat and leaves a held seat with its holder. |
| TicketBooking.Seat.BookTicket | ticketBooking.cpp:48-50 | The seat's holder becomes what its strategy decides. |
| TicketBooking.Seat.IsAvailable | ticketBooking.cpp:52-54 | A free seat is one that a booking gives to the booking user, whoever it is; a held seat keeps its holder whoever books. |
| TicketBooking.Cinema.constructor | ticketBooking.cpp:125-130 | Builds 2n distinct free seats, premium i then general n+i for i = 1..n. |
| TicketBooking.Cinema.BookSeat | ticketBooking.cpp:138-150 | Books the first free seat of the type in vector order and no other seat; with none free nothing changes. |
| TicketBooking.BookingTakesOneSeat | ticketBooking.cpp:138-150 | Booking removes exactly one free seat of the type when there is one; there is none exactly when no free seat of the type is counted. |
| TicketBooking.FirstOpen | ticketBooking.cpp:140-141 | The first seat that is free and of the requested type, all earlier ones being held or of another type. |
| SnakeAndLadder.StepQueue | snakeAndLadder.cpp:57-78 | A turn drops the player from the queue exactly when it lands on 100, and otherwise sends it to the back. |
| SnakeAndLadder.Board.PlayTurn | snakeAndLadder.cpp:58-78 | One turn: below 100 the player moves; exactly 100 wins; above 100 it stays. The ladders are then taken in order, then the snakes, and the player rejoins the queue. |
| SnakeAndLadder.StepStaysOnBoard | snakeAndLadder.cpp:58-77 | With non-negative rolls and every jump ending on the board, all positions stay between 0 and 99. |
| SnakeAndLadder.Board.StartGame | snakeAndLadder.cpp:56-80 | Plays turns while more than one player is queued and a roll remains; the result is the game run over those rolls. |
| SnakeAndLadder.RunShrinksQueue | snakeAndLadder.cpp:57-78 | No turn adds a player, and the queue loses at most one player per roll. |
| Cricket.Player.AddRuns | cricketScoreBoard.cpp:29-32 | Adds the runs and one ball faced; the bowling counters are untouched. |
| Cricket.Player.GiveRuns | cricketScoreBoard.cpp:33-36 | Adds to the runs conceded and one ball bowled; the batting counters are untouched. |
| Cricket.Player.TakeWicket | cricketScoreBoard.cpp:37-39 | One more wicket and nothing else. |
| Cricket.Team.AddPlayer | cricketScoreBoard.cpp:50-56 | A full team (11 players) refuses, and otherwise the player is appended, so a team never exceeds 11. |
| Cricket.UpdateScore | cricketScoreBoard.cpp:72-81 | A run event adds its runs and leaves the wickets; a wicket event adds one wicket and leaves the runs. |
| Cricket.ReplayTotals | cricketScoreBoard.cpp:72-81 | Any sequence of events adds the sum of its runs and the number of its wickets to the score, whatever their order. |
| Cricket.CreateScoringEvent | cricketScoreBoard.cpp:86-92 | "RUN" and "WICKET" give their event; any other type string gives none. |
| Cricket.ScoreBoard.Update | cricketScoreBoard.cpp:114-118 | Copies both totals. |
| Cricket.Match.NotifyObservers | cricketScoreBoard.cpp:139-143 | Afterwards every observer shows the match totals. |
| Cricket.Match.AddObserver | cricketScoreBoard.cpp:135-137 | Appends the score board to the observers; the totals are unchanged. |
| Cricket.Match.AddScoringEvent | cricketScoreBoard.cpp:145-150 | A missing event changes nothing. Otherwise the event updates the totals and every observer is told. |
| Cart.ShoppingCart.AddProduct | cart-management.cpp:48-59 | The cart becomes the added cart: an existing line keeps its product and grows by the quantity; a new id gets a line with the quantity; other lines are untouched. |
| Cart.Added | cart-management.cpp:50-58 | The added cart holds the old ids plus the product's, with the quantity summed on an existing line and every other line unchanged. |
| Cart.AddTwiceIsAddSum | cart-management.cpp:50-58 | Two adds of the same product equal one add of the summed quantity. |
| Cart.AddsCommute | cart-management.cpp:50-58 | Adds of different products commute. |
| Cart.ShoppingCart.RemoveProduct | cart-management.cpp:60-63 | Erases the id, is a no-op for an absent id and leaves every other line unchanged. |
| Cart.RemoveUndoesNewAdd | cart-management.cpp:48-63 | Removing a product just added to a cart that did not hold it gives the cart back. |
| Cart.CartManager.AddProduct | cart-management.cpp:117-120 | Forwards unchanged to the cart. |
| Cart.CartManager.RemoveProduct | cart-management.cpp:121-124 | Forwards unchanged to the cart. |
| Library.DueDate | library.cpp:56-60 | The due date is the issue time plus the borrow duration in whole days of 86400 seconds. |
| Library.BookItem.constructor | library.cpp:56-60 | A copy issued at `now` to the user is due `DueDate(now, duration)`. |
| Library.FineAsWritten | library.cpp:81-85 | The fine as the source computes it: 0 when returned by the due date, never negative. |
| Library.OneDayLateAsWritten | library.cpp:83-84 | As written, a return one day late is charged 129600000 units. |
| Library.Fine | library.cpp:81-85 | The per-day fine: 0 when returned by the due date, never negative. |
| Library.FinePerDay | library.cpp:81-85 | Returning d whole days (plus less than a day) late costs 10*d. |
| Library.FineMonotone | library.cpp:81-85 | Returning later never costs less. |
| Library.OverdueAndFine | library.cpp:61-64 | A copy that is not overdue costs nothing, and one a whole day overdue costs at least 10. |
| Library.BookItem.IsOverDue | library.cpp:61-64 | A copy that is not overdue costs no fine, under the formula as written and under the per-day one. |
| Library.User.Borrow | library.cpp:11-13 | Appends the copy to the user's list. |
| Library.User.ReturnBook | library.cpp:14-20 | Charges what the given fine calculator computes from the copy's due date and the return time, and removes every occurrence of the copy from the list, keeping the order of the rest. |
| Library.RemoveAllMultiset | library.cpp:17 | The erase-remove idiom drops every occurrence of the copy and keeps every other element with its multiplicity. |
| Library.RemoveAllMembers | library.cpp:17 | An element remains exactly when it was there and is not the removed copy. |
| Library.Library.AddBook | library.cpp:94-96 | Appends the book to the catalogue. |
| Library.Library.CreateUser | library.cpp:97-99 | Appends the user to the members. |
| Library.Library.BorrowBook | library.cpp:100-104 | A new copy issued at `now` is filed under the book id, replacing any earlier one, and appended to the user's list. |
| Library.Library.ReturnBook | library.cpp:105-111 | Nothing happens without a copy filed under the book id. Otherwise the user is charged what the given calculator computes for that copy (`FineAsWritten` is the source's only calculator), loses every occurrence of it, and the entry is erased. |
| Zomato.OrderCounter.NewOrder | zomato.cpp:17-20 | A new order starts PLACED with the next id, greater than every id issued before. |
| Zomato.IssuedIdsIncrease | zomato.cpp:10-20 | Issued ids start at 1 and strictly increase, so no two orders share an id. |
| Zomato.UpdateStatus | zomato.cpp:22-25 | Sets any status unconditionally and changes nothing else. |
| Zomato.StatusString | zomato.cpp:27-35 | Every status has a name; "UNKNOWN" is never returned. |
| Zomato.StatusStringInjective | zomato.cpp:27-35 | Distinct statuses have distinct names. |
| Zomato.Restaurant.AcceptOrder | zomato.cpp:47-51 | The caller's order becomes PREPARING and a copy of it is appended to the restaurant's orders. |
| Zomato.DeliverOrder | zomato.cpp:60-64 | The order ends DELIVERED, with every other field unchanged. |
| Zomato.User.PlaceOrder | zomato.cpp:73-78 | A new order of this user at the restaurant, with the next id, is accepted there; the caller gets its own PREPARING copy. |
| Zomato.ZomatoSystem.AddRestaurant | zomato.cpp:94-96 | A new name gets a new restaurant without orders. A known name has its stored restaurant overwritten in place with the new menu and no orders, so a restaurant found earlier sees the reset. Every other restaurant is untouched, and each restaurant stays under its own name. |
| Zomato.ZomatoSystem.FindRestaurant | zomato.cpp:98-101 | Gives the restaurant object stored under the name, which carries that name, or null for an unknown name. |

## Left out

- Console output, the `display`/`show` functions, `Game::play` and every `main`: they only print.
- Singletons and their locking (`getInstance`, `once_flag`, `mutex`): the classes are modelled as ordinary objects.
- Heap management (`new`/`delete`, destructors), virtual dispatch and the piece and seat factories: a datatype or a constructor argument takes their place.
- The chess pieces' stored row and column, which the source never updates after construction.
- Check, checkmate, stalemate, castling, en passant and promotion, which the source does not implement.
- ChessGame.Game.ExecuteMove: requires the destination to be on the board. The source reads `board[desr][desc]` without a bounds check once a piece's geometric test passes, which is undefined behaviour. The requirement also excludes off-board destinations that the source rejects cleanly before any read, such as a knight from (0,0) to (9,9) or a rook move sharing neither file nor rank (chess.cpp:33-35, 110-111).
- Atm.Cash.AddMoney: requires a positive denomination, which every caller in the source passes (500, 200, 100).
- 32-bit `int` overflow in every counter, balance, fee and fine is not modelled; all arithmetic is on unbounded integers.
- Library.FineAsWritten: the conversion of the `time_t` difference to `int` is not modelled.
- The floating-point prices and totals of the cart (`getPrice`, `getTotalPrice`, `getTotal`, `checkout`).
- Payment strategies that only print (car rental, cart).
- The iteration order of `unordered_map` and of `std::map` keyed by `shared_ptr`: the car-availability lists are specified by their contents, not their order.
- Clock reads: parking durations, loan timestamps and return times are parameters.
- `Dice::rollDice` randomness: rolls are an input sequence; `PossibleRoll` bounds them to the dice's range.
- `ScoreBoard` is the only observer class, so the observer list holds score boards.
- `delete bookItem` in `User::returnBook`: the freed copy may still be referenced by another user's list in the source; the model keeps it as an object.
- feedback.cpp as a whole: an observer demo that only prints.
- zomato.cpp as written does not compile: `restaurants[name] = ...` in `addRestaurant` needs a default constructor, which `Restaurant` lacks. The model takes the evident meaning of that assignment.
- The `FineCalculator` class hierarchy: the calculator is a function parameter of the two `ReturnBook` methods.

## Findings

| source | as written | input that shows it | evidently intended | confidence | as-written member | corrected member |
|---|---|---|---|---|---|---|
| chess.cpp:137-144 | The diagonal scan of BishopMove and QueenMove steps -1 in both coordinates on a null move (source = destination), and its stop condition never holds, so it walks off the board. | a bishop on column 0, row r, moved to column 0, row r: the first step reads `board[r-1][-1]` | a null move is rejected, as the rook and king rules reject it | high (not executed) | ChessRules.NullDiagonalMoveLeavesBoard | ChessRules.BishopIsValidMove |
| library.cpp:83 | `(returnDate - dueDate) / 24 * 60 * 60` divides by 24 and then multiplies by 3600. | a return exactly one day (86400 s) late is charged 129600000 units | 10 units per whole day late, dividing by 86400 | high (not executed) | Library.OneDayLateAsWritten | Library.FinePerDay |
