/** The cash dispenser and the session state machine of atm.cpp. */
module Atm {
  import opened Wrappers

  // ---------------------------------------------------------------------------
  // The note store: std::map<int, int> from denomination to count, kept here as
  // a list in ascending denomination order, the order in which the map is walked.

  datatype Note = Note(denomination: int, count: int)

  /** Denominations are positive and strictly ascending, so each occurs once. */
  predicate Ascending(notes: seq<Note>) {
    && (forall i :: 0 <= i < |notes| ==> notes[i].denomination > 0)
    && (forall i, j :: 0 <= i < j < |notes| ==> notes[i].denomination < notes[j].denomination)
  }

  /** The store has an entry for denomination `d`. */
  predicate Stocks(notes: seq<Note>, d: int) {
    exists i :: 0 <= i < |notes| && notes[i].denomination == d
  }

  /** `money[d]`: the count stored for `d`, 0 when there is no entry. */
  function Count(notes: seq<Note>, d: int): int {
    if notes == [] then 0
    else if notes[0].denomination == d then notes[0].count
    else Count(notes[1..], d)
  }

  /** `transaction[d]` read without inserting: 0 when there is no entry. */
  function Get(t: map<int, int>, d: int): int {
    if d in t then t[d] else 0
  }

  /** The cash the store holds: the sum of denomination times count. */
  function Total(notes: seq<Note>): int {
    if notes == [] then 0 else notes[0].denomination * notes[0].count + Total(notes[1..])
  }

  /** The cash a plan hands out: the sum of denomination times planned count. */
  function Value(notes: seq<Note>, t: map<int, int>): int {
    if notes == [] then 0 else notes[0].denomination * Get(t, notes[0].denomination) + Value(notes[1..], t)
  }

  /** `money[val] += cnt`: adds to an existing entry, or inserts one in order. */
  function Deposit(notes: seq<Note>, val: int, cnt: int): seq<Note> {
    if notes == [] then [Note(val, cnt)]
    else if notes[0].denomination == val then [Note(val, notes[0].count + cnt)] + notes[1..]
    else if val < notes[0].denomination then [Note(val, cnt)] + notes
    else [notes[0]] + Deposit(notes[1..], val, cnt)
  }

  /** The store after each planned count is taken off its denomination. */
  function Subtract(notes: seq<Note>, t: map<int, int>): (r: seq<Note>)
    ensures |r| == |notes|
  {
    seq(|notes|, i requires 0 <= i < |notes| => Note(notes[i].denomination, notes[i].count - Get(t, notes[i].denomination)))
  }

  // ---------------------------------------------------------------------------
  // The greedy planner of canProcess

  /** A partial plan: notes taken so far, and the amount still to pay. */
  datatype Plan = Plan(taken: map<int, int>, remainder: int)

  /** The inner loop for one denomination `d` with `count` notes: it takes a
      note while the remainder covers it and the local count is non-zero. */
  function TakeDenomination(d: int, count: int, p: Plan): Plan
    requires d > 0
    decreases p.remainder
  {
    if p.remainder >= d && count != 0 then
      TakeDenomination(d, count - 1, Plan(p.taken[d := Get(p.taken, d) + 1], p.remainder - d))
    else p
  }

  /** The outer loop from entry `i` on, in ascending denomination order. */
  function PlanFrom(notes: seq<Note>, i: nat, p: Plan): Plan
    requires Ascending(notes)
    decreases |notes| - i
  {
    if i >= |notes| then p
    else PlanFrom(notes, i + 1, TakeDenomination(notes[i].denomination, notes[i].count, p))
  }

  /** The plan canProcess builds for `amount`, starting from an empty transaction. */
  function Greedy(notes: seq<Note>, amount: int): Plan
    requires Ascending(notes)
  {
    PlanFrom(notes, 0, Plan(map[], amount))
  }

  // ---------------------------------------------------------------------------
  // What the planner guarantees

  lemma {:induction false} ValueOfEmptyPlan(notes: seq<Note>)
    ensures Value(notes, map[]) == 0
  {
    if notes != [] {
      ValueOfEmptyPlan(notes[1..]);
    }
  }

  /** One more note of a stocked denomination `d` adds `d` to the plan's value. */
  lemma {:induction false} ValueBump(notes: seq<Note>, t: map<int, int>, d: int)
    requires Ascending(notes) && Stocks(notes, d)
    ensures Value(notes, t[d := Get(t, d) + 1]) == Value(notes, t) + d
  {
    var t' := t[d := Get(t, d) + 1];
    if notes[0].denomination == d {
      forall i | 0 <= i < |notes[1..]|
        ensures notes[1..][i].denomination != d
      {
        assert notes[1..][i] == notes[i + 1];
      }
      ValueUnaffected(notes[1..], t, d, Get(t, d) + 1);
      assert d * (Get(t, d) + 1) == d * Get(t, d) + d;
    } else {
      assert Stocks(notes[1..], d) by {
        var i :| 0 <= i < |notes| && notes[i].denomination == d;
        assert notes[1..][i - 1].denomination == d;
      }
      ValueBump(notes[1..], t, d);
    }
  }

  /** A planned count for a denomination the store lacks does not count. */
  lemma {:induction false} ValueUnaffected(notes: seq<Note>, t: map<int, int>, d: int, v: int)
    requires !Stocks(notes, d)
    ensures Value(notes, t[d := v]) == Value(notes, t)
  {
    if notes != [] {
      assert notes[0].denomination != d;
      forall i | 0 <= i < |notes[1..]|
        ensures notes[1..][i].denomination != d
      {
        assert notes[1..][i] == notes[i + 1];
      }
      ValueUnaffected(notes[1..], t, d, v);
    }
  }

  /** Taking notes of a stocked denomination moves value from the remainder to the plan. */
  lemma {:induction false} TakeAccounts(notes: seq<Note>, d: int, count: int, p: Plan)
    requires Ascending(notes) && Stocks(notes, d) && d > 0
    ensures var q := TakeDenomination(d, count, p);
      Value(notes, q.taken) + q.remainder == Value(notes, p.taken) + p.remainder
    decreases p.remainder
  {
    if p.remainder >= d && count != 0 {
      ValueBump(notes, p.taken, d);
      TakeAccounts(notes, d, count - 1, Plan(p.taken[d := Get(p.taken, d) + 1], p.remainder - d));
    }
  }

  lemma {:induction false} PlanAccounts(notes: seq<Note>, i: nat, p: Plan)
    requires Ascending(notes)
    ensures var q := PlanFrom(notes, i, p);
      Value(notes, q.taken) + q.remainder == Value(notes, p.taken) + p.remainder
    decreases |notes| - i
  {
    if i < |notes| {
      TakeAccounts(notes, notes[i].denomination, notes[i].count, p);
      PlanAccounts(notes, i + 1, TakeDenomination(notes[i].denomination, notes[i].count, p));
    }
  }

  /** The plan hands out the amount less what it could not pay; in
      particular, a plan that leaves nothing pays exactly the amount. */
  lemma GreedyPaysAmount(notes: seq<Note>, amount: int)
    requires Ascending(notes)
    ensures Value(notes, Greedy(notes, amount).taken) + Greedy(notes, amount).remainder == amount
    ensures Greedy(notes, amount).remainder == 0 ==> Value(notes, Greedy(notes, amount).taken) == amount
  {
    ValueOfEmptyPlan(notes);
    PlanAccounts(notes, 0, Plan(map[], amount));
  }

  /** One denomination's inner loop takes at most `count` notes when
      `count` is not negative, and touches no other denomination. */
  lemma {:induction false} TakeWithinCount(d: int, count: int, p: Plan)
    requires d > 0
    ensures var q := TakeDenomination(d, count, p);
      && Get(p.taken, d) <= Get(q.taken, d)
      && (count >= 0 ==> Get(q.taken, d) <= Get(p.taken, d) + count)
      && (forall e :: e != d ==> Get(q.taken, e) == Get(p.taken, e))
      && (forall e :: e in q.taken ==> e in p.taken || e == d)
    decreases p.remainder
  {
    if p.remainder >= d && count != 0 {
      TakeWithinCount(d, count - 1, Plan(p.taken[d := Get(p.taken, d) + 1], p.remainder - d));
    }
  }

  lemma {:induction false} PlanWithinStock(notes: seq<Note>, i: nat, p: Plan)
    requires Ascending(notes)
    ensures var q := PlanFrom(notes, i, p);
      && (forall e :: Get(p.taken, e) <= Get(q.taken, e))
      && (forall j :: i <= j < |notes| && notes[j].count >= 0 ==>
            Get(q.taken, notes[j].denomination) <= Get(p.taken, notes[j].denomination) + notes[j].count)
      && (forall e :: e in q.taken ==> e in p.taken || Stocks(notes, e))
    decreases |notes| - i
  {
    if i < |notes| {
      var d := notes[i].denomination;
      var p' := TakeDenomination(d, notes[i].count, p);
      TakeWithinCount(d, notes[i].count, p);
      PlanWithinStock(notes, i + 1, p');
      var q := PlanFrom(notes, i + 1, p');
      assert PlanFrom(notes, i, p) == q;
      forall e
        ensures Get(p.taken, e) <= Get(q.taken, e)
      {
      }
      forall j | i <= j < |notes| && notes[j].count >= 0
        ensures Get(q.taken, notes[j].denomination) <= Get(p.taken, notes[j].denomination) + notes[j].count
      {
        if j == i {
          PlanLeavesEarlierDenominations(notes, i + 1, p', d);
        }
      }
    }
  }

  /** Entries from `i` on never touch a denomination below notes[i]. */
  lemma {:induction false} PlanLeavesEarlierDenominations(notes: seq<Note>, i: nat, p: Plan, d: int)
    requires Ascending(notes)
    requires i < |notes| ==> d < notes[i].denomination
    ensures Get(PlanFrom(notes, i, p).taken, d) == Get(p.taken, d)
    decreases |notes| - i
  {
    if i < |notes| {
      TakeWithinCount(notes[i].denomination, notes[i].count, p);
      PlanLeavesEarlierDenominations(notes, i + 1, TakeDenomination(notes[i].denomination, notes[i].count, p), d);
    }
  }

  /** The plan never asks for more notes of a denomination than are stocked,
      and names only stocked denominations. */
  lemma GreedyWithinStock(notes: seq<Note>, amount: int)
    requires Ascending(notes)
    ensures forall j :: 0 <= j < |notes| && notes[j].count >= 0 ==>
      0 <= Get(Greedy(notes, amount).taken, notes[j].denomination) <= notes[j].count
    ensures forall e :: e in Greedy(notes, amount).taken ==> Stocks(notes, e)
  {
    PlanWithinStock(notes, 0, Plan(map[], amount));
  }

  /** Denominations are walked smallest first: with 20 x 100, 10 x 200 and
      10 x 500 stocked, 700 is paid in seven 100-notes. */
  lemma SmallestDenominationFirst()
    ensures Greedy([Note(100, 20), Note(200, 10), Note(500, 10)], 700) == Plan(map[100 := 7], 0)
  {
    var notes := [Note(100, 20), Note(200, 10), Note(500, 10)];
    var done := Plan(map[100 := 7], 0);
    assert TakeDenomination(100, 13, done) == done;
    assert map[100 := 6][100 := Get(map[100 := 6], 100) + 1] == map[100 := 7];
    assert TakeDenomination(100, 14, Plan(map[100 := 6], 100)) == done;
    assert map[100 := 5][100 := Get(map[100 := 5], 100) + 1] == map[100 := 6];
    assert TakeDenomination(100, 15, Plan(map[100 := 5], 200)) == done;
    assert map[100 := 4][100 := Get(map[100 := 4], 100) + 1] == map[100 := 5];
    assert TakeDenomination(100, 16, Plan(map[100 := 4], 300)) == done;
    assert map[100 := 3][100 := Get(map[100 := 3], 100) + 1] == map[100 := 4];
    assert TakeDenomination(100, 17, Plan(map[100 := 3], 400)) == done;
    assert map[100 := 2][100 := Get(map[100 := 2], 100) + 1] == map[100 := 3];
    assert TakeDenomination(100, 18, Plan(map[100 := 2], 500)) == done;
    assert map[100 := 1][100 := Get(map[100 := 1], 100) + 1] == map[100 := 2];
    assert TakeDenomination(100, 19, Plan(map[100 := 1], 600)) == done;
    assert map[][100 := Get(map[], 100) + 1] == map[100 := 1];
    assert TakeDenomination(100, 20, Plan(map[], 700)) == done;
    assert TakeDenomination(200, 10, done) == done;
    assert TakeDenomination(500, 10, done) == done;
    assert PlanFrom(notes, 3, done) == done;
    assert PlanFrom(notes, 2, done) == done;
    assert PlanFrom(notes, 1, done) == done;
  }

  /** Taking the plan off the store lowers its total by the plan's value. */
  lemma {:induction false} SubtractTotal(notes: seq<Note>, t: map<int, int>)
    ensures Total(Subtract(notes, t)) == Total(notes) - Value(notes, t)
  {
    if notes != [] {
      assert Subtract(notes, t)[1..] == Subtract(notes[1..], t);
      SubtractTotal(notes[1..], t);
      var d := notes[0].denomination;
      assert d * (notes[0].count - Get(t, d)) == d * notes[0].count - d * Get(t, d);
    }
  }

  /** A deposit keeps every entry and adds one for `val` if it was missing. */
  lemma {:induction false} DepositStocks(notes: seq<Note>, val: int, cnt: int)
    ensures forall e :: Stocks(Deposit(notes, val, cnt), e) <==> Stocks(notes, e) || e == val
  {
    var r := Deposit(notes, val, cnt);
    if notes == [] {
      assert r[0].denomination == val;
    } else if notes[0].denomination == val {
      StocksCons(notes[0], notes[1..]);
      StocksCons(r[0], notes[1..]);
      assert [notes[0]] + notes[1..] == notes;
    } else if val < notes[0].denomination {
      StocksCons(Note(val, cnt), notes);
    } else {
      DepositStocks(notes[1..], val, cnt);
      StocksCons(notes[0], notes[1..]);
      StocksCons(notes[0], Deposit(notes[1..], val, cnt));
      assert [notes[0]] + notes[1..] == notes;
    }
  }

  /** A deposit of a positive denomination keeps the store ascending. */
  lemma {:induction false} DepositAscending(notes: seq<Note>, val: int, cnt: int)
    requires Ascending(notes) && val > 0
    ensures Ascending(Deposit(notes, val, cnt))
  {
    var r := Deposit(notes, val, cnt);
    if notes != [] && notes[0].denomination < val {
      var rest := Deposit(notes[1..], val, cnt);
      assert r == [notes[0]] + rest;
      DepositAscending(notes[1..], val, cnt);
      DepositStocks(notes[1..], val, cnt);
      forall i, j | 0 <= i < j < |r|
        ensures r[i].denomination < r[j].denomination
      {
        if i == 0 {
          var e := r[j].denomination;
          assert Stocks(rest, e) by {
            assert rest[j - 1] == r[j];
          }
          if e != val {
            var k :| 0 <= k < |notes[1..]| && notes[1..][k].denomination == e;
            assert notes[k + 1].denomination == e;
          }
        } else {
          assert r[i] == rest[i - 1] && r[j] == rest[j - 1];
        }
      }
    }
  }

  /** A deposit adds `cnt` to the count of `val` and to no other. */
  lemma {:induction false} DepositCount(notes: seq<Note>, val: int, cnt: int)
    requires Ascending(notes)
    ensures forall e :: Count(Deposit(notes, val, cnt), e) == Count(notes, e) + (if e == val then cnt else 0)
  {
    if notes != [] {
      if notes[0].denomination == val {
      } else if val < notes[0].denomination {
        forall i | 0 <= i < |notes|
          ensures notes[i].denomination != val
        {
        }
        CountOfUnstocked(notes, val);
      } else {
        DepositCount(notes[1..], val, cnt);
      }
    }
  }

  /** A deposit adds val * cnt to the cash held. */
  lemma {:induction false} DepositTotal(notes: seq<Note>, val: int, cnt: int)
    ensures Total(Deposit(notes, val, cnt)) == Total(notes) + val * cnt
  {
    var r := Deposit(notes, val, cnt);
    if notes == [] {
    } else if notes[0].denomination == val {
      assert r[1..] == notes[1..];
      assert val * (notes[0].count + cnt) == val * notes[0].count + val * cnt;
    } else if val < notes[0].denomination {
      assert r[1..] == notes;
    } else {
      assert r[1..] == Deposit(notes[1..], val, cnt);
      DepositTotal(notes[1..], val, cnt);
    }
  }

  /** A denomination without an entry reads as 0 notes. */
  lemma {:induction false} CountOfUnstocked(notes: seq<Note>, d: int)
    requires !Stocks(notes, d)
    ensures Count(notes, d) == 0
  {
    if notes != [] {
      forall i | 0 <= i < |notes[1..]|
        ensures notes[1..][i].denomination != d
      {
        assert notes[1..][i] == notes[i + 1];
      }
      CountOfUnstocked(notes[1..], d);
    }
  }

  lemma StocksCons(n: Note, notes: seq<Note>)
    ensures forall e :: Stocks([n] + notes, e) <==> e == n.denomination || Stocks(notes, e)
  {
    forall e | Stocks([n] + notes, e) && e != n.denomination
      ensures Stocks(notes, e)
    {
      var i :| 0 <= i < |[n] + notes| && ([n] + notes)[i].denomination == e;
      assert notes[i - 1].denomination == e;
    }
    forall e | Stocks(notes, e)
      ensures Stocks([n] + notes, e)
    {
      var i :| 0 <= i < |notes| && notes[i].denomination == e;
      assert ([n] + notes)[i + 1].denomination == e;
    }
    assert ([n] + notes)[0].denomination == n.denomination;
  }

  /** C++ integer division, which truncates toward zero. */
  function TruncDiv(a: int, b: int): (q: int)
    requires b > 0
    ensures a >= 0 ==> 0 <= q * b <= a < q * b + b
    ensures a < 0 ==> q * b - b < a <= q * b <= 0
  {
    DivBounds(if a >= 0 then a else -a, b);
    if a >= 0 then a / b else -((-a) / b)
  }

  /** Euclidean division of a natural number leaves a remainder below `b`. */
  lemma DivBounds(n: nat, b: int)
    requires b > 0
    ensures 0 <= (n / b) * b <= n < (n / b) * b + b
  {
    var q, r := n / b, n % b;
    assert n == q * b + r;
    assert q >= 0;
    MultipleNonNegative(q, b);
  }

  lemma MultipleNonNegative(q: nat, b: nat)
    ensures q * b >= 0
  {
  }

  // ---------------------------------------------------------------------------
  // The classes

  /** User: an account with a name, number, PIN and balance. */
  class User {
    const name: string
    const accountNumber: string
    const pin: int
    var money: int

    constructor (name: string, ac: string, pass: int, m: int)
      ensures this.name == name && accountNumber == ac && pin == pass && money == m
    {
      this.name := name;
      accountNumber := ac;
      pin := pass;
      money := m;
    }

    /** User::addMoney credits any amount. */
    method AddMoney(amount: int)
      modifies this
      ensures money == old(money) + amount
    {
      money := money + amount;
    }

    /** User::withdrawMoney debits only when the balance covers the amount. */
    method WithdrawMoney(amount: int) returns (ok: bool)
      modifies this
      ensures ok <==> old(money) >= amount
      ensures money == if ok then old(money) - amount else old(money)
    {
      if money >= amount {
        money := money - amount;
        return true;
      }
      return false;
    }
  }

  /** Cash: the notes in the machine and the plan of the pending withdrawal. */
  class Cash {
    var notes: seq<Note>
    var transaction: map<int, int>

    /** The store is ascending, and the plan names only stocked denominations. */
    ghost predicate Valid()
      reads this
    {
      Ascending(notes) && forall d :: d in transaction ==> Stocks(notes, d)
    }

    constructor ()
      ensures Valid() && notes == [] && transaction == map[]
    {
      notes := [];
      transaction := map[];
    }

    /** Cash::addMoney: `money[val] += cnt`. */
    method AddMoney(val: int, cnt: int)
      requires Valid() && val > 0
      modifies this
      ensures Valid()
      ensures notes == Deposit(old(notes), val, cnt) && transaction == old(transaction)
      ensures forall e :: Count(notes, e) == Count(old(notes), e) + (if e == val then cnt else 0)
      ensures Total(notes) == old(Total(notes)) + val * cnt
    {
      DepositAscending(notes, val, cnt);
      DepositStocks(notes, val, cnt);
      DepositCount(notes, val, cnt);
      DepositTotal(notes, val, cnt);
      notes := Deposit(notes, val, cnt);
    }

    /** Cash::canProcess: rebuilds the plan greedily, smallest denomination
        first, and reports whether it pays the whole amount. The store itself
        is left alone. */
    method CanProcess(amount: int) returns (ok: bool)
      requires Valid()
      modifies this
      ensures Valid()
      ensures notes == old(notes)
      ensures transaction == Greedy(notes, amount).taken
      ensures ok <==> Greedy(notes, amount).remainder == 0
      ensures ok ==> Value(notes, transaction) == amount
      ensures forall j :: 0 <= j < |notes| && notes[j].count >= 0 ==> 0 <= Get(transaction, notes[j].denomination) <= notes[j].count
    {
      var sum := amount;
      transaction := map[];
      for i := 0 to |notes|
        invariant notes == old(notes)
        invariant PlanFrom(notes, i, Plan(transaction, sum)) == Greedy(notes, amount)
        invariant forall d :: d in transaction ==> Stocks(notes, d)
      {
        var denomination := notes[i].denomination;
        var count := notes[i].count;
        ghost var start := Plan(transaction, sum);
        while sum >= denomination && count != 0
          invariant notes == old(notes)
          invariant TakeDenomination(denomination, count, Plan(transaction, sum)) == TakeDenomination(denomination, notes[i].count, start)
          invariant forall d :: d in transaction ==> Stocks(notes, d)
          decreases sum
        {
          count := count - 1;
          sum := sum - denomination;
          transaction := transaction[denomination := Get(transaction, denomination) + 1];
        }
      }
      GreedyPaysAmount(notes, amount);
      GreedyWithinStock(notes, amount);
      ok := sum == 0;
    }

    /** Cash::performTransaction: takes the planned notes out and clears the plan. */
    method PerformTransaction()
      requires Valid()
      modifies this
      ensures Valid()
      ensures notes == Subtract(old(notes), old(transaction)) && transaction == map[]
      ensures Total(notes) == old(Total(notes)) - old(Value(notes, transaction))
    {
      ghost var before := notes;
      for i := 0 to |notes|
        invariant |notes| == |before| && transaction == old(transaction)
        invariant forall j :: 0 <= j < |notes| ==>
          notes[j] == (if j < i then Subtract(before, transaction)[j] else before[j])
      {
        notes := notes[i := Note(notes[i].denomination, notes[i].count - Get(transaction, notes[i].denomination))];
      }
      assert notes == Subtract(before, transaction);
      SubtractTotal(before, transaction);
      transaction := map[];
    }

    /** Cash::getTotalCash. */
    method GetTotalCash() returns (total: int)
      ensures total == Total(notes)
    {
      total := 0;
      for i := 0 to |notes|
        invariant total + Total(notes[i..]) == Total(notes)
      {
        assert notes[i..][1..] == notes[i + 1..];
        total := total + notes[i].denomination * notes[i].count;
      }
    }
  }

  /** The first user with the given account number, or |users| when none has it. */
  function FirstAccount(users: seq<User>, acc: string): (i: nat)
    ensures i <= |users|
    ensures i < |users| ==> users[i].accountNumber == acc
    ensures forall j :: 0 <= j < i ==> users[j].accountNumber != acc
  {
    if users == [] then 0
    else if users[0].accountNumber == acc then 0
    else 1 + FirstAccount(users[1..], acc)
  }

  datatype State = Idle | Active

  /** What enterCard reports. */
  datatype LoginOutcome = LoggedIn | WrongPin | UnknownAccount

  /** What withdrawMoney reports. */
  datatype WithdrawOutcome = NotAuthenticated | CashUnavailable | InsufficientBalance | Withdrawn

  /** ATMMachine: the session over a shared cash store. */
  class AtmMachine {
    var state: State
    const cash: Cash
    var users: seq<User>
    var currentUser: User?

    /** A user is logged in exactly in the ACTIVE state. */
    ghost predicate Valid()
      reads this, cash
    {
      cash.Valid() && (state == Active <==> currentUser != null)
    }

    predicate Authenticated()
      reads this
    {
      state == Active && currentUser != null
    }

    constructor (c: Cash)
      requires c.Valid()
      ensures Valid() && state == Idle && cash == c && users == [] && currentUser == null
    {
      state := Idle;
      cash := c;
      users := [];
      currentUser := null;
    }

    /** ATMMachine::addUser registers a fresh account at the end of the list. */
    method AddUser(name: string, acc: string, pin: int, balance: int)
      requires Valid()
      modifies this
      ensures Valid()
      ensures |users| == |old(users)| + 1 && users[..|old(users)|] == old(users)
      ensures fresh(users[|old(users)|])
      ensures users[|old(users)|].accountNumber == acc && users[|old(users)|].pin == pin
      ensures users[|old(users)|].name == name && users[|old(users)|].money == balance
      ensures state == old(state) && currentUser == old(currentUser)
    {
      var u := new User(name, acc, pin, balance);
      users := users + [u];
    }

    /** ATMMachine::enterCard: only the first account with the number is
        consulted; a matching PIN logs it in, anything else changes nothing. */
    method EnterCard(acc: string, pin: int) returns (outcome: LoginOutcome)
      requires Valid()
      modifies this
      ensures Valid() && users == old(users)
      ensures var i := FirstAccount(users, acc);
        && (outcome == LoggedIn <==> i < |users| && users[i].pin == pin)
        && (outcome == UnknownAccount <==> i == |users|)
        && (outcome == LoggedIn ==> state == Active && currentUser == users[i])
        && (outcome != LoggedIn ==> state == old(state) && currentUser == old(currentUser))
    {
      for k := 0 to |users|
        invariant forall j :: 0 <= j < k ==> users[j].accountNumber != acc
      {
        if users[k].accountNumber == acc {
          if users[k].pin == pin {
            state := Active;
            currentUser := users[k];
            return LoggedIn;
          } else {
            return WrongPin;
          }
        }
      }
      return UnknownAccount;
    }

    /** ATMMachine::withdrawMoney: the machine's cash is checked before the
        account balance, and the notes leave only when both suffice. */
    method WithdrawMoney(amount: int) returns (outcome: WithdrawOutcome)
      requires Valid()
      modifies cash, currentUser
      ensures Valid()
      ensures !Authenticated() ==> outcome == NotAuthenticated && unchanged(cash)
      ensures Authenticated() ==>
        var plan := Greedy(old(cash.notes), amount);
        var balance := old(currentUser.money);
        && cash.transaction == (if outcome == Withdrawn then map[] else plan.taken)
        && (outcome == CashUnavailable <==> plan.remainder != 0)
        && (outcome == InsufficientBalance <==> plan.remainder == 0 && balance < amount)
        && (outcome == Withdrawn <==> plan.remainder == 0 && balance >= amount)
        && (outcome != Withdrawn ==> cash.notes == old(cash.notes) && currentUser.money == balance)
        && (outcome == Withdrawn ==> cash.notes == Subtract(old(cash.notes), plan.taken) && currentUser.money == balance - amount)
      ensures outcome == Withdrawn ==> Total(cash.notes) == old(Total(cash.notes)) - amount
    {
      if state != Active || currentUser == null {
        return NotAuthenticated;
      }
      var ok := cash.CanProcess(amount);
      if !ok {
        return CashUnavailable;
      }
      var covered := currentUser.WithdrawMoney(amount);
      if !covered {
        return InsufficientBalance;
      }
      cash.PerformTransaction();
      return Withdrawn;
    }

    /** ATMMachine::depositMoney: the balance gets the whole amount, the store
        only amount / 500 (truncated) notes of 500. */
    method DepositMoney(amount: int) returns (ok: bool)
      requires Valid()
      modifies cash, currentUser
      ensures Valid()
      ensures ok == Authenticated()
      ensures !ok ==> unchanged(cash)
      ensures ok ==> && currentUser.money == old(currentUser.money) + amount
                     && cash.notes == Deposit(old(cash.notes), 500, TruncDiv(amount, 500))
                     && Count(cash.notes, 500) == old(Count(cash.notes, 500)) + TruncDiv(amount, 500)
                     && cash.transaction == old(cash.transaction)
    {
      if state != Active || currentUser == null {
        return false;
      }
      currentUser.AddMoney(amount);
      cash.AddMoney(500, TruncDiv(amount, 500));
      return true;
    }

    /** ATMMachine::checkBalance: the balance shown, when someone is logged in. */
    function CheckBalance(): (shown: Option<int>)
      reads this, currentUser
      ensures shown.Some? <==> Authenticated()
      ensures shown.Some? ==> shown.value == currentUser.money
    {
      if state != Active || currentUser == null then None else Some(currentUser.money)
    }

    /** ATMMachine::logout: ACTIVE becomes IDLE and forgets the user; in IDLE
        nothing happens. */
    method Logout() returns (loggedOut: bool)
      requires Valid()
      modifies this
      ensures Valid() && users == old(users)
      ensures loggedOut <==> old(state) == Active
      ensures loggedOut ==> state == Idle && currentUser == null
      ensures !loggedOut ==> state == old(state) && currentUser == old(currentUser)
    {
      if state == Active {
        currentUser := null;
        state := Idle;
        return true;
      }
      return false;
    }
  }
}
