/** One snake-and-ladder turn and the game loop of snakeAndLadder.cpp, with
    the dice rolls supplied by the caller. */
module SnakeAndLadder {

  datatype Player = Player(name: string, id: int)

  /** A ladder or a snake: landing on `startPoint` moves the player to `endPoint`. */
  datatype Jump = Jump(startPoint: int, endPoint: int)

  /** The square that wins; a roll that would pass it leaves the player in place. */
  const Goal := 100

  /** `playerPosition[id]`: a player without an entry stands on 0. */
  function PositionOf(positions: map<int, int>, id: int): int {
    if id in positions then positions[id] else 0
  }

  /** The jumps applied in list order, each compared with the position the
      earlier ones left. */
  function ApplyJumps(jumps: seq<Jump>, pos: int): int {
    if jumps == [] then pos
    else ApplyJumps(jumps[1..], if jumps[0].startPoint == pos then jumps[0].endPoint else pos)
  }

  /** The queue of turns and where everybody stands. */
  datatype GameState = GameState(queue: seq<Player>, positions: map<int, int>)

  /** One turn of the player at the front: it wins on exactly `Goal` and
      leaves the queue; otherwise it moves when below `Goal` (stays when
      past it), takes the ladders then the snakes, and rejoins at the back.
      The position is read with `operator[]`, which files a 0 for a newcomer. */
  function Step(s: GameState, roll: int, ladders: seq<Jump>, snakes: seq<Jump>): GameState
    requires s.queue != []
  {
    var p := s.queue[0];
    var current := PositionOf(s.positions, p.id);
    var next := current + roll;
    if next == Goal then GameState(s.queue[1..], s.positions[p.id := current])
    else
      var landed := if next < Goal then next else current;
      GameState(s.queue[1..] + [p], s.positions[p.id := ApplyJumps(snakes, ApplyJumps(ladders, landed))])
  }

  /** The game loop: turns while more than one player is queued and rolls remain. */
  function Run(s: GameState, rolls: seq<int>, ladders: seq<Jump>, snakes: seq<Jump>): GameState
    decreases |rolls|
  {
    if |s.queue| <= 1 || rolls == [] then s
    else Run(Step(s, rolls[0], ladders, snakes), rolls[1..], ladders, snakes)
  }

  /** A turn shrinks the queue by one exactly when the player reaches the
      goal, and otherwise sends that player to the back. */
  lemma StepQueue(s: GameState, roll: int, ladders: seq<Jump>, snakes: seq<Jump>)
    requires s.queue != []
    ensures var won := PositionOf(s.positions, s.queue[0].id) + roll == Goal;
      var t := Step(s, roll, ladders, snakes);
      && |t.queue| == |s.queue| - (if won then 1 else 0)
      && (!won ==> t.queue == s.queue[1..] + [s.queue[0]])
      && (won ==> t.queue == s.queue[1..])
  {
  }

  /** A square of the board, below the goal. */
  predicate OnBoard(pos: int) {
    0 <= pos < Goal
  }

  /** Every jump lands on the board. */
  predicate JumpsOnBoard(jumps: seq<Jump>) {
    forall j :: 0 <= j < |jumps| ==> OnBoard(jumps[j].endPoint)
  }

  lemma {:induction false} ApplyJumpsOnBoard(jumps: seq<Jump>, pos: int)
    requires JumpsOnBoard(jumps) && OnBoard(pos)
    ensures OnBoard(ApplyJumps(jumps, pos))
  {
    if jumps != [] {
      ApplyJumpsOnBoard(jumps[1..], if jumps[0].startPoint == pos then jumps[0].endPoint else pos);
    }
  }

  /** Positions on the board before a turn with a non-negative roll stay on it. */
  lemma StepStaysOnBoard(s: GameState, roll: int, ladders: seq<Jump>, snakes: seq<Jump>)
    requires s.queue != [] && roll >= 0
    requires JumpsOnBoard(ladders) && JumpsOnBoard(snakes)
    requires forall id :: id in s.positions ==> OnBoard(s.positions[id])
    ensures var t := Step(s, roll, ladders, snakes);
      forall id :: id in t.positions ==> OnBoard(t.positions[id])
  {
    var p := s.queue[0];
    var current := PositionOf(s.positions, p.id);
    var next := current + roll;
    if next != Goal {
      var landed := if next < Goal then next else current;
      ApplyJumpsOnBoard(ladders, landed);
      ApplyJumpsOnBoard(snakes, ApplyJumps(ladders, landed));
    }
  }

  /** No turn adds a player, and each roll removes at most one. */
  lemma {:induction false} RunShrinksQueue(s: GameState, rolls: seq<int>, ladders: seq<Jump>, snakes: seq<Jump>)
    ensures var t := Run(s, rolls, ladders, snakes);
      && |t.queue| <= |s.queue|
      && |s.queue| - |t.queue| <= |rolls|
    decreases |rolls|
  {
    if |s.queue| > 1 && rolls != [] {
      StepQueue(s, rolls[0], ladders, snakes);
      RunShrinksQueue(Step(s, rolls[0], ladders, snakes), rolls[1..], ladders, snakes);
    }
  }

  /** Board: the dice, the turn queue, the snakes and ladders, and the positions. */
  class Board {
    const numberOfDice: int
    var nextTurn: seq<Player>
    const snakes: seq<Jump>
    const ladders: seq<Jump>
    var playerPosition: map<int, int>

    constructor (dice: int, queue: seq<Player>, s: seq<Jump>, l: seq<Jump>, positions: map<int, int>)
      ensures numberOfDice == dice && nextTurn == queue && snakes == s && ladders == l && playerPosition == positions
    {
      numberOfDice := dice;
      nextTurn := queue;
      snakes := s;
      ladders := l;
      playerPosition := positions;
    }

    /** A roll the dice can produce: between one and six pips per die. */
    predicate PossibleRoll(roll: int)
      reads this
    {
      numberOfDice <= roll <= 6 * numberOfDice
    }

    /** The body of the game loop for one turn, with the roll supplied. */
    method PlayTurn(roll: int)
      requires nextTurn != [] && PossibleRoll(roll)
      modifies this
      ensures GameState(nextTurn, playerPosition) == Step(old(GameState(nextTurn, playerPosition)), roll, ladders, snakes)
    {
      var p := nextTurn[0];
      var currentPos := PositionOf(playerPosition, p.id);
      playerPosition := playerPosition[p.id := currentPos];
      nextTurn := nextTurn[1..];
      var nextPos := currentPos + roll;
      if nextPos < Goal {
        playerPosition := playerPosition[p.id := nextPos];
      } else if nextPos == Goal {
        return;
      }
      ghost var landed := playerPosition[p.id];
      for k := 0 to |ladders|
        invariant p.id in playerPosition
        invariant ApplyJumps(ladders[k..], playerPosition[p.id]) == ApplyJumps(ladders, landed)
        invariant playerPosition == old(playerPosition)[p.id := playerPosition[p.id]]
        invariant nextTurn == old(nextTurn)[1..]
      {
        assert ladders[k..][1..] == ladders[k + 1..];
        if ladders[k].startPoint == playerPosition[p.id] {
          playerPosition := playerPosition[p.id := ladders[k].endPoint];
        }
      }
      ghost var climbed := playerPosition[p.id];
      for k := 0 to |snakes|
        invariant p.id in playerPosition
        invariant ApplyJumps(snakes[k..], playerPosition[p.id]) == ApplyJumps(snakes, climbed)
        invariant playerPosition == old(playerPosition)[p.id := playerPosition[p.id]]
        invariant nextTurn == old(nextTurn)[1..]
      {
        assert snakes[k..][1..] == snakes[k + 1..];
        if snakes[k].startPoint == playerPosition[p.id] {
          playerPosition := playerPosition[p.id := snakes[k].endPoint];
        }
      }
      nextTurn := nextTurn + [p];
    }

    /** Board::startGame, fed from `rolls`: turns are played while more
        than one player is queued and a roll remains. */
    method StartGame(rolls: seq<int>) returns (used: nat)
      requires forall i :: 0 <= i < |rolls| ==> PossibleRoll(rolls[i])
      modifies this
      ensures used <= |rolls|
      ensures |nextTurn| <= 1 || used == |rolls|
      ensures GameState(nextTurn, playerPosition) == Run(old(GameState(nextTurn, playerPosition)), rolls, ladders, snakes)
    {
      used := 0;
      while |nextTurn| > 1 && used < |rolls|
        invariant used <= |rolls|
        invariant Run(GameState(nextTurn, playerPosition), rolls[used..], ladders, snakes)
               == Run(old(GameState(nextTurn, playerPosition)), rolls, ladders, snakes)
        decreases |rolls| - used
      {
        assert rolls[used..][1..] == rolls[used + 1..];
        PlayTurn(rolls[used]);
        used := used + 1;
      }
    }
  }
}
