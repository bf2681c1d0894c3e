/** Player counters, the team cap and the scoring events of cricketScoreBoard.cpp. */
module Cricket {
  import opened Wrappers

  /** The most players a team may hold. */
  const MaxTeamSize := 11

  /** Player: identity and per-player counters, all starting at 0. */
  class Player {
    const id: int
    const name: string
    var runsScored: int
    var ballsFaced: int
    var ballsThrown: int
    var wicketsTaken: int
    var runsGiven: int

    constructor (i: int, s: string)
      ensures id == i && name == s
      ensures runsScored == 0 && ballsFaced == 0 && ballsThrown == 0 && wicketsTaken == 0 && runsGiven == 0
    {
      id := i;
      name := s;
      runsScored := 0;
      ballsFaced := 0;
      ballsThrown := 0;
      wicketsTaken := 0;
      runsGiven := 0;
    }

    /** Player::addRuns: a ball faced, its runs scored; bowling counters untouched. */
    method AddRuns(runs: int)
      modifies this
      ensures runsScored == old(runsScored) + runs && ballsFaced == old(ballsFaced) + 1
      ensures ballsThrown == old(ballsThrown) && wicketsTaken == old(wicketsTaken) && runsGiven == old(runsGiven)
    {
      runsScored := runsScored + runs;
      ballsFaced := ballsFaced + 1;
    }

    /** Player::giveRuns: a ball bowled, its runs conceded; batting counters untouched. */
    method GiveRuns(runs: int)
      modifies this
      ensures runsGiven == old(runsGiven) + runs && ballsThrown == old(ballsThrown) + 1
      ensures runsScored == old(runsScored) && ballsFaced == old(ballsFaced) && wicketsTaken == old(wicketsTaken)
    {
      runsGiven := runsGiven + runs;
      ballsThrown := ballsThrown + 1;
    }

    /** Player::takeWicket: one more wicket, nothing else. */
    method TakeWicket()
      modifies this
      ensures wicketsTaken == old(wicketsTaken) + 1
      ensures runsScored == old(runsScored) && ballsFaced == old(ballsFaced)
      ensures ballsThrown == old(ballsThrown) && runsGiven == old(runsGiven)
    {
      wicketsTaken := wicketsTaken + 1;
    }
  }

  /** Team: a roster that never grows past `MaxTeamSize`. */
  class Team {
    const id: int
    const name: string
    var players: seq<Player>

    ghost predicate Valid()
      reads this
    {
      |players| <= MaxTeamSize
    }

    constructor (i: int, n: string)
      ensures Valid() && id == i && name == n && players == []
    {
      id := i;
      name := n;
      players := [];
    }

    /** Team::addPlayer: refused when the team is full, appended otherwise. */
    method AddPlayer(p: Player) returns (added: bool)
      requires Valid()
      modifies this
      ensures Valid()
      ensures added <==> |old(players)| < MaxTeamSize
      ensures players == if added then old(players) + [p] else old(players)
    {
      if |players| == MaxTeamSize {
        return false;
      }
      players := players + [p];
      return true;
    }
  }

  /** The running totals of a match. */
  datatype Score = Score(runs: int, wickets: int)

  /** The two scoring strategies. */
  datatype ScoringEvent = RunsScoring(runs: int) | WicketScoring

  /** updateScore: a run event adds its runs, a wicket event one wicket. */
  function UpdateScore(event: ScoringEvent, s: Score): (t: Score)
    ensures event.RunsScoring? ==> t.wickets == s.wickets && t.runs - s.runs == event.runs
    ensures event.WicketScoring? ==> t.runs == s.runs && t.wickets - s.wickets == 1
  {
    match event
    case RunsScoring(r) => s.(runs := s.runs + r)
    case WicketScoring => s.(wickets := s.wickets + 1)
  }

  /** ScoringFactory::createScoringEvent: "RUN" and "WICKET" are known, any
      other type yields no event. */
  function CreateScoringEvent(eventType: string, value: int): (e: Option<ScoringEvent>)
    ensures e.Some? <==> eventType == "RUN" || eventType == "WICKET"
    ensures eventType == "RUN" ==> e == Some(RunsScoring(value))
    ensures eventType == "WICKET" ==> e == Some(WicketScoring)
  {
    if eventType == "RUN" then Some(RunsScoring(value))
    else if eventType == "WICKET" then Some(WicketScoring)
    else None
  }

  /** The events applied in order. */
  function Replay(s: Score, events: seq<ScoringEvent>): Score
    decreases |events|
  {
    if events == [] then s else Replay(UpdateScore(events[0], s), events[1..])
  }

  function RunsIn(events: seq<ScoringEvent>): int {
    if events == [] then 0 else (if events[0].RunsScoring? then events[0].runs else 0) + RunsIn(events[1..])
  }

  function WicketsIn(events: seq<ScoringEvent>): nat {
    if events == [] then 0 else (if events[0].WicketScoring? then 1 else 0) + WicketsIn(events[1..])
  }

  /** Any sequence of events leaves the sum of its runs and the number of
      its wickets on top of the starting score, whatever the order. */
  lemma {:induction false} ReplayTotals(s: Score, events: seq<ScoringEvent>)
    decreases |events|
    ensures Replay(s, events) == Score(s.runs + RunsIn(events), s.wickets + WicketsIn(events))
  {
    if events != [] {
      ReplayTotals(UpdateScore(events[0], s), events[1..]);
    }
  }

  /** ScoreBoard: shows the last totals it was told. */
  class ScoreBoard {
    var totalRuns: int
    var totalWickets: int

    constructor ()
      ensures totalRuns == 0 && totalWickets == 0
    {
      totalRuns := 0;
      totalWickets := 0;
    }

    /** ScoreBoard::update copies both totals. */
    method Update(runs: int, wickets: int)
      modifies this
      ensures totalRuns == runs && totalWickets == wickets
    {
      totalRuns := runs;
      totalWickets := wickets;
    }
  }

  /** Match: the totals and the score boards that observe them. */
  class Match {
    var totalRuns: int
    var totalWickets: int
    var observers: seq<ScoreBoard>

    constructor ()
      ensures totalRuns == 0 && totalWickets == 0 && observers == []
    {
      totalRuns := 0;
      totalWickets := 0;
      observers := [];
    }

    method AddObserver(obs: ScoreBoard)
      modifies this
      ensures observers == old(observers) + [obs]
      ensures totalRuns == old(totalRuns) && totalWickets == old(totalWickets)
    {
      observers := observers + [obs];
    }

    /** Match::notifyObservers: every observer ends up showing the totals. */
    method NotifyObservers()
      modifies set o | o in observers
      ensures forall o :: o in observers ==> o.totalRuns == totalRuns && o.totalWickets == totalWickets
    {
      for k := 0 to |observers|
        invariant forall j :: 0 <= j < k ==> observers[j].totalRuns == totalRuns && observers[j].totalWickets == totalWickets
      {
        observers[k].Update(totalRuns, totalWickets);
      }
    }

    /** Match::addScoringEvent: a missing event changes nothing; otherwise
        the event updates the totals and every observer is told. */
    method AddScoringEvent(event: Option<ScoringEvent>)
      modifies this, set o | o in observers
      ensures observers == old(observers)
      ensures Score(totalRuns, totalWickets) ==
        if event.Some? then UpdateScore(event.value, old(Score(totalRuns, totalWickets))) else old(Score(totalRuns, totalWickets))
      ensures event.None? ==> forall o :: o in observers ==> unchanged(o)
      ensures event.Some? ==> forall o :: o in observers ==> o.totalRuns == totalRuns && o.totalWickets == totalWickets
    {
      if event.Some? {
        var s := UpdateScore(event.value, Score(totalRuns, totalWickets));
        totalRuns, totalWickets := s.runs, s.wickets;
        NotifyObservers();
      }
    }
  }
}
