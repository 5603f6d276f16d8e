/** One team record of the battle server (`active_teams[code]` in app.py) and
    what each route does to it once the team has been looked up. The routes
    either answer with an error and leave the team as it was, or answer with a
    success and return the updated team. */
module Teams {
  import opened Options

  datatype Status = Waiting | Countdown | Active | Finished

  /** The value of the record's `status` field as clients see it. */
  function StatusName(s: Status): string
  {
    match s
    case Waiting => "waiting"
    case Countdown => "countdown"
    case Active => "active"
    case Finished => "finished"
  }

  /** Clients tell the states apart by their names: no two share one. */
  lemma StatusNamesDistinct(a: Status, b: Status)
    ensures StatusName(a) == StatusName(b) ==> a == b
  {
  }

  /** The number every route that touches the countdown writes (app.py:90,
      app.py:149, app.py:265). */
  const CountdownStart: int := 5

  /** One submitted result: the client's figures and the combined score. */
  datatype PlayerResult = PlayerResult(wpm: real, accuracy: real, timeTaken: real, score: real)

  /** `results` keeps the order in which player ids were first stored, as a
      Python dict does. */
  type Results = seq<(string, PlayerResult)>

  datatype Team = Team(
    adminId: string,
    players: seq<string>,
    status: Status,
    createdAt: int,
    paragraph: string,
    countdown: int,
    results: Results)

  predicate Distinct(s: seq<string>)
  {
    forall i, j :: 0 <= i < j < |s| ==> s[i] != s[j]
  }

  /** `list(results.keys())`. */
  function Keys(rs: Results): (ks: seq<string>)
    ensures |ks| == |rs| && forall i :: 0 <= i < |rs| ==> ks[i] == rs[i].0
  {
    if rs == [] then [] else [rs[0].0] + Keys(rs[1..])
  }

  /** `results.get(id)`. */
  function Lookup(rs: Results, id: string): (r: Option<PlayerResult>)
    ensures r.None? <==> id !in Keys(rs)
  {
    if rs == [] then None else if rs[0].0 == id then Some(rs[0].1) else Lookup(rs[1..], id)
  }

  /** `results[id] = v`: an existing key keeps its place and takes the new
      value, a new key goes last. */
  function Put(rs: Results, id: string, v: PlayerResult): (r: Results)
    ensures Keys(r) == if id in Keys(rs) then Keys(rs) else Keys(rs) + [id]
  {
    if rs == [] then [(id, v)]
    else if rs[0].0 == id then [(id, v)] + rs[1..]
    else
      var rest := Put(rs[1..], id, v);
      assert Keys([rs[0]] + rest) == [rs[0].0] + Keys(rest);
      [rs[0]] + rest
  }

  /** After `results[id] = v`, the id maps to `v` and every other id to what
      it mapped to before. */
  lemma {:induction false} PutLookup(rs: Results, id: string, v: PlayerResult, k: string)
    ensures Lookup(Put(rs, id, v), k) == if k == id then Some(v) else Lookup(rs, k)
  {
    if rs != [] && rs[0].0 != id {
      var r := Put(rs, id, v);
      assert r[0] == rs[0] && r[1..] == Put(rs[1..], id, v);
      PutLookup(rs[1..], id, v, k);
    }
  }

  /** Storing a result never makes two entries share an id. */
  lemma PutKeepsDistinct(rs: Results, id: string, v: PlayerResult)
    ensures Distinct(Keys(rs)) ==> Distinct(Keys(Put(rs, id, v)))
  {
    var ks := Keys(rs);
    if Distinct(ks) && id !in ks {
      assert forall i :: 0 <= i < |ks| ==> (ks + [id])[i] == ks[i];
    }
  }

  /** What the server keeps true of every team it stores: one or two distinct
      players, the first of them the admin; results keyed by distinct ids; the
      countdown field always at its starting value; and a countdown or a race
      only ever with two players. */
  ghost predicate WellFormed(t: Team)
  {
    && 1 <= |t.players| <= 2
    && Distinct(t.players)
    && t.players[0] == t.adminId
    && Distinct(Keys(t.results))
    && t.countdown == CountdownStart
    && (t.status == Countdown || t.status == Active ==> |t.players| == 2)
  }

  /** The failure messages of the routes. */
  datatype Error =
    | InvalidTeamCode
    | TeamFull
    | AlreadyInTeam
    | TeamNotFound
    | OnlyAdminCanStartCompetition
    | NeedTwoPlayers
    | OnlyAdminCanStartBattle
    | NotInCountdown
    | OnlyAdminCanReset

  function Message(e: Error): string
  {
    match e
    case InvalidTeamCode => "Invalid team code"
    case TeamFull => "Team is full"
    case AlreadyInTeam => "Already in team"
    case TeamNotFound => "Team not found"
    case OnlyAdminCanStartCompetition => "Only admin can start competition"
    case NeedTwoPlayers => "Need 2 players to start"
    case OnlyAdminCanStartBattle => "Only admin can start battle"
    case NotInCountdown => "Team not in countdown status"
    case OnlyAdminCanReset => "Only admin can reset team"
  }

  /** Every failure has its own message. */
  lemma MessagesDistinct(a: Error, b: Error)
    ensures Message(a) == Message(b) ==> a == b
  {
  }

  datatype CreateResponse = Created(teamCode: string)

  datatype JoinResponse = JoinError(error: Error) | Joined(teamCode: string, isAdmin: bool, playerCount: nat)

  datatype StartResponse = StartError(error: Error) | CountdownStarted(countdown: int, paragraph: string)

  datatype StatusResponse =
    | StatusError(error: Error)
    | TeamStatus(status: Status, countdown: int, players: seq<string>, paragraph: string, results: Results)

  datatype BattleResponse = BattleError(error: Error) | BattleStarted

  datatype SubmitResponse =
    | SubmitError(error: Error)
    | CompetitionFinished(winner: string, winnerScore: real, loserScore: real, results: Results)
    | ResultSubmitted(waitingFor: int)

  datatype ResetResponse = ResetError(error: Error) | TeamReset

  /** The team after a route, and the route's answer. */
  datatype Step<R> = Step(team: Team, response: R)

  /** The record `create_team` stores (app.py:84-92). */
  function NewTeam(playerId: string, paragraph: string, createdAt: int): (t: Team)
    ensures WellFormed(t)
    ensures t.players == [playerId] && t.adminId == playerId && t.status == Waiting
    ensures t.results == [] && t.countdown == 5 && t.paragraph == paragraph
  {
    Team(playerId, [playerId], Waiting, createdAt, paragraph, CountdownStart, [])
  }

  /** `join_team` once the upper-cased code was found (app.py:109-126). */
  function Join(code: string, t: Team, playerId: string): (s: Step<JoinResponse>)
    ensures |t.players| >= 2 ==> s == Step(t, JoinError(TeamFull))
    ensures |t.players| < 2 && playerId in t.players ==> s == Step(t, JoinError(AlreadyInTeam))
    ensures s.response.Joined? <==> |t.players| < 2 && playerId !in t.players
    ensures s.response.Joined? ==>
              && s.team == t.(players := t.players + [playerId])
              && s.response.teamCode == code
              && s.response.playerCount == |s.team.players| == |t.players| + 1 <= 2
              && (s.response.isAdmin <==> playerId == t.adminId)
    ensures WellFormed(t) ==> WellFormed(s.team)
  {
    if |t.players| >= 2 then Step(t, JoinError(TeamFull))
    else if playerId in t.players then Step(t, JoinError(AlreadyInTeam))
    else
      var t' := t.(players := t.players + [playerId]);
      Step(t', Joined(code, t.adminId == playerId, |t'.players|))
  }

  /** On a well-formed team a successful join always fills it, and the player
      who joins is never the admin: the admin is already in the team. */
  lemma JoinFillsTeam(code: string, t: Team, playerId: string)
    requires WellFormed(t)
    requires Join(code, t, playerId).response.Joined?
    ensures Join(code, t, playerId).response == Joined(code, false, 2)
  {
  }

  /** `start_competition` once the code was found (app.py:137-155). The current
      status is not looked at. */
  function StartCompetition(t: Team, callerId: string): (s: Step<StartResponse>)
    ensures callerId != t.adminId ==> s == Step(t, StartError(OnlyAdminCanStartCompetition))
    ensures callerId == t.adminId && |t.players| < 2 ==> s == Step(t, StartError(NeedTwoPlayers))
    ensures s.response.CountdownStarted? <==> callerId == t.adminId && |t.players| >= 2
    ensures s.response.CountdownStarted? ==>
              && s.team == t.(status := Countdown, countdown := 5)
              && s.response == CountdownStarted(5, t.paragraph)
    ensures WellFormed(t) ==> WellFormed(s.team)
  {
    if t.adminId != callerId then Step(t, StartError(OnlyAdminCanStartCompetition))
    else if |t.players| < 2 then Step(t, StartError(NeedTwoPlayers))
    else Step(t.(status := Countdown, countdown := CountdownStart), CountdownStarted(CountdownStart, t.paragraph))
  }

  /** `get_team_status` once the code was found (app.py:165-173). */
  function StatusOf(t: Team): StatusResponse
  {
    TeamStatus(t.status, t.countdown, t.players, t.paragraph, t.results)
  }

  /** `start_battle` once the code was found (app.py:184-200). */
  function StartBattle(t: Team, callerId: string): (s: Step<BattleResponse>)
    ensures callerId != t.adminId ==> s == Step(t, BattleError(OnlyAdminCanStartBattle))
    ensures callerId == t.adminId && t.status != Countdown ==> s == Step(t, BattleError(NotInCountdown))
    ensures s.response.BattleStarted? <==> callerId == t.adminId && t.status == Countdown
    ensures s.response.BattleStarted? ==> s.team == t.(status := Active)
    ensures WellFormed(t) ==> WellFormed(s.team)
  {
    if t.adminId != callerId then Step(t, BattleError(OnlyAdminCanStartBattle))
    else if t.status != Countdown then Step(t, BattleError(NotInCountdown))
    else Step(t.(status := Active), BattleStarted)
  }

  /** The countdown ends at most once per race: a repeated `start_battle` is
      refused, by the admin as much as by anyone (app.py:191-195). */
  lemma StartBattleOnce(t: Team, callerId: string, anyCaller: string)
    requires StartBattle(t, callerId).response.BattleStarted?
    ensures StartBattle(StartBattle(t, callerId).team, anyCaller).response.BattleError?
  {
  }

  /** The combined score of a submission (app.py:222). */
  function Score(wpm: real, accuracy: real): (r: real)
    ensures wpm >= 0.0 && 0.0 <= accuracy <= 100.0 ==> 0.0 <= r <= wpm
    ensures accuracy == 100.0 ==> r == wpm
  {
    assert wpm * accuracy / 100.0 == wpm * (accuracy / 100.0);
    assert wpm >= 0.0 && 0.0 <= accuracy <= 100.0 ==> wpm * (accuracy / 100.0) <= wpm * 1.0;
    wpm * accuracy / 100.0
  }

  datatype Verdict = Verdict(winner: string, winnerScore: real, loserScore: real)

  function Max(a: real, b: real): real { if a >= b then a else b }

  function Min(a: real, b: real): real { if a <= b then a else b }

  /** The winner rule of a two-entry result table: the first-stored player
      wins only with a strictly greater score, so a tie goes to the second
      (app.py:230-236). */
  function Decide(rs: Results): (v: Verdict)
    requires |rs| == 2
    ensures v.winnerScore == Max(rs[0].1.score, rs[1].1.score)
    ensures v.loserScore == Min(rs[0].1.score, rs[1].1.score)
    ensures v.winner in Keys(rs)
  {
    var s1, s2 := rs[0].1.score, rs[1].1.score;
    Verdict(if s1 > s2 then rs[0].0 else rs[1].0, Max(s1, s2), Min(s1, s2))
  }

  /** In a two-entry table with different keys each key finds its own entry. */
  lemma LookupPair(rs: Results)
    requires |rs| == 2 && rs[0].0 != rs[1].0
    ensures Lookup(rs, rs[0].0) == Some(rs[0].1) && Lookup(rs, rs[1].0) == Some(rs[1].1)
  {
    assert rs[1..] == [rs[1]];
  }

  /** With distinct keys the winner is the first-stored player exactly when
      that player scored strictly more; the winner's stored score is the
      winning score and the other player's the losing one
      (app.py:230-236). */
  lemma DecideIsFair(rs: Results)
    requires |rs| == 2 && Distinct(Keys(rs))
    ensures var v := Decide(rs);
            && (v.winner == rs[0].0 <==> rs[0].1.score > rs[1].1.score)
            && Lookup(rs, v.winner).value.score == v.winnerScore
            && v.winnerScore >= v.loserScore
            && (v.winner == rs[0].0 ==> Lookup(rs, rs[1].0).value.score == v.loserScore)
            && (v.winner == rs[1].0 ==> Lookup(rs, rs[0].0).value.score == v.loserScore)
  {
    assert Keys(rs)[0] != Keys(rs)[1];
    LookupPair(rs);
  }

  /** `submit_competition_result` once the code was found (app.py:215-246):
      neither the status nor membership is checked; the result is stored,
      and two stored results finish the race. */
  function Submit(t: Team, playerId: string, wpm: real, accuracy: real, timeTaken: real): (s: Step<SubmitResponse>)
    ensures !s.response.SubmitError?
    ensures var entry := PlayerResult(wpm, accuracy, timeTaken, Score(wpm, accuracy));
            && s.team.results == Put(t.results, playerId, entry)
            && Lookup(s.team.results, playerId) == Some(entry)
    ensures s.response.CompetitionFinished? <==> |s.team.results| == 2
    ensures s.response.CompetitionFinished? ==>
              && s.team == t.(results := s.team.results, status := Finished)
              && s.response.results == s.team.results
              && s.response.winner in Keys(s.team.results)
              && s.response.winnerScore >= s.response.loserScore
    ensures s.response.CompetitionFinished? ==>
              var v := Decide(s.team.results);
              && s.response.winner == v.winner
              && s.response.winnerScore == v.winnerScore
              && s.response.loserScore == v.loserScore
    ensures s.response.ResultSubmitted? ==>
              && s.team == t.(results := s.team.results)
              && s.response.waitingFor == 2 - |s.team.results|
    ensures WellFormed(t) ==> WellFormed(s.team)
  {
    var entry := PlayerResult(wpm, accuracy, timeTaken, Score(wpm, accuracy));
    var rs := Put(t.results, playerId, entry);
    PutLookup(t.results, playerId, entry, playerId);
    PutKeepsDistinct(t.results, playerId, entry);
    if |rs| == 2 then
      var v := Decide(rs);
      Step(t.(results := rs, status := Finished), CompetitionFinished(v.winner, v.winnerScore, v.loserScore, rs))
    else
      Step(t.(results := rs), ResultSubmitted(2 - |rs|))
  }

  /** Submitting again under the same id overwrites: one entry per id, holding
      the latest figures, and the number of entries does not grow
      (app.py:218). */
  lemma ResubmitOverwrites(t: Team, id: string, w1: real, a1: real, t1: real, w2: real, a2: real, t2: real)
    ensures var first := Submit(t, id, w1, a1, t1).team;
            var second := Submit(first, id, w2, a2, t2).team;
            && Keys(second.results) == Keys(first.results)
            && Lookup(second.results, id) == Some(PlayerResult(w2, a2, t2, Score(w2, a2)))
  {
    var first := Submit(t, id, w1, a1, t1).team;
    var entry := PlayerResult(w2, a2, t2, Score(w2, a2));
    PutLookup(first.results, id, entry, id);
  }

  /** Nothing stops a third id from submitting: the table then holds three
      entries, the race does not finish and the answer asks for -1 more
      results (app.py:226, app.py:246). */
  lemma ThirdSubmitterNeverFinishes(t: Team, id: string, wpm: real, accuracy: real, timeTaken: real)
    requires |t.results| == 2 && Distinct(Keys(t.results)) && id !in Keys(t.results)
    ensures Submit(t, id, wpm, accuracy, timeTaken).response == ResultSubmitted(-1)
    ensures Submit(t, id, wpm, accuracy, timeTaken).team.status == t.status
  {
  }

  /** `reset_team` once the code was found (app.py:257-269): only the admin,
      whatever the status. */
  function Reset(t: Team, callerId: string, paragraph: string): (s: Step<ResetResponse>)
    ensures callerId != t.adminId <==> s == Step(t, ResetError(OnlyAdminCanReset))
    ensures s.response.TeamReset? <==> callerId == t.adminId
    ensures s.response.TeamReset? ==>
              && s.team.status == Waiting && s.team.countdown == 5 && s.team.results == []
              && s.team.paragraph == paragraph
              && s.team.players == t.players && s.team.adminId == t.adminId
              && s.team.createdAt == t.createdAt
    ensures WellFormed(t) ==> WellFormed(s.team)
  {
    if t.adminId != callerId then Step(t, ResetError(OnlyAdminCanReset))
    else Step(t.(status := Waiting, countdown := CountdownStart, results := [], paragraph := paragraph), TeamReset)
  }
}
