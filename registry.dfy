/** The battle server's global table `active_teams`, from team code to team
    record, with one method per route of app.py. Each method looks the code
    up, answers with an error and leaves the table alone, or writes the updated
    team back under its code. The generated team code, the chosen paragraph
    and the creation time are parameters. */
module Server {
  import opened Options
  import opened Teams

  /** One character of `str.upper()`, for ASCII letters: a lower-case letter
      becomes its capital, anything else stays. */
  function UpperChar(c: char): (u: char)
    ensures !('a' <= u <= 'z')
    ensures 'a' <= c <= 'z' ==> u == (c as int - 32) as char
    ensures !('a' <= c <= 'z') ==> u == c
  {
    if 'a' <= c <= 'z' then (c as int - 32) as char else c
  }

  /** `team_code.upper()` for ASCII letters. */
  function Upper(s: string): (r: string)
    ensures |r| == |s|
    ensures forall i :: 0 <= i < |s| ==> r[i] == UpperChar(s[i])
    ensures forall i :: 0 <= i < |s| ==> !('a' <= r[i] <= 'z')
    ensures forall i :: 0 <= i < |s| && !('a' <= s[i] <= 'z') ==> r[i] == s[i]
    ensures forall i :: 0 <= i < |s| && 'a' <= s[i] <= 'z' ==> r[i] == (s[i] as int - 32) as char
  {
    if s == [] then [] else [UpperChar(s[0])] + Upper(s[1..])
  }

  /** Upper-casing twice changes nothing: a code produced by `create_team`
      (upper-cased) is found again by `join_team`, which upper-cases what it
      is given. */
  lemma {:induction false} UpperIdempotent(s: string)
    ensures Upper(Upper(s)) == Upper(s)
  {
    if s != [] {
      UpperIdempotent(s[1..]);
    }
  }

  class Registry {
    var teams: map<string, Team>

    ghost predicate Valid()
      reads this
    {
      forall code :: code in teams ==> WellFormed(teams[code])
    }

    constructor ()
      ensures Valid() && teams == map[]
    {
      teams := map[];
    }

    /** `create_team` (app.py:78-98). The code is generated upper-cased
        (`uuid4()[:8].upper()`, a random source not modelled), so the caller
        passes one with `Upper(code) == code`, and `join_team` finds it again.
        A code already in the table is overwritten. */
    method CreateTeam(code: string, playerId: string, paragraph: string, now: int) returns (r: CreateResponse)
      requires Valid()
      requires Upper(code) == code
      modifies this
      ensures Valid()
      ensures teams == old(teams)[code := NewTeam(playerId, paragraph, now)]
      ensures Upper(code) in teams
      ensures teams[code].players == [playerId] && teams[code].adminId == playerId
      ensures teams[code].status == Waiting && teams[code].results == [] && teams[code].countdown == 5
      ensures r == Created(code)
    {
      teams := teams[code := NewTeam(playerId, paragraph, now)];
      r := Created(code);
    }

    /** `join_team` (app.py:100-126): the code is upper-cased first; an unknown
        code, a full team or a player already in it is an error. Since every
        stored team is well formed, a successful join always fills the team
        and never makes the joiner admin. */
    method JoinTeam(rawCode: string, playerId: string) returns (r: JoinResponse)
      requires Valid()
      modifies this
      ensures Valid()
      ensures Upper(rawCode) !in old(teams) ==> r == JoinError(InvalidTeamCode) && teams == old(teams)
      ensures Upper(rawCode) in old(teams) ==>
                var s := Join(Upper(rawCode), old(teams)[Upper(rawCode)], playerId);
                && r == s.response
                && teams == (if r.Joined? then old(teams)[Upper(rawCode) := s.team] else old(teams))
      ensures r.Joined? ==> r == Joined(Upper(rawCode), false, 2)
    {
      var code := Upper(rawCode);
      if code !in teams {
        return JoinError(InvalidTeamCode);
      }
      var s := Join(code, teams[code], playerId);
      r := s.response;
      if r.Joined? {
        JoinFillsTeam(code, teams[code], playerId);
      }
      if r.Joined? {
        teams := teams[code := s.team];
      }
    }

    /** `start_competition` (app.py:128-155). */
    method StartCompetition(code: string, callerId: string) returns (r: StartResponse)
      requires Valid()
      modifies this
      ensures Valid()
      ensures code !in old(teams) ==> r == StartError(TeamNotFound) && teams == old(teams)
      ensures code in old(teams) ==>
                var s := Teams.StartCompetition(old(teams)[code], callerId);
                && r == s.response
                && teams == (if r.CountdownStarted? then old(teams)[code := s.team] else old(teams))
    {
      if code !in teams {
        return StartError(TeamNotFound);
      }
      var s := Teams.StartCompetition(teams[code], callerId);
      r := s.response;
      if r.CountdownStarted? {
        teams := teams[code := s.team];
      }
    }

    /** `get_team_status` (app.py:157-173): a read that changes nothing. */
    method GetTeamStatus(code: string) returns (r: StatusResponse)
      ensures r.StatusError? <==> code !in teams
      ensures r.StatusError? ==> r.error == TeamNotFound
      ensures r.TeamStatus? ==>
                && r.status == teams[code].status && r.players == teams[code].players
                && r.paragraph == teams[code].paragraph && r.results == teams[code].results
                && r.countdown == teams[code].countdown
    {
      if code !in teams {
        return StatusError(TeamNotFound);
      }
      r := StatusOf(teams[code]);
    }

    /** `start_battle` (app.py:175-200). */
    method StartBattle(code: string, callerId: string) returns (r: BattleResponse)
      requires Valid()
      modifies this
      ensures Valid()
      ensures code !in old(teams) ==> r == BattleError(TeamNotFound) && teams == old(teams)
      ensures code in old(teams) ==>
                var s := Teams.StartBattle(old(teams)[code], callerId);
                && r == s.response
                && teams == (if r.BattleStarted? then old(teams)[code := s.team] else old(teams))
    {
      if code !in teams {
        return BattleError(TeamNotFound);
      }
      var s := Teams.StartBattle(teams[code], callerId);
      r := s.response;
      if r.BattleStarted? {
        teams := teams[code := s.team];
      }
    }

    /** `submit_competition_result` (app.py:202-246): every known code takes
        the result. */
    method SubmitCompetitionResult(code: string, playerId: string, wpm: real, accuracy: real, timeTaken: real)
      returns (r: SubmitResponse)
      requires Valid()
      modifies this
      ensures Valid()
      ensures code !in old(teams) ==> r == SubmitError(TeamNotFound) && teams == old(teams)
      ensures code in old(teams) ==>
                var s := Submit(old(teams)[code], playerId, wpm, accuracy, timeTaken);
                r == s.response && teams == old(teams)[code := s.team]
    {
      if code !in teams {
        return SubmitError(TeamNotFound);
      }
      var s := Submit(teams[code], playerId, wpm, accuracy, timeTaken);
      teams := teams[code := s.team];
      r := s.response;
    }

    /** `reset_team` (app.py:248-269). */
    method ResetTeam(code: string, callerId: string, paragraph: string) returns (r: ResetResponse)
      requires Valid()
      modifies this
      ensures Valid()
      ensures code !in old(teams) ==> r == ResetError(TeamNotFound) && teams == old(teams)
      ensures code in old(teams) ==>
                var s := Reset(old(teams)[code], callerId, paragraph);
                && r == s.response
                && teams == (if r.TeamReset? then old(teams)[code := s.team] else old(teams))
    {
      if code !in teams {
        return ResetError(TeamNotFound);
      }
      var s := Reset(teams[code], callerId, paragraph);
      r := s.response;
      if r.TeamReset? {
        teams := teams[code := s.team];
      }
    }
  }

  /** The lobby of the race below: "A" created team "K1" and "B" joined it. */
  function Lobby(paragraph: string): Team
  {
    Team("A", ["A", "B"], Waiting, 0, paragraph, 5, [])
  }

  /** Forming a team: the creator is the admin, the second player joins with
      a lower-case code and is not the admin, a third player is turned away. */
  method FormTeam(server: Registry, paragraph: string)
    requires server.Valid() && server.teams == map[]
    modifies server
    ensures server.Valid() && server.teams == map["K1" := Lobby(paragraph)]
  {
    assert Upper("K1") == "K1";
    var created := server.CreateTeam("K1", "A", paragraph, 0);
    assert server.teams == map["K1" := Team("A", ["A"], Waiting, 0, paragraph, 5, [])];
    assert Upper("k1") == "K1" && Upper("K1") == "K1";
    var joined := server.JoinTeam("k1", "B");
    assert joined == Joined("K1", false, 2);
    assert ["A"] + ["B"] == ["A", "B"];
    assert server.teams == map["K1" := Lobby(paragraph)];
    var full := server.JoinTeam("K1", "C");
    assert full == JoinError(TeamFull);
  }

  /** Starting the race: the admin starts the countdown and ends it, and
      ending it a second time is refused. */
  method StartRace(server: Registry, paragraph: string)
    requires server.Valid() && server.teams == map["K1" := Lobby(paragraph)]
    modifies server
    ensures server.Valid() && server.teams == map["K1" := Lobby(paragraph).(status := Active)]
  {
    var started := server.StartCompetition("K1", "A");
    assert started == CountdownStarted(5, paragraph);
    var battle := server.StartBattle("K1", "A");
    assert battle == BattleStarted;
    var again := server.StartBattle("K1", "A");
    assert again == BattleError(NotInCountdown);
  }

  /** Finishing the race: the first result waits for one more, the second
      finishes the race, and the better combined score (60 x 98 / 100 = 58.8
      against 45) wins. */
  method FinishRace(server: Registry, paragraph: string)
    requires server.Valid() && server.teams == map["K1" := Lobby(paragraph).(status := Active)]
    modifies server
    ensures server.Valid() && "K1" in server.teams && server.teams["K1"].status == Finished
    ensures server.teams["K1"].adminId == "A" && server.teams["K1"].players == ["A", "B"]
  {
    var racing := Lobby(paragraph).(status := Active);
    var a := PlayerResult(60.0, 98.0, 20.0, 58.8);
    assert Put([], "A", a) == [("A", a)];
    var first := server.SubmitCompetitionResult("K1", "A", 60.0, 98.0, 20.0);
    assert first == ResultSubmitted(1);
    assert server.teams == map["K1" := racing.(results := [("A", a)])];
    var b := PlayerResult(45.0, 100.0, 25.0, 45.0);
    assert Put([("A", a)], "B", b) == [("A", a), ("B", b)];
    var second := server.SubmitCompetitionResult("K1", "B", 45.0, 100.0, 25.0);
    assert second == CompetitionFinished("A", 58.8, 45.0, [("A", a), ("B", b)]);
  }

  /** Starting over: only the admin may reset, and the reset keeps both
      players while clearing the race. */
  method StartOver(server: Registry, next: string)
    requires server.Valid() && "K1" in server.teams && server.teams["K1"].adminId == "A"
    requires server.teams["K1"].players == ["A", "B"]
    modifies server
    ensures server.Valid()
  {
    var forbidden := server.ResetTeam("K1", "B", next);
    assert forbidden == ResetError(OnlyAdminCanReset);
    var reset := server.ResetTeam("K1", "A", next);
    assert reset == TeamReset;
    var status := server.GetTeamStatus("K1");
    assert status == TeamStatus(Waiting, 5, ["A", "B"], next, []);
  }

  /** The two-player race from creating the team to starting over. */
  method TwoPlayerRace(paragraph: string, next: string)
  {
    var server := new Registry();
    FormTeam(server, paragraph);
    StartRace(server, paragraph);
    FinishRace(server, paragraph);
    StartOver(server, next);
  }
}
