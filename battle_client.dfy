/** The battle page (`BattleMode` in static/script.js): the per-viewer state
    kept between polls, timer ticks and input events. The latches
    `countdownStarted`, `adminNotified` and the countdown interval decide what
    is shown once per race. Responses of the server, clock readings and the
    text in the input box are parameters; timers firing are explicit calls. */
module BattleClient {
  import opened Options
  import opened Teams
  import Scoring

  /** What one status poll asks the page to do. */
  datatype PollEffects = PollEffects(
    startDisabled: Option<bool>,  // the Start Battle button's `disabled`, `None` if untouched
    notifyAdmin: bool,            // the "both players joined" notification
    showCountdown: bool,          // the read-only countdown view
    scheduleBegin: bool)          // `beginBattle` after 100 ms

  /** What one tick of the countdown interval asks the page to do. */
  datatype TickEffects = TickEffects(notifyFinished: bool, scheduleBegin: bool)

  /** The body `completeBattle` posts to `/submit_competition_result`; a
      `None` accuracy is the `NaN` of an empty paragraph. */
  datatype Submission = Submission(teamCode: Option<string>, playerId: string, wpm: real,
                                   accuracy: Option<real>, timeTaken: real)

  class BattleMode {
    const playerId: string
    var currentTeam: Option<string>
    var isAdmin: bool
    var battleActive: bool
    var battleStartTime: Option<int>
    var currentBattleParagraph: string
    var adminNotified: bool
    var countdownInterval: bool   // whether the countdown's interval is registered
    var countdown: int            // the count the interval's callback decrements
    var countdownStarted: bool

    /** A running countdown counts from 5 down to 1; a running battle has a
        start time. */
    ghost predicate Valid()
      reads this
    {
      (countdownInterval ==> 1 <= countdown <= 5) &&
      (battleActive ==> battleStartTime.Some?)
    }

    /** The constructor; the random player id is a parameter
        (static/script.js:202-212). */
    constructor (id: string)
      ensures Valid() && playerId == id && currentTeam.None? && !isAdmin && !battleActive
      ensures !adminNotified && !countdownInterval && !countdownStarted && currentBattleParagraph == ""
    {
      playerId := id;
      currentTeam := None;
      isAdmin := false;
      battleActive := false;
      battleStartTime := None;
      currentBattleParagraph := "";
      adminNotified := false;
      countdownInterval := false;
      countdown := 5;
      countdownStarted := false;
    }

    /** Whether the one-second status timer polls (static/script.js:775-779). */
    predicate PollsStatus()
      reads this
    {
      currentTeam.Some? && !battleActive
    }

    /** `createTeam` once the server answered (static/script.js:326-333). The
        Start Battle button is disabled: a new team has one player. */
    method TeamCreated(response: CreateResponse) returns (startDisabled: Option<bool>)
      modifies this
      ensures currentTeam == Some(response.teamCode) && isAdmin
      ensures startDisabled == Some(true)
      ensures PollsStatus() <==> !battleActive
      ensures battleActive == old(battleActive) && countdownInterval == old(countdownInterval)
      ensures adminNotified == old(adminNotified) && countdownStarted == old(countdownStarted)
      ensures countdown == old(countdown) && battleStartTime == old(battleStartTime)
      ensures currentBattleParagraph == old(currentBattleParagraph)
    {
      currentTeam := Some(response.teamCode);
      isAdmin := true;
      startDisabled := Some(true);
    }

    /** `joinTeam` once the server answered (static/script.js:365-373):
        `startDisabled` is `None` when the page does not touch the button. */
    method TeamJoined(teamCode: string, response: JoinResponse) returns (startDisabled: Option<bool>)
      modifies this
      ensures response.JoinError? ==>
                startDisabled.None? && currentTeam == old(currentTeam) && isAdmin == old(isAdmin)
      ensures response.Joined? ==>
                && currentTeam == Some(teamCode) && isAdmin == response.isAdmin
                && startDisabled == Some(!response.isAdmin || response.playerCount < 2)
                && (PollsStatus() <==> !battleActive)
      ensures battleActive == old(battleActive) && countdownInterval == old(countdownInterval)
      ensures adminNotified == old(adminNotified) && countdownStarted == old(countdownStarted)
      ensures countdown == old(countdown) && battleStartTime == old(battleStartTime)
      ensures currentBattleParagraph == old(currentBattleParagraph)
    {
      if response.JoinError? {
        return None;
      }
      currentTeam := Some(teamCode);
      isAdmin := response.isAdmin;
      startDisabled := Some(!isAdmin || response.playerCount < 2);
    }

    /** `pollTeamStatus` with the server's answer (static/script.js:805-856).
        The button is disabled unless this viewer is the admin of a full team;
        the admin is told once that both players are in, and the latch drops
        whenever that stops being so; the countdown view is shown on the first
        `countdown` poll only; an `active` poll re-arms that latch and starts
        the battle. */
    method PollTeamStatus(response: StatusResponse) returns (e: PollEffects)
      requires Valid()
      modifies this
      ensures Valid()
      ensures response.StatusError? ==>
                && e == PollEffects(None, false, false, false)
                && adminNotified == old(adminNotified) && countdownStarted == old(countdownStarted)
                && currentBattleParagraph == old(currentBattleParagraph)
      ensures response.TeamStatus? ==>
                var ready := isAdmin && |response.players| == 2;
                && e.startDisabled == Some(!isAdmin || |response.players| < 2)
                && adminNotified == ready
                && (e.notifyAdmin <==> ready && !old(adminNotified))
      ensures response.TeamStatus? && response.status == Countdown ==>
                && (e.showCountdown <==> !old(countdownStarted))
                && countdownStarted
                && currentBattleParagraph == (if old(countdownStarted) then old(currentBattleParagraph) else response.paragraph)
                && !e.scheduleBegin
      ensures response.TeamStatus? && response.status == Active ==>
                && !countdownStarted && e.scheduleBegin && !e.showCountdown
                && currentBattleParagraph == response.paragraph
      ensures response.TeamStatus? && response.status != Countdown && response.status != Active ==>
                && !e.showCountdown && !e.scheduleBegin
                && countdownStarted == old(countdownStarted)
                && currentBattleParagraph == old(currentBattleParagraph)
      ensures currentTeam == old(currentTeam) && isAdmin == old(isAdmin) && battleActive == old(battleActive)
      ensures countdownInterval == old(countdownInterval) && countdown == old(countdown)
      ensures battleStartTime == old(battleStartTime)
    {
      if response.StatusError? {
        return PollEffects(None, false, false, false);
      }
      var count := |response.players|;
      var startDisabled := !isAdmin || count < 2;
      var notify := false;
      if isAdmin && count == 2 {
        if !adminNotified {
          adminNotified := true;
          notify := true;
        }
      } else {
        adminNotified := false;
      }
      var show, begin := false, false;
      if response.status == Countdown {
        if !countdownStarted {
          currentBattleParagraph := response.paragraph;
          show := true;
          countdownStarted := true;
        }
      } else if response.status == Active {
        currentBattleParagraph := response.paragraph;
        countdownStarted := false;
        begin := true;
      }
      if count == 2 && isAdmin {
        startDisabled := false;
      }
      e := PollEffects(Some(startDisabled), notify, show, begin);
    }

    /** `startBattle` once `/start_competition` answered: a started countdown
        takes the paragraph and starts the local countdown
        (static/script.js:424-428). Viewers who are not the admin send no
        request (static/script.js:403-406). */
    method CompetitionStarted(response: StartResponse) returns (started: bool)
      requires Valid()
      modifies this
      ensures Valid()
      ensures started <==> response.CountdownStarted? && !old(countdownInterval)
      ensures response.CountdownStarted? ==> currentBattleParagraph == response.paragraph && countdownInterval
      ensures response.StartError? ==> currentBattleParagraph == old(currentBattleParagraph)
      ensures started ==> countdown == 5
      ensures !started ==> countdown == old(countdown) && countdownInterval == old(countdownInterval)
      ensures currentTeam == old(currentTeam) && isAdmin == old(isAdmin) && battleActive == old(battleActive)
      ensures adminNotified == old(adminNotified) && countdownStarted == old(countdownStarted)
      ensures battleStartTime == old(battleStartTime)
    {
      started := false;
      if response.CountdownStarted? {
        currentBattleParagraph := response.paragraph;
        started := StartCountdown();
      }
    }

    /** `startCountdown` (static/script.js:447-460): a call while the interval
        is registered is ignored; otherwise the count starts at 5. */
    method StartCountdown() returns (started: bool)
      requires Valid()
      modifies this
      ensures Valid()
      ensures started <==> !old(countdownInterval)
      ensures countdownInterval
      ensures started ==> countdown == 5
      ensures !started ==> countdown == old(countdown)
      ensures currentTeam == old(currentTeam) && isAdmin == old(isAdmin) && battleActive == old(battleActive)
      ensures adminNotified == old(adminNotified) && countdownStarted == old(countdownStarted)
      ensures battleStartTime == old(battleStartTime) && currentBattleParagraph == old(currentBattleParagraph)
    {
      if countdownInterval {
        return false;
      }
      countdown := 5;
      countdownInterval := true;
      started := true;
    }

    /** One firing of the countdown interval (static/script.js:460-478): the
        count drops by one; at zero the interval is cleared, the admin alone
        tells the server the countdown is over, and the battle begins after
        100 ms. */
    method CountdownTick() returns (e: TickEffects)
      requires Valid() && countdownInterval
      modifies this
      ensures Valid()
      ensures countdown == old(countdown) - 1
      ensures countdownInterval <==> countdown > 0
      ensures e.scheduleBegin <==> countdown <= 0
      ensures e.notifyFinished <==> countdown <= 0 && isAdmin
      ensures currentTeam == old(currentTeam) && isAdmin == old(isAdmin) && battleActive == old(battleActive)
      ensures adminNotified == old(adminNotified) && countdownStarted == old(countdownStarted)
      ensures battleStartTime == old(battleStartTime) && currentBattleParagraph == old(currentBattleParagraph)
    {
      countdown := countdown - 1;
      e := TickEffects(false, false);
      if countdown <= 0 {
        countdownInterval := false;
        e := TickEffects(isAdmin, true);
      }
    }

    /** `beginBattle` (static/script.js:499-504). */
    method BeginBattle(now: int)
      requires Valid()
      modifies this
      ensures Valid()
      ensures battleActive && battleStartTime == Some(now) && !PollsStatus()
      ensures currentTeam == old(currentTeam) && isAdmin == old(isAdmin)
      ensures adminNotified == old(adminNotified) && countdownStarted == old(countdownStarted)
      ensures countdownInterval == old(countdownInterval) && countdown == old(countdown)
      ensures currentBattleParagraph == old(currentBattleParagraph)
    {
      battleActive := true;
      battleStartTime := Some(now);
    }

    /** `handleBattleTyping` (static/script.js:589-598): while the battle runs,
        an input as long as the paragraph ends it; `completeBattle`
        (static/script.js:611-645) then computes the figures it submits, with
        the same matching count as the live accuracy and the same
        words-per-minute rule as the live statistics. */
    method HandleBattleTyping(typed: string, now: int) returns (submission: Option<Submission>)
      requires Valid()
      modifies this
      ensures Valid()
      ensures submission.Some? <==> old(battleActive) && Scoring.IsComplete(typed, currentBattleParagraph)
      ensures submission.None? ==> battleActive == old(battleActive)
      ensures submission.Some? ==>
                var timeTaken := (now - old(battleStartTime).value) as real / 1000.0;
                && !battleActive
                && submission.value == Submission(currentTeam, playerId, Scoring.Wpm(|typed|, timeTaken / 60.0),
                                                  Scoring.BattleAccuracy(currentBattleParagraph, typed), timeTaken)
      ensures currentTeam == old(currentTeam) && isAdmin == old(isAdmin)
      ensures adminNotified == old(adminNotified) && countdownStarted == old(countdownStarted)
      ensures countdownInterval == old(countdownInterval) && countdown == old(countdown)
      ensures battleStartTime == old(battleStartTime) && currentBattleParagraph == old(currentBattleParagraph)
    {
      if !battleActive {
        return None;
      }
      if |typed| < |currentBattleParagraph| {
        return None;
      }
      battleActive := false;
      var timeTaken := (now - battleStartTime.value) as real / 1000.0;
      var timeInMinutes := timeTaken / 60.0;
      var wpm := if timeInMinutes > 0.0 then (|typed| as real / 5.0) / timeInMinutes else 0.0;
      var accuracy := Scoring.BattleAccuracy(currentBattleParagraph, typed);
      submission := Some(Submission(currentTeam, playerId, wpm, accuracy, timeTaken));
    }

    /** `handleBattleKeydown` (static/script.js:600-609). */
    method HandleBattleKeydown(typed: string, key: string) returns (prevent: bool)
      ensures prevent <==> Scoring.SuppressesKey(battleActive, typed, currentBattleParagraph, key)
    {
      prevent := false;
      if !battleActive {
        return;
      }
      if |typed| >= |currentBattleParagraph| {
        if key == "Backspace" || key == "Delete" {
          prevent := true;
        }
      }
    }

    /** `resetBattleState` (static/script.js:717-735): the battle stops, the
        paragraph is cleared, the countdown interval is cleared and the
        countdown latch re-armed. */
    method ResetBattleState()
      requires Valid()
      modifies this
      ensures Valid()
      ensures !battleActive && battleStartTime.None? && currentBattleParagraph == ""
      ensures PollsStatus() <==> currentTeam.Some?
      ensures !countdownInterval && !countdownStarted
      ensures currentTeam == old(currentTeam) && isAdmin == old(isAdmin)
      ensures adminNotified == old(adminNotified) && countdown == old(countdown)
    {
      battleActive := false;
      battleStartTime := None;
      currentBattleParagraph := "";
      if countdownInterval {
        countdownInterval := false;
      }
      countdownStarted := false;
    }

    /** `startNewBattle` (static/script.js:681-715): the admin resets the team
        and, once the server confirms, the local battle state, and enables the
        Start Battle button; for anyone else the page just goes back to the
        lobby and the button is untouched (`None`). */
    method StartNewBattle(response: ResetResponse) returns (startDisabled: Option<bool>)
      requires Valid()
      modifies this
      ensures Valid()
      ensures startDisabled == if isAdmin && response.TeamReset? then Some(false) else None
      ensures isAdmin && response.TeamReset? ==>
                !battleActive && battleStartTime.None? && currentBattleParagraph == "" &&
                !countdownInterval && !countdownStarted
      ensures !(isAdmin && response.TeamReset?) ==>
                battleActive == old(battleActive) && countdownStarted == old(countdownStarted) &&
                countdownInterval == old(countdownInterval) && currentBattleParagraph == old(currentBattleParagraph) &&
                battleStartTime == old(battleStartTime)
      ensures currentTeam == old(currentTeam) && isAdmin == old(isAdmin)
      ensures adminNotified == old(adminNotified) && countdown == old(countdown)
    {
      startDisabled := None;
      if isAdmin && response.TeamReset? {
        startDisabled := Some(false);
        ResetBattleState();
      }
    }

    /** `leaveTeam` (static/script.js:750-753). */
    method LeaveTeam()
      requires Valid()
      modifies this
      ensures Valid()
      ensures currentTeam.None? && !isAdmin && !battleActive && !PollsStatus()
      ensures adminNotified == old(adminNotified) && countdownStarted == old(countdownStarted)
      ensures countdownInterval == old(countdownInterval) && countdown == old(countdown)
      ensures battleStartTime == old(battleStartTime) && currentBattleParagraph == old(currentBattleParagraph)
    {
      currentTeam := None;
      isAdmin := false;
      battleActive := false;
    }
  }

  /** The completion figures are the live ones: the battle's words per minute
      over `(ms / 1000) / 60` minutes are the live statistics' over
      `ms / 60000`, and its accuracy is `calculateAccuracy`'s whenever the
      paragraph is not empty (static/script.js:84-92, static/script.js:621-629). */
  lemma BattleFiguresMatchLiveStats(paragraph: string, typed: string, elapsedMs: int)
    ensures Scoring.Wpm(|typed|, elapsedMs as real / 1000.0 / 60.0) == Scoring.Wpm(|typed|, elapsedMs as real / 60000.0)
    ensures |paragraph| > 0 ==>
              Scoring.BattleAccuracy(paragraph, typed) == Some(Scoring.ClientAccuracy(paragraph, typed))
  {
  }

  /** A viewer who keeps polling a team in countdown sees the countdown view
      once: the second poll finds the latch set and does nothing. */
  method RepeatedCountdownPolls(viewer: BattleMode, view: StatusResponse)
    requires viewer.Valid() && !viewer.countdownStarted
    requires view.TeamStatus? && view.status == Countdown
    modifies viewer
  {
    var first := viewer.PollTeamStatus(view);
    assert first.showCountdown && viewer.currentBattleParagraph == view.paragraph;
    var second := viewer.PollTeamStatus(view);
    assert !second.showCountdown && viewer.currentBattleParagraph == view.paragraph;
  }

  /** The admin's countdown: started once (a second start is ignored), five
      ticks to zero, and only the last tick tells the server and begins the
      battle. */
  method AdminCountdown(admin: BattleMode)
    requires admin.Valid() && admin.isAdmin && !admin.countdownInterval
    modifies admin
  {
    var started := admin.StartCountdown();
    var ignored := admin.StartCountdown();
    assert started && !ignored && admin.countdown == 5;
    var tick := admin.CountdownTick();
    assert !tick.notifyFinished && admin.countdownInterval;
    tick := admin.CountdownTick();
    tick := admin.CountdownTick();
    tick := admin.CountdownTick();
    assert !tick.scheduleBegin && admin.countdown == 1;
    tick := admin.CountdownTick();
    assert tick == TickEffects(true, true) && !admin.countdownInterval;
  }
}
