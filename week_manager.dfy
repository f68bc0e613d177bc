/**
  The week manager (scripts/weekManager.js): on every tick it reads the gameweek
  rows once, sends due upcoming weeks live and closes live weeks whose fixtures have
  all finished. The clock is read once per tick; the feed's reply for a round is a
  parameter.
*/
module WeekManager {
  import opened Common
  import opened Tables
  import GameManager

  /** `String(c).toUpperCase()` on one character, for the ASCII letters. */
  function UpperChar(c: char): (u: char)
    ensures 'a' <= c <= 'z' ==> u as int == c as int - 32
    ensures !('a' <= c <= 'z') ==> u == c
  {
    if 'a' <= c <= 'z' then (c as int - 32) as char else c
  }

  /** `s.toUpperCase()`, letter by letter. */
  function Upper(s: string): (u: string)
    ensures |u| == |s|
    ensures forall i :: 0 <= i < |s| ==> u[i] == UpperChar(s[i])
  {
    seq(|s|, i requires 0 <= i < |s| => UpperChar(s[i]))
  }

  /** A string without lower-case ASCII letters is its own upper case. */
  lemma UpperFixesUpper(s: string)
    requires forall i :: 0 <= i < |s| ==> !('a' <= s[i] <= 'z')
    ensures Upper(s) == s
  {
  }

  /** Upper-casing twice is upper-casing once. */
  lemma UpperIdempotent(s: string)
    ensures Upper(Upper(s)) == Upper(s)
  {
    UpperFixesUpper(Upper(s));
  }

  /** The statuses the week manager accepts as finished, compared after upper-casing. */
  const DoneStatuses: set<string> := {"FT", "AET", "PEN", "FT_PEN", "ENDED", "POSTPONED", "CANCELLED"}

  /** The fixture feed's answer for one round: only each fixture's status is read. */
  datatype FeedReply =
    | FeedFailed                         // the request or the JSON parse threw
    | FeedJson(data: Option<seq<string>>) // `json.data`, `None` when missing

  /** `allFixturesFinished(week)`. */
  function AllFixturesFinished(reply: FeedReply): (done: bool)
    ensures done <==> reply.FeedJson? && reply.data.Some? && |reply.data.value| > 0
                      && forall i :: 0 <= i < |reply.data.value| ==> Upper(reply.data.value[i]) in DoneStatuses
  {
    match reply
    case FeedFailed => false
    case FeedJson(data) =>
      if data.None? || |data.value| == 0 then false
      else forall i :: 0 <= i < |data.value| ==> Upper(data.value[i]) in DoneStatuses
  }

  /** Case does not matter to the check: a lower-case `"ft"` counts as finished. */
  lemma CaseInsensitive(statuses: seq<string>)
    ensures AllFixturesFinished(FeedJson(Some(statuses)))
        == AllFixturesFinished(FeedJson(Some(seq(|statuses|, i requires 0 <= i < |statuses| => Upper(statuses[i])))))
  {
    var upper := seq(|statuses|, i requires 0 <= i < |statuses| => Upper(statuses[i]));
    forall i | 0 <= i < |statuses|
      ensures Upper(upper[i]) == Upper(statuses[i])
    {
      UpperIdempotent(statuses[i]);
    }
    assert (forall i :: 0 <= i < |upper| ==> Upper(upper[i]) in DoneStatuses)
       <==> (forall i :: 0 <= i < |statuses| ==> Upper(statuses[i]) in DoneStatuses);
  }

  /** What one tick requests for one gameweek row. */
  function TickStep(gw: Gameweek, now: int, reply: FeedReply): seq<WeekRequest> {
    (if gw.status == WeekStatus.Upcoming && gw.lockAt <= now then [GoLive(gw.week)] else [])
    + (if gw.status == WeekStatus.Live && AllFixturesFinished(reply) then [CloseWeek(gw.week)] else [])
  }

  /** The requests of one tick over rows `weeks`, row by row. */
  function TickSteps(weeks: seq<Gameweek>, now: int, replyOf: int -> FeedReply): seq<WeekRequest> {
    if weeks == [] then []
    else
      var n := |weeks| - 1;
      TickSteps(weeks[..n], now, replyOf) + TickStep(weeks[n], now, replyOf(weeks[n].week))
  }

  /**
    `tick()`: `weeks` is the gameweek query (`None` when it failed, which the tick
    swallows), `now` the clock and `replyOf(week)` the feed's reply for that round.
  */
  method Tick(weeks: Option<seq<Gameweek>>, now: int, replyOf: int -> FeedReply)
    returns (requests: seq<WeekRequest>)
    ensures weeks.None? ==> requests == []
    ensures weeks.Some? ==> requests == TickSteps(weeks.value, now, replyOf)
  {
    requests := [];
    if weeks.None? {
      return;
    }
    var rows := weeks.value;
    var i := 0;
    while i < |rows|
      invariant 0 <= i <= |rows|
      invariant requests == TickSteps(rows[..i], now, replyOf)
    {
      var gw := rows[i];
      assert rows[..i + 1][..i] == rows[..i];
      if gw.status == WeekStatus.Upcoming && gw.lockAt <= now {
        requests := requests + [GoLive(gw.week)];
      }
      if gw.status == WeekStatus.Live {
        var fixturesDone := AllFixturesFinished(replyOf(gw.week));
        if fixturesDone {
          requests := requests + [CloseWeek(gw.week)];
        }
      }
      i := i + 1;
    }
    assert rows[..i] == rows;
  }

  /**
    A tick only moves weeks forward: a request to go live names an upcoming week
    that is due, a request to close names a live week whose fixtures have all
    finished, and every request names a row of the tick.
  */
  lemma {:induction false} TickIsForward(weeks: seq<Gameweek>, now: int, replyOf: int -> FeedReply, r: WeekRequest)
    requires r in TickSteps(weeks, now, replyOf)
    ensures r.GoLive? ==> exists i :: 0 <= i < |weeks| && weeks[i].week == r.week
                                      && weeks[i].status == WeekStatus.Upcoming && weeks[i].lockAt <= now
    ensures r.CloseWeek? ==> exists i :: 0 <= i < |weeks| && weeks[i].week == r.week && weeks[i].status == WeekStatus.Live
                                         && AllFixturesFinished(replyOf(r.week))
    ensures !r.RunLiveWeek?
  {
    var n := |weeks| - 1;
    assert weeks != [];
    if r in TickSteps(weeks[..n], now, replyOf) {
      TickIsForward(weeks[..n], now, replyOf, r);
      if r.GoLive? {
        var i :| 0 <= i < n && weeks[..n][i].week == r.week
                 && weeks[..n][i].status == WeekStatus.Upcoming && weeks[..n][i].lockAt <= now;
        assert weeks[i] == weeks[..n][i];
      }
      if r.CloseWeek? {
        var i :| 0 <= i < n && weeks[..n][i].week == r.week && weeks[..n][i].status == WeekStatus.Live
                 && AllFixturesFinished(replyOf(r.week));
        assert weeks[i] == weeks[..n][i];
      }
    }
  }

  /** No row is both sent live and closed by one tick. */
  lemma TickStepNeverSkipsLive(gw: Gameweek, now: int, reply: FeedReply)
    ensures !(GoLive(gw.week) in TickStep(gw, now, reply) && CloseWeek(gw.week) in TickStep(gw, now, reply))
    ensures CloseWeek(gw.week) in TickStep(gw, now, reply) <==> gw.status == WeekStatus.Live && AllFixturesFinished(reply)
  {
  }

  /**
    The two completion checks disagree: on a round without fixtures the game
    manager closes the week and the week manager does not, and the week manager
    also accepts `PEN`, `ENDED` and lower-case statuses, which the game manager
    does not.
  */
  lemma CompletionChecksDisagree()
    ensures GameManager.AllDone([]) && !AllFixturesFinished(FeedJson(Some([])))
    ensures AllFixturesFinished(FeedJson(Some(["ft"]))) && "ft" !in GameManager.DoneStatuses
    ensures AllFixturesFinished(FeedJson(Some(["ENDED"]))) && "ENDED" !in GameManager.DoneStatuses
  {
    assert Upper("ft") == "FT";
    assert Upper("ENDED") == "ENDED";
  }

  /**
    Where the game manager finds a non-empty round finished, so does the week
    manager: its accepted statuses include the game manager's, which are upper case.
  */
  lemma GameManagerDoneImpliesFinished(statuses: seq<string>)
    requires |statuses| > 0
    requires forall i :: 0 <= i < |statuses| ==> statuses[i] in GameManager.DoneStatuses
    ensures AllFixturesFinished(FeedJson(Some(statuses)))
  {
    forall i | 0 <= i < |statuses|
      ensures Upper(statuses[i]) in DoneStatuses
    {
      var s := statuses[i];
      assert s == "FT" || s == "AET" || s == "FT_PEN" || s == "CANCELLED" || s == "POSTPONED";
      UpperFixesUpper(s);
    }
  }
}
