/**
  The player page's state (`PlayerPage` in src/pages/PlayerPage.jsx): the
  profile request made on mount, and the season-stats or game-log request
  made whenever the selected season or the tab changes, each taken as one
  step that sends the request and applies its reply.
 */
module PlayerPage {
  import opened Wrappers
  import opened Text
  import opened Api
  import opened StatCards
  import opened GameLog

  /** The three tabs; the page opens on the career tab. */
  datatype Tab = CareerTab | SeasonTab | GameLogTab

  /** The fields of a player profile that the state logic reads. */
  datatype Profile = Profile(name: string, careerStats: Option<StatLine>, availableSeasons: Option<seq<int>>)

  /** How a request ends: a response with its status line and parsed body, or a rejected `fetch`. */
  datatype Reply<T> = Received(ok: bool, status: nat, statusText: string, body: T) | NetworkError(message: string)

  /** What the promise returned by the `api.js` helper settles to. */
  function Outcome<T>(reply: Reply<T>): (r: Result<T, string>)
    ensures r.Success? <==> reply.Received? && reply.ok
    ensures r.Success? ==> r.value == reply.body
    ensures reply.Received? && !reply.ok ==> ParseStatusLine(r.error) == (reply.status, reply.statusText)
    ensures reply.Received? && !reply.ok ==> r.error == IntToString(reply.status) + " " + reply.statusText
    ensures reply.NetworkError? ==> r == Failure(reply.message)
  {
    match reply
    case Received(ok, status, statusText, body) => FetchOutcome(ok, status, statusText, body)
    case NetworkError(message) => Failure(message)
  }

  /** The selected season as it reaches `api.js`: `null` until one is chosen. */
  function SeasonArg(season: Option<int>): (v: JsValue)
    ensures Truthy(v) <==> season.Some? && season.value != 0
  {
    if season.None? then JsNull else Num(season.value)
  }

  /** The request the second effect sends. */
  datatype Request = SeasonStatsRequest(path: string) | GameLogRequest(path: string)

  /**
    The second effect's decision: no request unless a season is selected (and
    truthy) and the tab is not the career tab; the season tab asks for the
    season's stats and the game-log tab for that season's game log.
   */
  function SecondaryRequest(playerId: string, season: Option<int>, tab: Tab): (r: Option<Request>)
    ensures r.Some? <==> Truthy(SeasonArg(season)) && tab != CareerTab
    ensures r.Some? ==> (r.value.SeasonStatsRequest? <==> tab == SeasonTab)
  {
    var id, s := Str(playerId), SeasonArg(season);
    if !Truthy(s) || tab == CareerTab then None
    else if tab == SeasonTab then Some(SeasonStatsRequest(PlayerSeasonStatsPath(id, s)))
    else Some(GameLogRequest(PlayerGameLogPath(id, s)))
  }

  /**
    The request names the selected season's stats or game log of the page's
    player; the game log is always asked for by season, never for the whole
    career. The lemma assumes a player id without a `/`: the path builders
    interpolate it unencoded, so a `/` would split it into two segments.
   */
  lemma SecondaryRequestRoutes(playerId: string, season: Option<int>, tab: Tab)
    requires '/' !in playerId
    requires SecondaryRequest(playerId, season, tab).Some?
    ensures Route(SecondaryRequest(playerId, season, tab).value.path) == Some(
      if tab == SeasonTab then PlayerSeasonStats(playerId, IntToString(season.value))
      else PlayerGameLog(playerId, Some(IntToString(season.value))))
  {
    var id, s := Str(playerId), SeasonArg(season);
    if tab == SeasonTab {
      RoutePlayerSeasonStats(id, s);
    } else {
      RoutePlayerGameLog(id, s);
    }
  }

  /**
    `if (stats) setSeasonStats(stats)`: the season stats change only on a
    successful, non-null reply to a season-stats request, and then to that reply.
   */
  function StatsAfter(current: Option<StatLine>, req: Request, reply: Reply<Option<StatLine>>): (r: Option<StatLine>)
    ensures r != current ==> req.SeasonStatsRequest? && Outcome(reply).Success? && Outcome(reply).value.Some? && r == Outcome(reply).value
    ensures req.SeasonStatsRequest? && Outcome(reply).Success? && Outcome(reply).value.Some? ==> r == Outcome(reply).value
  {
    if req.SeasonStatsRequest? then
      match Outcome(reply)
      case Success(stats) => if stats.Some? then stats else current
      case Failure(_) => current
    else current
  }

  /**
    `if (games) setGameLog(games)`: the game log changes only on a successful,
    non-null reply to a game-log request, and then to that reply; an empty
    array is truthy, so an empty log is written too.
   */
  function LogAfter(current: Option<seq<Game>>, req: Request, reply: Reply<Option<seq<Game>>>): (r: Option<seq<Game>>)
    ensures r != current ==> req.GameLogRequest? && Outcome(reply).Success? && Outcome(reply).value.Some? && r == Outcome(reply).value
    ensures req.GameLogRequest? && Outcome(reply).Success? && Outcome(reply).value.Some? ==> r == Outcome(reply).value
  {
    if req.GameLogRequest? then
      match Outcome(reply)
      case Success(games) => if games.Some? then games else current
      case Failure(_) => current
    else current
  }

  /** A game-log request never writes the season stats, whatever its reply. */
  lemma GameLogRequestKeepsStats(current: Option<StatLine>, path: string, reply: Reply<Option<StatLine>>)
    ensures StatsAfter(current, GameLogRequest(path), reply) == current
  {
  }

  /** A season-stats request never writes the game log, whatever its reply. */
  lemma StatsRequestKeepsLog(current: Option<seq<Game>>, path: string, reply: Reply<Option<seq<Game>>>)
    ensures LogAfter(current, SeasonStatsRequest(path), reply) == current
  {
  }

  /** A failed request writes nothing: a failed reply leaves the field it would have written as it was. */
  lemma FailureWritesNothing(stats: Option<StatLine>, log: Option<seq<Game>>, req: Request,
                             statsReply: Reply<Option<StatLine>>, logReply: Reply<Option<seq<Game>>>)
    ensures Outcome(statsReply).Failure? ==> StatsAfter(stats, req, statsReply) == stats
    ensures Outcome(logReply).Failure? ==> LogAfter(log, req, logReply) == log
  {
  }

  /** `if (stats)` / `if (games)`: a reply whose body is `null` leaves the field it would have written as it was. */
  lemma NullReplyWritesNothing(stats: Option<StatLine>, log: Option<seq<Game>>, req: Request,
                               statsReply: Reply<Option<StatLine>>, logReply: Reply<Option<seq<Game>>>)
    ensures statsReply.Received? && statsReply.body.None? ==> StatsAfter(stats, req, statsReply) == stats
    ensures logReply.Received? && logReply.body.None? ==> LogAfter(log, req, logReply) == log
  {
  }

  /** A season the profile offers. */
  predicate Offered(p: Profile, season: int)
  {
    p.availableSeasons.Some? && season in p.availableSeasons.value
  }

  /** The season selected when the profile arrives: the first available one, else the current one. */
  function DefaultSeason(p: Profile, current: Option<int>): (s: Option<int>)
    ensures p.availableSeasons.Some? && |p.availableSeasons.value| > 0 ==> s == Some(p.availableSeasons.value[0])
    ensures !(p.availableSeasons.Some? && |p.availableSeasons.value| > 0) ==> s == current
    ensures s != current ==> s.Some? && Offered(p, s.value)
  {
    if p.availableSeasons.Some? && |p.availableSeasons.value| > 0 then Some(p.availableSeasons.value[0]) else current
  }

  /** Seasons listed newest first select the newest season. */
  lemma NewestSeasonSelected(name: string)
    ensures DefaultSeason(Profile(name, None, Some([2023, 2022, 2021])), None) == Some(2023)
  {
  }

  /** The page's `useState` fields and the effects that update them. */
  class Page {
    const playerId: string
    var profile: Option<Profile>
    var loading: bool
    var error: Option<string>
    var tab: Tab
    var selectedSeason: Option<int>
    var seasonStats: Option<StatLine>
    var gameLog: Option<seq<Game>>
    var seasonLoading: bool

    /**
      Between steps: no season request is pending; while the profile loads
      nothing else has been set; once it has loaded, exactly one of the
      profile and the error is present; a selected season is one the profile
      offers; and season data only exists once a season has been selected.
     */
    predicate Valid()
      reads this
    {
      && !seasonLoading
      && (loading ==> profile.None? && error.None? && tab == CareerTab && selectedSeason.None?
                      && seasonStats.None? && gameLog.None?)
      && (!loading ==> (profile.Some? <==> error.None?))
      && (selectedSeason.Some? ==> profile.Some? && Offered(profile.value, selectedSeason.value))
      && (seasonStats.Some? || gameLog.Some? ==> selectedSeason.Some?)
    }

    /** The initial `useState` values; the second effect's first run returns at once, as no season is selected. */
    constructor(playerId: string)
      ensures Valid()
      ensures this.playerId == playerId
      ensures profile.None? && loading && error.None? && tab == CareerTab
      ensures selectedSeason.None? && seasonStats.None? && gameLog.None? && !seasonLoading
    {
      this.playerId := playerId;
      profile := None;
      loading := true;
      error := None;
      tab := CareerTab;
      selectedSeason := None;
      seasonStats := None;
      gameLog := None;
      seasonLoading := false;
    }

    /**
      One run of the second effect, from sending the request to the
      `finally`: `req` is the request sent, if any; only the reply that
      matches it is read; `seasonLoading` is false again afterwards.
     */
    method SeasonEffect(statsReply: Reply<Option<StatLine>>, logReply: Reply<Option<seq<Game>>>)
      returns (req: Option<Request>)
      requires Valid()
      modifies this
      ensures Valid()
      ensures req == SecondaryRequest(playerId, selectedSeason, tab)
      ensures req.None? ==> seasonStats == old(seasonStats) && gameLog == old(gameLog) && seasonLoading == old(seasonLoading)
      ensures req.Some? ==> seasonStats == StatsAfter(old(seasonStats), req.value, statsReply)
      ensures req.Some? ==> gameLog == LogAfter(old(gameLog), req.value, logReply)
      ensures req.Some? ==> !seasonLoading
      ensures profile == old(profile) && loading == old(loading) && error == old(error)
      ensures tab == old(tab) && selectedSeason == old(selectedSeason)
    {
      req := SecondaryRequest(playerId, selectedSeason, tab);
      if req.None? {
        return;
      }
      seasonLoading := true;
      seasonStats := StatsAfter(seasonStats, req.value, statsReply);
      gameLog := LogAfter(gameLog, req.value, logReply);
      seasonLoading := false;
    }

    /**
      The profile effect, from the request to the `finally`: on success the
      profile is stored and the first available season, if any, selected;
      on failure the error message is stored. The second effect then runs
      again if the selected season changed, and, the tab still being the
      career tab, sends nothing.
     */
    method LoadProfile(reply: Reply<Profile>, statsReply: Reply<Option<StatLine>>, logReply: Reply<Option<seq<Game>>>)
      returns (req: Option<Request>)
      requires Valid() && loading
      modifies this
      ensures Valid() && !loading
      ensures Outcome(reply).Success? ==>
        profile == Some(reply.body) && error.None? && selectedSeason == DefaultSeason(reply.body, old(selectedSeason))
      ensures Outcome(reply).Failure? ==>
        profile.None? && error == Some(Outcome(reply).error) && selectedSeason == old(selectedSeason)
      ensures req.None?
      ensures tab == old(tab) && seasonStats == old(seasonStats) && gameLog == old(gameLog)
    {
      var before := selectedSeason;
      var outcome := Outcome(reply);
      if outcome.Success? {
        profile := Some(outcome.value);
        selectedSeason := DefaultSeason(outcome.value, selectedSeason);
      } else {
        error := Some(outcome.error);
      }
      loading := false;
      req := None;
      if selectedSeason != before {
        req := SeasonEffect(statsReply, logReply);
      }
    }

    /** A click on a tab; the second effect runs only if the tab changed. */
    method SelectTab(t: Tab, statsReply: Reply<Option<StatLine>>, logReply: Reply<Option<seq<Game>>>)
      returns (req: Option<Request>)
      requires Valid() && !loading && profile.Some?
      modifies this
      ensures Valid()
      ensures tab == t
      ensures t == old(tab) ==> req.None? && seasonStats == old(seasonStats) && gameLog == old(gameLog)
      ensures t != old(tab) ==> req == SecondaryRequest(playerId, selectedSeason, t)
      ensures req.Some? ==> seasonStats == StatsAfter(old(seasonStats), req.value, statsReply)
      ensures req.Some? ==> gameLog == LogAfter(old(gameLog), req.value, logReply)
      ensures req.None? ==> seasonStats == old(seasonStats) && gameLog == old(gameLog)
      ensures profile == old(profile) && loading == old(loading) && error == old(error)
      ensures selectedSeason == old(selectedSeason)
    {
      req := None;
      if t != tab {
        tab := t;
        req := SeasonEffect(statsReply, logReply);
      }
    }

    /**
      A choice in the season drop-down, which lists only the profile's seasons
      and is shown only off the career tab; the second effect runs only if the
      season changed.
     */
    method SelectSeason(s: int, statsReply: Reply<Option<StatLine>>, logReply: Reply<Option<seq<Game>>>)
      returns (req: Option<Request>)
      requires Valid() && !loading && profile.Some? && tab != CareerTab && Offered(profile.value, s)
      modifies this
      ensures Valid()
      ensures selectedSeason == Some(s)
      ensures Some(s) == old(selectedSeason) ==> req.None?
      ensures Some(s) != old(selectedSeason) ==> req == SecondaryRequest(playerId, Some(s), tab)
      ensures req.Some? ==> seasonStats == StatsAfter(old(seasonStats), req.value, statsReply)
      ensures req.Some? ==> gameLog == LogAfter(old(gameLog), req.value, logReply)
      ensures req.None? ==> seasonStats == old(seasonStats) && gameLog == old(gameLog)
      ensures profile == old(profile) && loading == old(loading) && error == old(error) && tab == old(tab)
    {
      req := None;
      if Some(s) != selectedSeason {
        selectedSeason := Some(s);
        req := SeasonEffect(statsReply, logReply);
      }
    }
  }

  /**
    A session: the profile arrives offering 2023 and 2022; nothing is fetched
    on the career tab; opening the game log fetches the 2023 game log, and
    switching to the season tab fetches the 2023 season stats and leaves the
    game log as it was.
   */
  method GameLogThenSeason(log: seq<Game>, stats: StatLine) returns (page: Page)
    ensures page.Valid() && page.tab == SeasonTab && page.selectedSeason == Some(2023)
    ensures page.gameLog == Some(log) && page.seasonStats == Some(stats)
  {
    page := new Page("12");
    var profile := Profile("Player", None, Some([2023, 2022]));
    var noStats: Reply<Option<StatLine>> := NetworkError("unused");
    var noLog: Reply<Option<seq<Game>>> := NetworkError("unused");
    var r0 := page.LoadProfile(Received(true, 200, "OK", profile), noStats, noLog);
    assert page.selectedSeason == Some(2023);
    var r1 := page.SelectTab(GameLogTab, noStats, Received(true, 200, "OK", Some(log)));
    assert r1.Some? && r1.value.GameLogRequest?;
    var r2 := page.SelectTab(SeasonTab, Received(true, 200, "OK", Some(stats)), noLog);
    assert r2.Some? && r2.value.SeasonStatsRequest?;
  }
}
