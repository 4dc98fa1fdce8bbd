/**
  The API client (src/api.js): the five request paths under `/nfl` and the
  decision `fetchJSON` takes on a response. The request itself, `res.json()`
  and the promises are outside the model; a response is given by its `ok`
  flag, status, status text and (already parsed) body.

  `Route` reads a path back into the endpoint it names, as the backend's
  endpoint table does; the `Route...` lemmas show that, for arguments that
  contain no `/`, every path builder names exactly the endpoint and
  arguments it was given. Arguments are interpolated unencoded, so one
  holding a `/` adds path segments.
 */
module Api {
  import opened Wrappers
  import opened Text

  const BASE := "/nfl"

  /** A JavaScript value as it may reach a template literal or an `if`. */
  datatype JsValue = Undefined | JsNull | Num(n: int) | Str(s: string)

  /** JavaScript truthiness: `undefined`, `null`, `0` and `""` are falsy. */
  predicate Truthy(v: JsValue)
  {
    match v
    case Undefined => false
    case JsNull => false
    case Num(n) => n != 0
    case Str(s) => s != ""
  }

  /** `${v}` inside a template literal. */
  function Render(v: JsValue): (s: string)
    ensures Truthy(v) ==> s != ""
    ensures v.Num? ==> '/' !in s && '?' !in s && ' ' !in s
  {
    match v
    case Undefined => "undefined"
    case JsNull => "null"
    case Num(n) => IntToString(n)
    case Str(s) => s
  }

  /** `getTeams()` requests `/nfl/teams`. */
  function TeamsPath(): (p: string)
    ensures BASE + "/" <= p && '?' !in p
  {
    BASE + "/teams"
  }

  /** `getTeam(teamId)` requests `/nfl/teams/{teamId}`. */
  function TeamPath(teamId: JsValue): (p: string)
    ensures BASE + "/" <= p
    ensures '?' in p <==> '?' in Render(teamId)
  {
    BASE + "/teams/" + Render(teamId)
  }

  /** `getPlayerProfile(playerId)` requests `/nfl/players/{playerId}/stats`. */
  function PlayerProfilePath(playerId: JsValue): (p: string)
    ensures BASE + "/" <= p
    ensures '?' in p <==> '?' in Render(playerId)
  {
    BASE + "/players/" + Render(playerId) + "/stats"
  }

  /** `getPlayerSeasonStats(playerId, season)` requests `/nfl/players/{playerId}/stats/{season}`. */
  function PlayerSeasonStatsPath(playerId: JsValue, season: JsValue): (p: string)
    ensures BASE + "/" <= p
    ensures '?' in p <==> '?' in Render(playerId) || '?' in Render(season)
  {
    BASE + "/players/" + Render(playerId) + "/stats/" + Render(season)
  }

  /**
    `getPlayerGameLog(playerId, season)` requests `/nfl/players/{playerId}/gamelog`,
    followed by `/{season}` only when `season` is truthy.
   */
  function PlayerGameLogPath(playerId: JsValue, season: JsValue): (p: string)
    ensures BASE + "/" <= p
    ensures '?' in p <==> '?' in Render(playerId) || (Truthy(season) && '?' in Render(season))
  {
    if Truthy(season) then BASE + "/players/" + Render(playerId) + "/gamelog/" + Render(season)
    else BASE + "/players/" + Render(playerId) + "/gamelog"
  }

  /** The endpoints of the backend, with their path arguments. */
  datatype Endpoint =
    | Teams
    | Team(teamId: string)
    | PlayerProfile(playerId: string)
    | PlayerSeasonStats(playerId: string, season: string)
    | PlayerGameLog(playerId: string, logSeason: Option<string>)

  /** The `/`-separated segments of a path. */
  function Split(s: string): (r: seq<string>)
    ensures |r| > 0
    decreases |s|
  {
    if s == [] then [""]
    else
      var rest := Split(s[1..]);
      if s[0] == '/' then [""] + rest else [[s[0]] + rest[0]] + rest[1..]
  }

  lemma {:induction false} SplitNoSlash(a: string)
    requires '/' !in a
    ensures Split(a) == [a]
  {
    if a != [] {
      SplitNoSlash(a[1..]);
      assert [a[0]] + a[1..] == a;
    }
  }

  lemma {:induction false} SplitAtSlash(a: string, b: string)
    requires '/' !in a
    ensures Split(a + "/" + b) == [a] + Split(b)
  {
    if a == [] {
      assert a + "/" + b == "/" + b;
      assert ("/" + b)[1..] == b;
    } else {
      assert (a + "/" + b)[1..] == a[1..] + "/" + b;
      SplitAtSlash(a[1..], b);
      assert [a[0]] + a[1..] == a;
    }
  }

  /** The endpoint a path names, if any. */
  function Route(path: string): Option<Endpoint>
  {
    var s := Split(path);
    if |s| < 3 || s[0] != "" || s[1] != "nfl" then None
    else if s[2] == "teams" then
      if |s| == 3 then Some(Teams)
      else if |s| == 4 then Some(Team(s[3]))
      else None
    else if s[2] == "players" && |s| >= 5 then
      if s[4] == "stats" then
        if |s| == 5 then Some(PlayerProfile(s[3]))
        else if |s| == 6 then Some(PlayerSeasonStats(s[3], s[5]))
        else None
      else if s[4] == "gamelog" then
        if |s| == 5 then Some(PlayerGameLog(s[3], None))
        else if |s| == 6 then Some(PlayerGameLog(s[3], Some(s[5])))
        else None
      else None
    else None
  }

  lemma RouteTeams()
    ensures Route(TeamsPath()) == Some(Teams)
  {
    assert TeamsPath() == "" + "/" + ("nfl" + "/" + "teams");
    SplitAtSlash("", "nfl" + "/" + "teams");
    SplitAtSlash("nfl", "teams");
    SplitNoSlash("teams");
  }

  lemma RouteTeam(teamId: JsValue)
    requires '/' !in Render(teamId)
    ensures Route(TeamPath(teamId)) == Some(Team(Render(teamId)))
  {
    var id := Render(teamId);
    assert TeamPath(teamId) == "" + "/" + ("nfl" + "/" + ("teams" + "/" + id));
    SplitAtSlash("", "nfl" + "/" + ("teams" + "/" + id));
    SplitAtSlash("nfl", "teams" + "/" + id);
    SplitAtSlash("teams", id);
    SplitNoSlash(id);
  }

  lemma RoutePlayerProfile(playerId: JsValue)
    requires '/' !in Render(playerId)
    ensures Route(PlayerProfilePath(playerId)) == Some(PlayerProfile(Render(playerId)))
  {
    var id := Render(playerId);
    var p := PlayerProfilePath(playerId);
    SplitNoSlash("stats");
    assert "stats" + "" == "stats";
    SplitPlayerPath(id, "stats", [], "");
    assert p == BASE + "/players/" + id + "/" + "stats" + "";
    var segs := Split(p);
    assert segs == ["", "nfl", "players", id, "stats"];
    assert |segs| == 5 && segs[2] == "players" && segs[4] == "stats";
  }

  /** Split of `/nfl/players/{id}/{kind}` followed by `rest` (empty, or `/` and one more segment). */
  lemma SplitPlayerPath(id: string, kind: string, last: seq<string>, rest: string)
    requires '/' !in id && '/' !in kind
    requires Split(kind + rest) == [kind] + last
    ensures Split(BASE + "/players/" + id + "/" + kind + rest) == ["", "nfl", "players", id, kind] + last
  {
    var t3 := id + "/" + (kind + rest);
    var t2 := "players" + "/" + t3;
    var t1 := "nfl" + "/" + t2;
    var p := BASE + "/players/" + id + "/" + kind + rest;
    assert p == "" + "/" + t1;
    SplitAtSlash(id, kind + rest);
    assert Split(t3) == [id, kind] + last;
    SplitAtSlash("players", t3);
    assert Split(t2) == ["players", id, kind] + last;
    SplitAtSlash("nfl", t2);
    assert Split(t1) == ["nfl", "players", id, kind] + last;
    SplitAtSlash("", t1);
  }

  lemma RoutePlayerSeasonStats(playerId: JsValue, season: JsValue)
    requires '/' !in Render(playerId) && '/' !in Render(season)
    ensures Route(PlayerSeasonStatsPath(playerId, season)) == Some(PlayerSeasonStats(Render(playerId), Render(season)))
  {
    var id, s := Render(playerId), Render(season);
    var p := PlayerSeasonStatsPath(playerId, season);
    SplitAtSlash("stats", s);
    SplitNoSlash(s);
    assert "stats" + ("/" + s) == "stats" + "/" + s;
    SplitPlayerPath(id, "stats", [s], "/" + s);
    assert p == BASE + "/players/" + id + "/" + "stats" + ("/" + s);
    var segs := Split(p);
    assert segs == ["", "nfl", "players", id, "stats", s];
    assert |segs| == 6 && segs[2] == "players" && segs[4] == "stats";
  }

  lemma RouteSeasonGameLog(id: string, s: string)
    requires '/' !in id && '/' !in s
    ensures Route(BASE + "/players/" + id + "/gamelog/" + s) == Some(PlayerGameLog(id, Some(s)))
  {
    var p := BASE + "/players/" + id + "/gamelog/" + s;
    SplitAtSlash("gamelog", s);
    SplitNoSlash(s);
    assert "gamelog" + ("/" + s) == "gamelog" + "/" + s;
    SplitPlayerPath(id, "gamelog", [s], "/" + s);
    assert p == BASE + "/players/" + id + "/" + "gamelog" + ("/" + s);
    var segs := Split(p);
    assert segs == ["", "nfl", "players", id, "gamelog", s];
    assert |segs| == 6 && segs[2] == "players" && segs[4] == "gamelog";
  }

  lemma RouteCareerGameLog(id: string)
    requires '/' !in id
    ensures Route(BASE + "/players/" + id + "/gamelog") == Some(PlayerGameLog(id, None))
  {
    var p := BASE + "/players/" + id + "/gamelog";
    SplitNoSlash("gamelog");
    assert "gamelog" + "" == "gamelog";
    SplitPlayerPath(id, "gamelog", [], "");
    assert p == BASE + "/players/" + id + "/" + "gamelog" + "";
    var segs := Split(p);
    assert segs == ["", "nfl", "players", id, "gamelog"];
    assert |segs| == 5 && segs[2] == "players" && segs[4] == "gamelog";
  }

  /** The game-log path carries the season segment exactly when `season` is truthy. */
  lemma RoutePlayerGameLog(playerId: JsValue, season: JsValue)
    requires '/' !in Render(playerId) && '/' !in Render(season)
    ensures Route(PlayerGameLogPath(playerId, season))
         == Some(PlayerGameLog(Render(playerId), if Truthy(season) then Some(Render(season)) else None))
  {
    if Truthy(season) {
      RouteSeasonGameLog(Render(playerId), Render(season));
    } else {
      RouteCareerGameLog(Render(playerId));
    }
  }

  /** Reads an error message back into the status and status text it was built from. */
  function ParseStatusLine(message: string): (nat, string)
  {
    match IndexOf(message, " ")
    case Some(i) => (ParseNat(message[..i]), message[i + 1..])
    case None => (ParseNat(message), "")
  }

  lemma StatusLineRoundTrip(status: nat, statusText: string)
    ensures ParseStatusLine(IntToString(status) + " " + statusText) == (status, statusText)
  {
    var d := IntToString(status);
    var m := d + " " + statusText;
    assert d == NatToString(status);
    assert m[|d|..|d| + 1] == " ";
    assert OccursAt(m, " ", |d|);
    assert forall j :: 0 <= j < |d| ==> !OccursAt(m, " ", j) by {
      forall j | 0 <= j < |d| ensures !OccursAt(m, " ", j) {
        assert m[j..j + 1] == [d[j]];
      }
    }
    assert IndexOf(m, " ") == Some(|d|);
    assert m[..|d|] == d;
    assert m[|d| + 1..] == statusText;
  }

  /**
    The decision `fetchJSON` takes on a response: a response that is not ok
    fails with the message "<status> <statusText>"; an ok one yields its body.
   */
  function FetchOutcome<T>(ok: bool, status: nat, statusText: string, body: T): (r: Result<T, string>)
    ensures r.Success? <==> ok
    ensures ok ==> r.value == body
    ensures !ok ==> r.error == IntToString(status) + " " + statusText
    ensures !ok ==> ParseStatusLine(r.error) == (status, statusText)
  {
    if !ok then
      StatusLineRoundTrip(status, statusText);
      Failure(IntToString(status) + " " + statusText)
    else Success(body)
  }
}
