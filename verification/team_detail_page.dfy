/**
  The team page (src/pages/TeamDetailPage.jsx): the position-group table,
  the roster filter that ANDs a position group with a name search, and the
  cells of the roster table.
 */
module TeamDetailPage {
  import opened Wrappers
  import opened Seqs
  import opened Text

  /** The keys of `POSITION_GROUPS`, in their order; `All` switches the position filter off. */
  datatype PositionGroup = All | QB | RB | WR | TE | OL | DL | LB | DB | ST

  /** `POSITION_GROUPS[g]`: the position codes of a group, and `null` for `All`. */
  function PositionCodes(g: PositionGroup): (codes: Option<seq<string>>)
    ensures codes.None? <==> g == All
  {
    match g
    case All => None
    case QB => Some(["QB"])
    case RB => Some(["RB", "FB"])
    case WR => Some(["WR"])
    case TE => Some(["TE"])
    case OL => Some(["OT", "OG", "C", "OL", "T", "G"])
    case DL => Some(["DE", "DT", "DL", "NT"])
    case LB => Some(["LB", "OLB", "ILB", "MLB"])
    case DB => Some(["CB", "S", "FS", "SS", "DB"])
    case ST => Some(["K", "P", "LS"])
  }

  /** No position code is listed under two groups. */
  lemma GroupsDisjoint(g: PositionGroup, h: PositionGroup, code: string)
    requires g != All && h != All
    requires code in PositionCodes(g).value && code in PositionCodes(h).value
    ensures g == h
  {
  }

  /** The fields of a roster entry that the page reads. */
  datatype Player = Player(
    id: int,
    name: string,
    jersey: Option<string>,
    position: string,
    age: Option<int>,
    height: Option<string>,
    weight: Option<string>,
    experience: Option<int>,
    college: Option<string>,
    status: Option<string>)

  /** The team as fetched; its roster may be missing. */
  datatype TeamDetail = TeamDetail(name: string, roster: Option<seq<Player>>)

  /** `team?.roster`, with a missing team or roster read as no players. */
  function RosterOf(team: Option<TeamDetail>): seq<Player>
  {
    if team.None? || team.value.roster.None? then [] else team.value.roster.value
  }

  /** The position half of the filter, as the page states it. */
  ghost predicate PositionMatches(g: PositionGroup, p: Player)
  {
    g == All || p.position in PositionCodes(g).value
  }

  /** The search half of the filter, as the page states it. */
  ghost predicate NameMatches(search: string, p: Player)
  {
    search == "" || Contains(ToLower(p.name), ToLower(search))
  }

  /** `if (posFilter !== 'All') filtered = filtered.filter(p => positions.includes(p.position))`. */
  function ByPosition(g: PositionGroup, players: seq<Player>): (r: seq<Player>)
    ensures forall p :: p in r <==> p in players && PositionMatches(g, p)
    ensures IsSubsequence(r, players)
    ensures forall p :: multiset(r)[p] == if PositionMatches(g, p) then multiset(players)[p] else 0
  {
    if g == All then
      FilterKeepsAll((p: Player) => true, players);
      players
    else
      var positions := PositionCodes(g).value;
      Filter((p: Player) => p.position in positions, players)
  }

  /** `if (search) filtered = filtered.filter(p => p.name.toLowerCase().includes(q))`. */
  function BySearch(search: string, players: seq<Player>): (r: seq<Player>)
    ensures forall p :: p in r <==> p in players && NameMatches(search, p)
    ensures IsSubsequence(r, players)
    ensures forall p :: multiset(r)[p] == if NameMatches(search, p) then multiset(players)[p] else 0
  {
    if search == "" then
      FilterKeepsAll((p: Player) => true, players);
      players
    else
      var q := ToLower(search);
      Filter((p: Player) => Contains(ToLower(p.name), q), players)
  }

  /**
    The roster shown for a position group and a search: the players that pass
    both tests, in roster order; nothing when the team or its roster is missing.
   */
  function FilterRoster(team: Option<TeamDetail>, posFilter: PositionGroup, search: string): (r: seq<Player>)
    ensures team.None? || team.value.roster.None? ==> r == []
    ensures forall p :: p in r <==> p in RosterOf(team) && PositionMatches(posFilter, p) && NameMatches(search, p)
    ensures IsSubsequence(r, RosterOf(team))
    ensures forall p :: multiset(r)[p] == (if PositionMatches(posFilter, p) && NameMatches(search, p)
                                           then multiset(RosterOf(team))[p] else 0)
  {
    if team.None? || team.value.roster.None? then []
    else
      var roster := team.value.roster.value;
      var r := BySearch(search, ByPosition(posFilter, roster));
      SubsequenceTransitive(r, ByPosition(posFilter, roster), roster);
      r
  }

  /** The two filters can be applied in either order. */
  lemma FiltersCommute(g: PositionGroup, search: string, players: seq<Player>)
    ensures BySearch(search, ByPosition(g, players)) == ByPosition(g, BySearch(search, players))
  {
    if g != All && search != "" {
      var positions := PositionCodes(g).value;
      var q := ToLower(search);
      FilterCommutes((p: Player) => p.position in positions, (p: Player) => Contains(ToLower(p.name), q), players);
    }
  }

  /** With `All` and an empty search the roster is shown unchanged. */
  lemma NeutralFilters(team: TeamDetail)
    requires team.roster.Some?
    ensures FilterRoster(Some(team), All, "") == team.roster.value
  {
  }

  /** Filtering by position alone and then by search alone is the combined filter. */
  lemma FilterComposes(team: Option<TeamDetail>, posFilter: PositionGroup, search: string)
    ensures FilterRoster(Some(TeamDetail("", Some(FilterRoster(team, posFilter, "")))), All, search)
         == FilterRoster(team, posFilter, search)
  {
    if team.Some? && team.value.roster.Some? {
      assert FilterRoster(team, posFilter, "") == ByPosition(posFilter, team.value.roster.value);
    } else {
      assert BySearch(search, []) == [];
    }
  }

  /** The dash the roster table shows for a missing value. */
  const DASH := "\U{2014}"

  /** What a roster cell displays; `Blank` is a `null` or `undefined` that React renders as nothing. */
  datatype Cell = Blank | Str(text: string) | Number(n: int)

  function OptText(v: Option<string>): Cell
  {
    if v.None? then Blank else Str(v.value)
  }

  function OptNumber(v: Option<int>): Cell
  {
    if v.None? then Blank else Number(v.value)
  }

  /** `experience != null ? (experience === 0 ? 'R' : experience) : '—'`. */
  function ExperienceCell(experience: Option<int>): (c: Cell)
    ensures c == Str(DASH) <==> experience.None?
    ensures c == Str("R") <==> experience == Some(0)
    ensures c.Number? <==> experience.Some? && experience.value != 0
    ensures c.Number? ==> c.n == experience.value
  {
    if experience.None? then Str(DASH)
    else if experience.value == 0 then Str("R")
    else Number(experience.value)
  }

  /** Distinct experience values never show alike: the cell loses nothing. */
  lemma ExperienceCellInjective(a: Option<int>, b: Option<int>)
    requires ExperienceCell(a) == ExperienceCell(b)
    ensures a == b
  {
  }

  /** `value || '—'`: the dash stands in for a missing or empty string. */
  function OrDash(v: Option<string>): (c: Cell)
    ensures c.Str?
    ensures c == Str(DASH) <==> v.None? || v.value == "" || v.value == DASH
    ensures v.Some? && v.value != "" ==> c.text == v.value
  {
    if v.None? || v.value == "" then Str(DASH) else Str(v.value)
  }

  const ROSTER_HEADER := ["Player", "#", "Pos", "Age", "Ht", "Wt", "Exp", "College", "Status"]

  const NO_PLAYERS := "No players found"

  /** A body row: one player's cells, or a message spanning `colSpan` columns. */
  datatype RosterRow = PlayerRow(playerId: int, cells: seq<Cell>) | MessageRow(colSpan: nat, message: string)
  {
    function Width(): nat
    {
      match this
      case PlayerRow(_, cells) => |cells|
      case MessageRow(span, _) => span
    }
  }

  /** The cells of one player's row, in header order. */
  function PlayerCells(p: Player): (cells: seq<Cell>)
    ensures |cells| == |ROSTER_HEADER|
    ensures cells[6] == ExperienceCell(p.experience)
    ensures cells[7] == OrDash(p.college) && cells[8] == OrDash(p.status)
  {
    [ Str(p.name), OptText(p.jersey), Str(p.position), OptNumber(p.age),
      OptText(p.height), OptText(p.weight), ExperienceCell(p.experience),
      OrDash(p.college), OrDash(p.status) ]
  }

  /**
    The table body for the filtered roster: one row per player in order, or,
    when no player is left, exactly one "No players found" row across all columns.
   */
  function RosterBody(players: seq<Player>): (rows: seq<RosterRow>)
    ensures |players| == 0 ==> rows == [MessageRow(|ROSTER_HEADER|, NO_PLAYERS)]
    ensures |players| > 0 ==> |rows| == |players| && forall i :: 0 <= i < |rows| ==> rows[i].PlayerRow? && rows[i].playerId == players[i].id
    ensures |players| > 0 ==> forall i :: 0 <= i < |rows| ==> rows[i].PlayerRow? && rows[i].cells == PlayerCells(players[i])
    ensures forall row :: row in rows ==> row.Width() == |ROSTER_HEADER|
  {
    seq(|players|, i requires 0 <= i < |players| => PlayerRow(players[i].id, PlayerCells(players[i])))
      + (if |players| == 0 then [MessageRow(|ROSTER_HEADER|, NO_PLAYERS)] else [])
  }
}
