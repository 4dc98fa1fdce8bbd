/**
  The game-log table of the player page (`GameLogTable` in
  src/pages/PlayerPage.jsx): five column groups, each shown only when some
  game qualifies for it, and a header and body rows that must agree column
  for column.
 */
module GameLog {
  import opened Wrappers
  import opened Seqs
  import opened StatCards

  /** One game of the log; each stat category may be missing. */
  datatype Game = Game(
    week: Val,
    date: string,
    opponent: string,
    won: bool,
    passing: Option<Category>,
    rushing: Option<Category>,
    receiving: Option<Category>,
    defensive: Option<Category>,
    fumbles: Option<Category>)

  /** `cat?.key`: `undefined` when the category or the key is missing. */
  function Lookup(cat: Option<Category>, key: string): (v: Val)
    ensures cat.None? ==> v.Null?
    ensures cat.Some? && (forall e :: e in cat.value ==> e.0 != key) ==> v.Null?
    ensures !v.Null? ==> cat.Some? && (key, v) in cat.value
  {
    if cat.None? then Null else Find(cat.value, key)
  }

  /** The value of the first entry named `key`. */
  function Find(entries: Category, key: string): (v: Val)
    ensures (forall e :: e in entries ==> e.0 != key) ==> v.Null?
    ensures !v.Null? ==> (key, v) in entries
  {
    if entries == [] then Null
    else if entries[0].0 == key then entries[0].1
    else Find(entries[1..], key)
  }

  /** Entry `i` is the first one named `key`. */
  predicate FirstKey(entries: Category, key: string, i: int)
  {
    0 <= i < |entries| && entries[i].0 == key && forall j :: 0 <= j < i ==> entries[j].0 != key
  }

  /** A key that is present is found: the lookup yields the value of its first entry. */
  lemma {:induction false} FindFirst(entries: Category, key: string, i: int)
    requires FirstKey(entries, key, i)
    ensures Find(entries, key) == entries[i].1
  {
    if i > 0 {
      assert FirstKey(entries[1..], key, i - 1);
      FindFirst(entries[1..], key, i - 1);
    }
  }

  /** `cat?.key` on a present category yields the value of the key's first entry. */
  lemma LookupFirst(cat: Category, key: string, i: int)
    requires FirstKey(cat, key, i)
    ensures Lookup(Some(cat), key) == cat[i].1
  {
    FindFirst(cat, key, i);
  }

  /** `v > 0`, where `null > 0` and `undefined > 0` are both false. */
  predicate Positive(v: Val)
  {
    match v
    case Null => false
    case Int(n) => n > 0
    case NonInteger(positive) => positive
  }

  /** The five optional column groups, in table order. */
  datatype Section = PassingCols | RushingCols | ReceivingCols | DefensiveCols | FumblesCols

  function CategoryOf(g: Game, s: Section): Option<Category>
  {
    match s
    case PassingCols => g.passing
    case RushingCols => g.rushing
    case ReceivingCols => g.receiving
    case DefensiveCols => g.defensive
    case FumblesCols => g.fumbles
  }

  /** The test a game must pass for its section's columns to be shown. */
  predicate Qualifies(g: Game, s: Section)
  {
    var cat := CategoryOf(g, s);
    match s
    case PassingCols => Positive(Lookup(cat, "attempts"))
    case RushingCols => Positive(Lookup(cat, "attempts"))
    case ReceivingCols => Positive(Lookup(cat, "receptions"))
    case DefensiveCols => Positive(Lookup(cat, "totalTackles")) || Positive(Lookup(cat, "sacks"))
    case FumblesCols => Positive(Lookup(cat, "fumbles")) || Positive(Lookup(cat, "fumblesRecovered"))
  }

  /** `hasPassing` … `hasFumbles`. */
  datatype Flags = Flags(passing: bool, rushing: bool, receiving: bool, defensive: bool, fumbles: bool)
  {
    predicate Has(s: Section)
    {
      match s
      case PassingCols => passing
      case RushingCols => rushing
      case ReceivingCols => receiving
      case DefensiveCols => defensive
      case FumblesCols => fumbles
    }
  }

  /** `games.some(...)` for each section: a flag is set iff some game qualifies. */
  function ColumnFlags(games: seq<Game>): (f: Flags)
    ensures forall s :: f.Has(s) <==> exists g :: g in games && Qualifies(g, s)
  {
    Flags(
      Any((g: Game) => Qualifies(g, PassingCols), games),
      Any((g: Game) => Qualifies(g, RushingCols), games),
      Any((g: Game) => Qualifies(g, ReceivingCols), games),
      Any((g: Game) => Qualifies(g, DefensiveCols), games),
      Any((g: Game) => Qualifies(g, FumblesCols), games))
  }

  /** Adding a game never clears a flag: it sets exactly the flags the game qualifies for. */
  lemma AddingGameKeepsFlags(games: seq<Game>, g: Game, s: Section)
    ensures ColumnFlags(games + [g]).Has(s) <==> ColumnFlags(games).Has(s) || Qualifies(g, s)
  {
    assert g in games + [g];
    assert forall x :: x in games ==> x in games + [g];
  }

  /** The flags depend on which games there are, not on their order. */
  lemma ReorderingKeepsFlags(a: seq<Game>, b: seq<Game>)
    requires multiset(a) == multiset(b)
    ensures ColumnFlags(a) == ColumnFlags(b)
  {
    assert forall g :: g in a <==> g in multiset(a);
    assert forall g :: g in b <==> g in multiset(b);
    var fa, fb := ColumnFlags(a), ColumnFlags(b);
    assert fa.Has(PassingCols) == fb.Has(PassingCols);
    assert fa.Has(RushingCols) == fb.Has(RushingCols);
    assert fa.Has(ReceivingCols) == fb.Has(ReceivingCols);
    assert fa.Has(DefensiveCols) == fb.Has(DefensiveCols);
    assert fa.Has(FumblesCols) == fb.Has(FumblesCols);
  }

  /** A category missing from every game never sets its flag. */
  lemma MissingCategoryNeverShown(games: seq<Game>, s: Section)
    requires forall g :: g in games ==> CategoryOf(g, s).None?
    ensures !ColumnFlags(games).Has(s)
  {
  }

  // ----- the table -----

  /** What a body cell shows. */
  datatype GameCell =
    | Plain(v: Val)             // `{value}`; `Null` renders as nothing
    | Label(text: string)
    | Ratio(num: Val, den: Val) // `{completions}/{attempts}`
    | Rounded(v: Val)           // `{value?.toFixed(1)}`

  const BASE_HEADER := ["Wk", "Date", "Opp", "Result"]

  function SectionHeader(s: Section): seq<string>
  {
    match s
    case PassingCols => ["Cmp/Att", "Yds", "TD", "INT", "Rtg"]
    case RushingCols => ["Rush", "Yds", "TD"]
    case ReceivingCols => ["Rec", "Yds", "TD"]
    case DefensiveCols => ["Tkl", "Solo", "Sck", "TFL", "PD", "INT", "FF"]
    case FumblesCols => ["Fum", "Lost"]
  }

  /** The number of columns a section adds. */
  function SectionWidth(s: Section): nat
  {
    match s
    case PassingCols => 5
    case RushingCols => 3
    case ReceivingCols => 3
    case DefensiveCols => 7
    case FumblesCols => 2
  }

  /** The first header of a section names it: it is a header of no other section and of no base column. */
  lemma SectionMarkerUnique(s: Section, t: Section)
    ensures |SectionHeader(s)| == SectionWidth(s) > 0
    ensures SectionHeader(s)[0] !in BASE_HEADER
    ensures SectionHeader(s)[0] in SectionHeader(t) <==> s == t
  {
  }

  /** Week, date, opponent and the W/L result. */
  function BaseCells(g: Game): seq<GameCell>
  {
    [Plain(g.week), Label(g.date), Label(g.opponent), Label(if g.won then "W" else "L")]
  }

  /** A game's cells under one section's headers. */
  function SectionCells(g: Game, s: Section): (cells: seq<GameCell>)
    ensures |cells| == SectionWidth(s)
  {
    var cat := CategoryOf(g, s);
    match s
    case PassingCols =>
      [ Ratio(Lookup(cat, "completions"), Lookup(cat, "attempts")), Plain(Lookup(cat, "yards")),
        Plain(Lookup(cat, "touchdowns")), Plain(Lookup(cat, "interceptions")), Rounded(Lookup(cat, "rating")) ]
    case RushingCols =>
      [ Plain(Lookup(cat, "attempts")), Plain(Lookup(cat, "yards")), Plain(Lookup(cat, "touchdowns")) ]
    case ReceivingCols =>
      [ Plain(Lookup(cat, "receptions")), Plain(Lookup(cat, "yards")), Plain(Lookup(cat, "touchdowns")) ]
    case DefensiveCols =>
      [ Plain(Lookup(cat, "totalTackles")), Plain(Lookup(cat, "soloTackles")), Plain(Lookup(cat, "sacks")),
        Plain(Lookup(cat, "tacklesForLoss")), Plain(Lookup(cat, "passesDefended")),
        Plain(Lookup(cat, "interceptions")), Plain(Lookup(cat, "forcedFumbles")) ]
    case FumblesCols =>
      [ Plain(Lookup(cat, "fumbles")), Plain(Lookup(cat, "fumblesLost")) ]
  }

  /** `s` when its flag is set, nothing otherwise. */
  function Part(f: Flags, s: Section): seq<Section>
  {
    if f.Has(s) then [s] else []
  }

  /** The sections whose flag is set, in table order. */
  function Enabled(f: Flags): (secs: seq<Section>)
    ensures forall s :: s in secs <==> f.Has(s)
  {
    Part(f, PassingCols) + Part(f, RushingCols) + Part(f, ReceivingCols) + Part(f, DefensiveCols) + Part(f, FumblesCols)
  }

  function HeadersOf(secs: seq<Section>): seq<string>
  {
    if secs == [] then [] else SectionHeader(secs[0]) + HeadersOf(secs[1..])
  }

  function CellsOf(g: Game, secs: seq<Section>): seq<GameCell>
  {
    if secs == [] then [] else SectionCells(g, secs[0]) + CellsOf(g, secs[1..])
  }

  function WidthOf(secs: seq<Section>): nat
  {
    if secs == [] then 0 else SectionWidth(secs[0]) + WidthOf(secs[1..])
  }

  /** Header and body agree in width section by section. */
  lemma {:induction false} WidthsAgree(g: Game, secs: seq<Section>)
    ensures |HeadersOf(secs)| == WidthOf(secs) == |CellsOf(g, secs)|
  {
    if secs != [] {
      SectionMarkerUnique(secs[0], secs[0]);
      WidthsAgree(g, secs[1..]);
    }
  }

  lemma {:induction false} WidthOfAppend(a: seq<Section>, b: seq<Section>)
    ensures WidthOf(a + b) == WidthOf(a) + WidthOf(b)
  {
    if a == [] {
      assert a + b == b;
    } else {
      assert (a + b)[0] == a[0] && (a + b)[1..] == a[1..] + b;
      WidthOfAppend(a[1..], b);
    }
  }

  function Count(b: bool): nat { if b then 1 else 0 }

  /** 5·passing + 3·rushing + 3·receiving + 7·defensive + 2·fumbles. */
  function OptionalWidth(f: Flags): nat
  {
    5 * Count(f.passing) + 3 * Count(f.rushing) + 3 * Count(f.receiving) + 7 * Count(f.defensive) + 2 * Count(f.fumbles)
  }

  lemma WidthOfPart(f: Flags, s: Section)
    ensures WidthOf(Part(f, s)) == Count(f.Has(s)) * SectionWidth(s)
  {
    if f.Has(s) {
      assert [s][1..] == [];
    }
  }

  /** The shown sections add 5, 3, 3, 7 and 2 columns for the flags that are set. */
  lemma EnabledWidth(f: Flags)
    ensures WidthOf(Enabled(f)) == OptionalWidth(f)
  {
    var p, r, c, d, u := Part(f, PassingCols), Part(f, RushingCols), Part(f, ReceivingCols), Part(f, DefensiveCols), Part(f, FumblesCols);
    WidthOfAppend(p + r + c + d, u);
    WidthOfAppend(p + r + c, d);
    WidthOfAppend(p + r, c);
    WidthOfAppend(p, r);
    WidthOfPart(f, PassingCols);
    WidthOfPart(f, RushingCols);
    WidthOfPart(f, ReceivingCols);
    WidthOfPart(f, DefensiveCols);
    WidthOfPart(f, FumblesCols);
  }

  /** A section's marker heads the header row iff the section is among `secs`. */
  lemma {:induction false} MarkerInHeaders(secs: seq<Section>, s: Section)
    ensures SectionHeader(s)[0] in HeadersOf(secs) <==> s in secs
  {
    if secs != [] {
      SectionMarkerUnique(s, secs[0]);
      MarkerInHeaders(secs[1..], s);
      assert secs == [secs[0]] + secs[1..];
    }
  }

  lemma {:induction false} HeadersAppend(a: seq<Section>, b: seq<Section>)
    ensures HeadersOf(a + b) == HeadersOf(a) + HeadersOf(b)
  {
    if a == [] {
      assert a + b == b;
    } else {
      assert (a + b)[0] == a[0] && (a + b)[1..] == a[1..] + b;
      HeadersAppend(a[1..], b);
    }
  }

  lemma {:induction false} CellsAppend(g: Game, a: seq<Section>, b: seq<Section>)
    ensures CellsOf(g, a + b) == CellsOf(g, a) + CellsOf(g, b)
  {
    if a == [] {
      assert a + b == b;
    } else {
      assert (a + b)[0] == a[0] && (a + b)[1..] == a[1..] + b;
      CellsAppend(g, a[1..], b);
    }
  }

  lemma SliceMiddle<T>(a: seq<T>, b: seq<T>, c: seq<T>)
    ensures (a + (b + c))[|a|..|a| + |b|] == b
  {
  }

  /**
    Where section `k` of `secs` starts, the header holds that section's
    headers and a game's cells hold that section's cells, over the same
    columns.
   */
  lemma SectionAligned(g: Game, secs: seq<Section>, k: nat)
    requires k < |secs|
    ensures WidthOf(secs[..k]) + SectionWidth(secs[k]) <= |HeadersOf(secs)|
    ensures WidthOf(secs[..k]) + SectionWidth(secs[k]) <= |CellsOf(g, secs)|
    ensures HeadersOf(secs)[WidthOf(secs[..k])..WidthOf(secs[..k]) + SectionWidth(secs[k])] == SectionHeader(secs[k])
    ensures CellsOf(g, secs)[WidthOf(secs[..k])..WidthOf(secs[..k]) + SectionWidth(secs[k])] == SectionCells(g, secs[k])
  {
    var before, here, after := secs[..k], secs[k], secs[k + 1..];
    assert secs == before + ([here] + after);
    WidthsAgree(g, before);
    HeadersAlignedAt(before, here, after);
    CellsAlignedAt(g, before, here, after);
  }

  lemma HeadersAlignedAt(before: seq<Section>, here: Section, after: seq<Section>)
    ensures var h, w := HeadersOf(before + ([here] + after)), WidthOf(before);
      w + SectionWidth(here) <= |h| && h[w..w + SectionWidth(here)] == SectionHeader(here)
  {
    SectionMarkerUnique(here, here);
    WidthsAgree(Game(Null, "", "", false, None, None, None, None, None), before);
    HeadersCons(here, after);
    HeadersAppend(before, [here] + after);
    SliceMiddle(HeadersOf(before), SectionHeader(here), HeadersOf(after));
  }

  lemma CellsAlignedAt(g: Game, before: seq<Section>, here: Section, after: seq<Section>)
    ensures var c, w := CellsOf(g, before + ([here] + after)), WidthOf(before);
      w + SectionWidth(here) <= |c| && c[w..w + SectionWidth(here)] == SectionCells(g, here)
  {
    WidthsAgree(g, before);
    CellsCons(g, here, after);
    CellsAppend(g, before, [here] + after);
    SliceMiddle(CellsOf(g, before), SectionCells(g, here), CellsOf(g, after));
  }

  lemma HeadersCons(s: Section, after: seq<Section>)
    ensures HeadersOf([s] + after) == SectionHeader(s) + HeadersOf(after)
  {
    assert ([s] + after)[0] == s && ([s] + after)[1..] == after;
  }

  lemma CellsCons(g: Game, s: Section, after: seq<Section>)
    ensures CellsOf(g, [s] + after) == SectionCells(g, s) + CellsOf(g, after)
  {
    assert ([s] + after)[0] == s && ([s] + after)[1..] == after;
  }

  /** What the component renders. */
  datatype GameLogView =
    | NoGameLog   // "No game log data available."
    | Table(header: seq<string>, rows: seq<seq<GameCell>>)

  function Header(f: Flags): seq<string>
  {
    BASE_HEADER + HeadersOf(Enabled(f))
  }

  function Row(g: Game, f: Flags): seq<GameCell>
  {
    BaseCells(g) + CellsOf(g, Enabled(f))
  }

  /** The header has 4 + `OptionalWidth(f)` columns. */
  lemma HeaderWidth(f: Flags)
    ensures |Header(f)| == 4 + OptionalWidth(f)
  {
    WidthsAgree(Game(Null, "", "", false, None, None, None, None, None), Enabled(f));
    EnabledWidth(f);
  }

  /** A section's first header appears in the header iff its flag is set. */
  lemma HeaderMarker(f: Flags, s: Section)
    ensures SectionHeader(s)[0] in Header(f) <==> f.Has(s)
  {
    SectionMarkerUnique(s, s);
    MarkerInHeaders(Enabled(f), s);
  }

  /** A row is as wide as the header and starts with the game's base cells. */
  lemma RowShape(g: Game, f: Flags)
    ensures |Row(g, f)| == |Header(f)|
    ensures Row(g, f)[..4] == BaseCells(g)
  {
    WidthsAgree(g, Enabled(f));
  }

  /**
    `GameLogTable({games})`: the placeholder iff the log is missing or empty;
    otherwise a header of 4 + 5·passing + 3·rushing + 3·receiving +
    7·defensive + 2·fumbles columns, a section's first header present iff its
    flag is set, and one row per game, each as wide as the header and
    starting with that game's week, date, opponent and result.
   */
  function GameLogTable(games: Option<seq<Game>>): (view: GameLogView)
    ensures view.NoGameLog? <==> games.None? || |games.value| == 0
    ensures view.Table? ==> |view.header| == 4 + OptionalWidth(ColumnFlags(games.value))
    ensures view.Table? ==> forall s :: SectionHeader(s)[0] in view.header <==> ColumnFlags(games.value).Has(s)
    ensures view.Table? ==> view.header == Header(ColumnFlags(games.value))
    ensures view.Table? ==> |view.rows| == |games.value|
    ensures view.Table? ==> forall i :: 0 <= i < |view.rows| ==> view.rows[i] == Row(games.value[i], ColumnFlags(games.value))
    ensures view.Table? ==> forall i :: 0 <= i < |view.rows| ==>
      |view.rows[i]| == |view.header| && view.rows[i][..4] == BaseCells(games.value[i])
  {
    if games.None? || |games.value| == 0 then NoGameLog
    else
      var f := ColumnFlags(games.value);
      HeaderWidth(f);
      forall s ensures SectionHeader(s)[0] in Header(f) <==> f.Has(s) {
        HeaderMarker(f, s);
      }
      var rows := seq(|games.value|, i requires 0 <= i < |games.value| => Row(games.value[i], f));
      forall i | 0 <= i < |rows| ensures |rows[i]| == |Header(f)| && rows[i][..4] == BaseCells(games.value[i]) {
        RowShape(games.value[i], f);
      }
      Table(Header(f), rows)
  }

  /**
    In every row, the columns under the `k`-th shown section's headers hold
    that section's cells for the row's game.
   */
  lemma ColumnsAligned(g: Game, f: Flags, k: nat)
    requires k < |Enabled(f)|
    ensures var s, off := Enabled(f)[k], 4 + WidthOf(Enabled(f)[..k]);
      off + SectionWidth(s) <= |Header(f)| == |Row(g, f)|
        && Header(f)[off..off + SectionWidth(s)] == SectionHeader(s)
        && Row(g, f)[off..off + SectionWidth(s)] == SectionCells(g, s)
  {
    RowShape(g, f);
    AlignedAfterBase(g, Enabled(f), k);
  }

  lemma AlignedAfterBase(g: Game, secs: seq<Section>, k: nat)
    requires k < |secs|
    ensures var h, r := BASE_HEADER + HeadersOf(secs), BaseCells(g) + CellsOf(g, secs);
      var s, off := secs[k], 4 + WidthOf(secs[..k]);
      off + SectionWidth(s) <= |h| && off + SectionWidth(s) <= |r|
        && h[off..off + SectionWidth(s)] == SectionHeader(s)
        && r[off..off + SectionWidth(s)] == SectionCells(g, s)
  {
    SectionAligned(g, secs, k);
    var w, n := WidthOf(secs[..k]), SectionWidth(secs[k]);
    SliceShift(BASE_HEADER, HeadersOf(secs), w, n, SectionHeader(secs[k]));
    SliceShift(BaseCells(g), CellsOf(g, secs), w, n, SectionCells(g, secs[k]));
  }

  lemma SliceShift<T>(a: seq<T>, b: seq<T>, lo: nat, n: nat, x: seq<T>)
    requires lo + n <= |b| && b[lo..lo + n] == x
    ensures |a| + lo + n <= |a + b| && (a + b)[|a| + lo..|a| + lo + n] == x
  {
    assert (a + b)[|a| + lo..|a| + lo + n] == b[lo..lo + n];
  }

  /** A log of one game with 10 passing attempts and no other stats shows the base and passing columns only. */
  lemma PasserOnlyLog(g: Game)
    requires g.passing == Some([("attempts", Int(10))])
    requires g.rushing.None? && g.receiving.None? && g.defensive.None? && g.fumbles.None?
    ensures GameLogTable(Some([g])).Table?
    ensures GameLogTable(Some([g])).header == ["Wk", "Date", "Opp", "Result", "Cmp/Att", "Yds", "TD", "INT", "Rtg"]
  {
    assert Qualifies(g, PassingCols);
    var f := ColumnFlags([g]);
    assert f == Flags(true, false, false, false, false);
    assert Enabled(f) == [PassingCols];
  }
}
