/**
  Stat cards on the player page (src/pages/PlayerPage.jsx): how a stat key
  becomes a label (`formatLabel`), when a category's card is left out, and
  what each value cell shows.
 */
module StatCards {
  import opened Wrappers
  import opened Seqs
  import opened Text

  /**
    A stat value as the backend sends it: missing (`null` or `undefined`), an
    integer, or a number with a fractional part, of which only the sign is
    kept (it is shown rounded, which is not modelled).
   */
  datatype Val = Null | Int(n: int) | NonInteger(positive: bool)

  /** A stat category object, its entries in `Object.entries` order. */
  type Category = seq<(string, Val)>

  /** Career or season stats: the five categories, each possibly missing. */
  datatype StatLine = StatLine(
    passing: Option<Category>,
    rushing: Option<Category>,
    receiving: Option<Category>,
    defensive: Option<Category>,
    fumbles: Option<Category>)

  /** The GraphQL bookkeeping key that is never shown. */
  const TYPENAME := "__typename"

  // ----- formatLabel -----

  function CountUpper(s: string): nat
  {
    if s == [] then 0 else (if IsUpper(s[0]) then 1 else 0) + CountUpper(s[1..])
  }

  /** Drops one space in front of each upper-case letter: the inverse of `SpaceBeforeUpper`. */
  function DropSpaceBeforeUpper(r: string): string
    decreases |r|
  {
    if r == [] then []
    else if |r| >= 2 && r[0] == ' ' && IsUpper(r[1]) then [r[1]] + DropSpaceBeforeUpper(r[2..])
    else [r[0]] + DropSpaceBeforeUpper(r[1..])
  }

  /** What one character of the key becomes: an upper-case letter gets a space in front. */
  function Spaced(c: char): string
  {
    if IsUpper(c) then [' ', c] else [c]
  }

  /** `.replace(/([A-Z])/g, ' $1')`. */
  function SpaceBeforeUpper(s: string): (r: string)
    ensures |r| >= |s|
  {
    if s == [] then [] else Spaced(s[0]) + SpaceBeforeUpper(s[1..])
  }

  /**
    `SpaceBeforeUpper` puts a space in front of every upper-case letter and
    changes nothing else: it adds one character per upper-case letter, and
    dropping those spaces gives the key back.
   */
  lemma {:induction false} SpaceBeforeUpperSpec(s: string)
    ensures |SpaceBeforeUpper(s)| == |s| + CountUpper(s)
    ensures forall i {:trigger IsUpper(SpaceBeforeUpper(s)[i])} :: 0 <= i < |SpaceBeforeUpper(s)| && IsUpper(SpaceBeforeUpper(s)[i]) ==>
      0 < i && SpaceBeforeUpper(s)[i - 1] == ' '
    ensures DropSpaceBeforeUpper(SpaceBeforeUpper(s)) == s
  {
    if s != [] {
      var rest := SpaceBeforeUpper(s[1..]);
      SpaceBeforeUpperSpec(s[1..]);
      var r := Spaced(s[0]) + rest;
      assert r == SpaceBeforeUpper(s);
      assert [s[0]] + s[1..] == s;
      if IsUpper(s[0]) {
        assert r[2..] == rest;
        forall i | 0 <= i < |r| && IsUpper(r[i]) ensures 0 < i && r[i - 1] == ' ' {
          if i >= 2 {
            assert r[i] == rest[i - 2];
            if i >= 3 { assert r[i - 1] == rest[i - 3]; }
          }
        }
      } else {
        assert r[1..] == rest;
        forall i | 0 <= i < |r| && IsUpper(r[i]) ensures 0 < i && r[i - 1] == ' ' {
          if i >= 1 {
            assert r[i] == rest[i - 1];
            if i >= 2 { assert r[i - 1] == rest[i - 2]; }
          }
        }
      }
    }
  }

  /** The characters `/./` does not match. */
  predicate IsLineTerminator(c: char)
  {
    c == '\n' || c == '\r' || c == '\U{2028}' || c == '\U{2029}'
  }

  /** `.replace(/^./, s => s.toUpperCase())`. */
  function CapitalizeFirst(s: string): (r: string)
    ensures |r| == |s|
    ensures |s| > 0 ==> r[1..] == s[1..]
    ensures |s| > 0 ==> r[0] == if IsLineTerminator(s[0]) then s[0] else ToUpperChar(s[0])
  {
    if |s| > 0 && !IsLineTerminator(s[0]) then [ToUpperChar(s[0])] + s[1..] else s
  }

  /** `formatLabel(key)`: spaced, first character upper-cased, the first "Pct" turned into "%". */
  function FormatLabel(key: string): string
  {
    ReplaceFirst(CapitalizeFirst(SpaceBeforeUpper(key)), "Pct", "%")
  }

  lemma {:induction false} SpaceBeforeUpperAppend(a: string, b: string)
    ensures SpaceBeforeUpper(a + b) == SpaceBeforeUpper(a) + SpaceBeforeUpper(b)
  {
    if a == [] {
      assert a + b == b;
    } else {
      assert (a + b)[0] == a[0] && (a + b)[1..] == a[1..] + b;
      SpaceBeforeUpperAppend(a[1..], b);
    }
  }

  lemma {:induction false} SpaceBeforeUpperNoUpper(s: string)
    requires forall i :: 0 <= i < |s| ==> !IsUpper(s[i])
    ensures SpaceBeforeUpper(s) == s
  {
    if s != [] {
      SpaceBeforeUpperNoUpper(s[1..]);
      assert [s[0]] + s[1..] == s;
    }
  }

  /** `SpaceBeforeUpper` on a word that starts upper-case and has no other upper-case letter. */
  lemma SpaceBeforeCapitalWord(w: string)
    requires |w| > 0 && IsUpper(w[0]) && forall i :: 1 <= i < |w| ==> !IsUpper(w[i])
    ensures SpaceBeforeUpper(w) == " " + w
  {
    SpaceBeforeUpperNoUpper(w[1..]);
    assert [' ', w[0]] + w[1..] == " " + w;
  }

  /** Appending a capitalised word to a key adds a space and the word. */
  lemma AppendCapitalWord(a: string, w: string)
    requires |w| > 0 && IsUpper(w[0]) && forall i :: 1 <= i < |w| ==> !IsUpper(w[i])
    ensures SpaceBeforeUpper(a + w) == SpaceBeforeUpper(a) + " " + w
  {
    SpaceBeforeUpperAppend(a, w);
    SpaceBeforeCapitalWord(w);
  }

  /** `formatLabel("passingYards")` is "Passing Yards". */
  lemma FormatPassingYards(key: string)
    requires key == "passingYards"
    ensures FormatLabel(key) == "Passing Yards"
  {
    assert key == "passing" + "Yards";
    AppendCapitalWord("passing", "Yards");
    SpaceBeforeUpperNoUpper("passing");
    var spaced := SpaceBeforeUpper(key);
    assert spaced == "passing Yards";
    CapitalizeSpaced(spaced);
    PassingYardsHasNoPct(CapitalizeFirst(spaced));
  }

  lemma CapitalizeSpaced(s: string)
    requires s == "passing Yards"
    ensures CapitalizeFirst(s) == "Passing Yards"
  {
  }

  lemma PassingYardsHasNoPct(s: string)
    requires s == "Passing Yards"
    ensures ReplaceFirst(s, "Pct", "%") == s
  {
    MissingChar(s, "Pct", 2);
  }

  /** `formatLabel("fieldGoalPct")` is "Field Goal %". */
  lemma FormatFieldGoalPct(key: string)
    requires key == "fieldGoalPct"
    ensures FormatLabel(key) == "Field Goal %"
  {
    assert key == ("field" + "Goal") + "Pct";
    AppendCapitalWord("field" + "Goal", "Pct");
    AppendCapitalWord("field", "Goal");
    SpaceBeforeUpperNoUpper("field");
    var spaced := SpaceBeforeUpper(key);
    assert spaced == "field Goal Pct";
    FieldGoalPctLabel(spaced);
  }

  lemma FieldGoalPctLabel(s: string)
    requires s == "field Goal Pct"
    ensures ReplaceFirst(CapitalizeFirst(s), "Pct", "%") == "Field Goal %"
  {
    var c := CapitalizeFirst(s);
    assert c == "Field Goal Pct";
    assert c[11..14] == "Pct";
    FirstOccurrenceBefore(c, "Pct", 11);
    assert c[..11] + "%" + c[14..] == "Field Goal %";
  }

  /** Only the first "Pct" becomes "%": `formatLabel("xPctYPct")` is "X % Y Pct". */
  lemma OnlyFirstPctReplaced(key: string)
    requires key == "xPctYPct"
    ensures FormatLabel(key) == "X % Y Pct"
  {
    assert key == (("x" + "Pct") + "Y") + "Pct";
    AppendCapitalWord(("x" + "Pct") + "Y", "Pct");
    AppendCapitalWord("x" + "Pct", "Y");
    AppendCapitalWord("x", "Pct");
    SpaceBeforeUpperNoUpper("x");
    var spaced := SpaceBeforeUpper(key);
    assert spaced == "x Pct Y Pct";
    TwoPctLabel(spaced);
  }

  lemma TwoPctLabel(s: string)
    requires s == "x Pct Y Pct"
    ensures ReplaceFirst(CapitalizeFirst(s), "Pct", "%") == "X % Y Pct"
  {
    var c := CapitalizeFirst(s);
    assert c == "X Pct Y Pct";
    assert c[2..5] == "Pct";
    FirstOccurrenceBefore(c, "Pct", 2);
    assert c[..2] + "%" + c[5..] == "X % Y Pct";
  }

  /** A key that already starts upper-case gets a leading space, which `/^./` then matches. */
  lemma UpperKeyKeepsLeadingSpace(key: string)
    requires |key| > 0 && IsUpper(key[0])
    ensures |FormatLabel(key)| > 0 && FormatLabel(key)[0] == ' '
  {
    var c := CapitalizeFirst(SpaceBeforeUpper(key));
    assert c[0] == ' ';
    ReplaceKeepsHead(c);
  }

  /** The head of `SpaceBeforeUpper(s)` and, after a character that is not upper-case, its tail. */
  lemma SpacedHead(s: string)
    requires |s| > 0
    ensures |SpaceBeforeUpper(s)| > 0
    ensures SpaceBeforeUpper(s)[0] == (if IsUpper(s[0]) then ' ' else s[0])
    ensures !IsUpper(s[0]) ==> SpaceBeforeUpper(s)[1..] == SpaceBeforeUpper(s[1..])
  {
  }

  /** A key starting with a lower-case letter gets that letter upper-cased, unless it starts with "pct". */
  lemma LowerKeyCapitalized(key: string)
    requires |key| > 0 && IsLower(key[0])
    requires !(|key| >= 3 && key[..3] == "pct")
    ensures |FormatLabel(key)| > 0 && FormatLabel(key)[0] == ToUpperChar(key[0])
  {
    var spaced := SpaceBeforeUpper(key);
    var c := CapitalizeFirst(spaced);
    SpacedHead(key);
    assert c[0] == ToUpperChar(key[0]);
    assert !(|c| >= 3 && c[..3] == "Pct") by {
      if key[0] == 'p' {
        if |key| == 1 {
          assert |spaced| == 1;
        } else {
          SpacedHead(key[1..]);
          if key[1] == 'c' {
            assert spaced[2..] == SpaceBeforeUpper(key[2..]);
            if |key| == 2 {
              assert |spaced| == 2;
            } else {
              SpacedHead(key[2..]);
              assert key[2] != 't';
              assert spaced[2] != 't';
            }
          } else {
            assert spaced[1] != 'c';
          }
        }
      }
    }
    ReplaceKeepsHead(c);
  }

  /** Replacing the first "Pct" keeps the first character unless "Pct" starts the text. */
  lemma ReplaceKeepsHead(s: string)
    requires |s| > 0 && !(|s| >= 3 && s[..3] == "Pct")
    ensures |ReplaceFirst(s, "Pct", "%")| > 0 && ReplaceFirst(s, "Pct", "%")[0] == s[0]
  {
    var idx := IndexOf(s, "Pct");
    if idx.Some? {
      assert idx.value != 0;
    }
  }

  // ----- StatsCard -----

  /** `v == null || v === 0`: a value that does not make a card worth showing. */
  predicate IsEmptyValue(v: Val)
  {
    v.Null? || v == Int(0)
  }

  /** The entries other than `__typename`, in order. */
  function VisibleEntries(stats: Category): (r: Category)
    ensures forall e :: e in r <==> e in stats && e.0 != TYPENAME
    ensures IsSubsequence(r, stats)
    ensures forall e :: multiset(r)[e] == if e.0 != TYPENAME then multiset(stats)[e] else 0
  {
    Filter((e: (string, Val)) => e.0 != TYPENAME, stats)
  }

  /** What a value cell shows. */
  datatype StatCell = Placeholder | Whole(n: int) | OneDecimal

  /** `value` rounded to one decimal when fractional, else `value ?? placeholder`. */
  function CellValue(v: Val): (c: StatCell)
    ensures c == Placeholder <==> v.Null?
    ensures c.Whole? <==> v.Int?
    ensures v.Int? ==> c.n == v.n
  {
    match v
    case Null => Placeholder
    case Int(n) => Whole(n)
    case NonInteger(_) => OneDecimal
  }

  datatype StatRow = StatRow(caption: string, cell: StatCell)

  datatype Card = Card(title: string, rows: seq<StatRow>)

  /**
    `StatsCard({title, stats})`: no card when `stats` is missing or every
    entry other than `__typename` is null or zero; otherwise one row per such
    entry, in order, with its label and its cell.
   */
  function StatsCard(title: string, stats: Option<Category>): (card: Option<Card>)
    ensures card.None? <==> stats.None? || forall e :: e in stats.value && e.0 != TYPENAME ==> IsEmptyValue(e.1)
    ensures card.Some? ==> card.value.title == title
    ensures card.Some? ==> |card.value.rows| == |VisibleEntries(stats.value)|
    ensures card.Some? ==> forall i :: 0 <= i < |card.value.rows| ==>
      card.value.rows[i] == StatRow(FormatLabel(VisibleEntries(stats.value)[i].0), CellValue(VisibleEntries(stats.value)[i].1))
  {
    if stats.None? then None
    else
      var entries := VisibleEntries(stats.value);
      if forall e | e in entries :: IsEmptyValue(e.1) then None
      else Some(Card(title, seq(|entries|, i requires 0 <= i < |entries| => StatRow(FormatLabel(entries[i].0), CellValue(entries[i].1)))))
  }

  /** One shown, non-null, non-zero value is enough for the card to render. */
  lemma OneValueShowsCard(title: string, stats: Category, key: string, v: Val)
    requires (key, v) in stats && key != TYPENAME && !IsEmptyValue(v)
    ensures StatsCard(title, Some(stats)).Some?
  {
  }

  /** A `__typename` entry never becomes a row, whatever its value. */
  lemma TypenameNeverShown(title: string, stats: Category)
    requires StatsCard(title, Some(stats)).Some?
    ensures forall i :: 0 <= i < |StatsCard(title, Some(stats)).value.rows| ==> VisibleEntries(stats)[i].0 != TYPENAME
  {
    var entries := VisibleEntries(stats);
    assert forall i :: 0 <= i < |entries| ==> entries[i] in entries;
  }
}
