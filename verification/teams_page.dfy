/**
  The teams list (src/pages/TeamsPage.jsx): the search box keeps the teams
  whose name or abbreviation contains the search text, ignoring ASCII case.
 */
module TeamsPage {
  import opened Seqs
  import opened Text

  /** The fields of a team summary that the list uses. */
  datatype Team = Team(id: int, name: string, abbreviation: string)

  /** The test applied to one team, with `query` the already lower-cased search. */
  predicate MatchesQuery(t: Team, query: string)
  {
    Contains(ToLower(t.name), query) || Contains(ToLower(t.abbreviation), query)
  }

  /** `teams.filter(t => name or abbreviation, lower-cased, includes search.toLowerCase())`. */
  function FilterTeams(teams: seq<Team>, search: string): (r: seq<Team>)
    ensures forall t :: t in r <==> t in teams && MatchesQuery(t, ToLower(search))
    ensures IsSubsequence(r, teams)
    ensures forall t :: multiset(r)[t] == if MatchesQuery(t, ToLower(search)) then multiset(teams)[t] else 0
  {
    var query := ToLower(search);
    Filter((t: Team) => MatchesQuery(t, query), teams)
  }

  /** An empty search keeps every team, in the original order. */
  lemma EmptySearchKeepsAll(teams: seq<Team>)
    ensures FilterTeams(teams, "") == teams
  {
    forall t: Team ensures MatchesQuery(t, ToLower("")) {
      assert ToLower("") == "";
      ContainsEmpty(ToLower(t.name));
    }
    FilterKeepsAll((t: Team) => MatchesQuery(t, ToLower("")), teams);
  }

  /** Two searches that differ only in the case of ASCII letters keep the same teams. */
  lemma SearchIgnoresCase(teams: seq<Team>, a: string, b: string)
    requires ToLower(a) == ToLower(b)
    ensures FilterTeams(teams, a) == FilterTeams(teams, b)
  {
  }

  /** Typing more characters never brings a team back: the result narrows. */
  lemma LongerSearchNarrows(teams: seq<Team>, search: string, more: string)
    ensures IsSubsequence(FilterTeams(teams, search + more), FilterTeams(teams, search))
  {
    var q, q' := ToLower(search), ToLower(search + more);
    ToLowerAppend(search, more);
    forall t: Team | t in teams && MatchesQuery(t, q') ensures MatchesQuery(t, q) {
      if Contains(ToLower(t.name), q') {
        ContainsPrefix(ToLower(t.name), q, ToLower(more));
      } else {
        ContainsPrefix(ToLower(t.abbreviation), q, ToLower(more));
      }
    }
    FilterStronger((t: Team) => MatchesQuery(t, q), (t: Team) => MatchesQuery(t, q'), teams);
  }

  /** "gb" and "GB" both find the Packers by their abbreviation. */
  lemma PackersByAbbreviation()
    ensures FilterTeams([Team(1, "Packers", "GB")], "gb") == [Team(1, "Packers", "GB")]
    ensures FilterTeams([Team(1, "Packers", "GB")], "GB") == [Team(1, "Packers", "GB")]
  {
    assert ToLower("GB") == "gb";
    assert ToLower("gb") == "gb";
    assert OccursAt("gb", "gb", 0);
    assert MatchesQuery(Team(1, "Packers", "GB"), "gb");
  }

  /** "jets" keeps nothing of the Packers. */
  lemma PackersNotJets()
    ensures FilterTeams([Team(1, "Packers", "GB")], "jets") == []
  {
    assert ToLower("jets") == "jets";
    assert ToLower("Packers") == "packers";
    assert ToLower("GB") == "gb";
    MissingChar("packers", "jets", 0);
    MissingChar("gb", "jets", 0);
    assert !MatchesQuery(Team(1, "Packers", "GB"), "jets");
  }
}
