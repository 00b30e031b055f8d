/**
  The team generator: a random draw of distinct positions from the selected
  towers, of a size the team-size widget allows.
 */
module Team {
  import opened Seqs
  import opened Catalog
  import opened Session

  /** The team sizes the number widget accepts: at least one, and at most
      one fewer than the number of selected towers. */
  predicate AllowedTeamSize(s: Session, teamSize: int) {
    1 <= teamSize <= |s.selected| - 1
  }

  /** Draws `teamSize` towers from the selection without replacement. Which
      towers are drawn is left open; the session is only read. */
  method DrawTeam(s: Session, teamSize: int) returns (team: seq<Tower>)
    requires AllowedTeamSize(s, teamSize)
    ensures |team| == teamSize
    ensures multiset(team) <= multiset(s.selected)
    ensures forall t :: t in team ==> t in s.selected
    ensures Distinct(s.selected) ==> Distinct(team)
    ensures Valid(s) ==> forall t :: t in team ==> t in MonkeyImages
  {
    var rest := s.selected;
    team := [];
    while |team| < teamSize
      invariant |team| <= teamSize
      invariant |team| + |rest| == |s.selected|
      invariant multiset(team) + multiset(rest) == multiset(s.selected)
    {
      var i :| 0 <= i < |rest|;
      assert rest == rest[..i] + [rest[i]] + rest[i + 1..];
      team := team + [rest[i]];
      rest := rest[..i] + rest[i + 1..];
    }
    assert forall t :: t in team ==> t in multiset(team);
    if Distinct(s.selected) {
      SubMultisetDistinct(team, s.selected);
    }
    if Valid(s) {
      SelectedTowersHaveImages(s);
    }
  }
}
