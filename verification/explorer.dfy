/**
 The career-explorer page's interest picker: the selected interest id, its
 name lookup, the header/dropdown split of the interest list and the
 14-character name truncation used in both.
 */
module Explorer {
  import opened Seqs
  import opened Schema
  import Visualization

  /** The interest selected when the page mounts. */
  const InitialInterestId: int := 1

  /** The page's selection together with the visualization it renders. */
  datatype Page = Page(selectedInterestId: int, view: Visualization.ViewState)

  function InitialPage(view: Visualization.ViewState): (p: Page)
    ensures p.selectedInterestId == 1
  {
    Page(InitialInterestId, view)
  }

  /**
   A dropdown click: the page switches interest, and the visualization's
   interest-change effect runs when the id actually changed.
   */
  function ChooseInterest(p: Page, interestId: int): (r: Page)
    ensures r.selectedInterestId == interestId
    ensures interestId != p.selectedInterestId ==> r.view == Visualization.InterestChange(p.view)
    ensures interestId == p.selectedInterestId ==> r == p
  {
    if interestId == p.selectedInterestId then p
    else Page(interestId, Visualization.InterestChange(p.view))
  }

  /** `getSelectedInterestName`: '' before the list loads or when no interest has the id. */
  function SelectedInterestName(interests: Option<seq<CareerInterest>>, selectedId: int): (r: string)
    ensures interests.None? ==> r == ""
    ensures interests.Some? && (forall i :: 0 <= i < |interests.value| ==> interests.value[i].id != selectedId) ==> r == ""
    ensures interests.Some? && (exists i :: 0 <= i < |interests.value| && interests.value[i].id == selectedId) ==>
              exists i :: 0 <= i < |interests.value| && interests.value[i].id == selectedId
                          && r == interests.value[i].name
                          && forall j :: 0 <= j < i ==> interests.value[j].id != selectedId
  {
    match interests
    case None => ""
    case Some(xs) =>
      match Find(xs, (c: CareerInterest) => c.id == selectedId)
      case Some(c) => c.name
      case None => ""
  }

  /** The name as a picker button shows it: longer than 14 characters, the first 14 and an ellipsis. */
  function DisplayName(name: string): (r: string)
    ensures |name| <= 14 ==> r == name
    ensures |name| > 14 ==> |r| == 17 && r[..14] == name[..14] && r[14..] == "..."
  {
    if |name| > 14 then name[..14] + "..." else name
  }

  /** Truncating a displayed name again changes nothing. */
  lemma DisplayNameIdempotent(name: string)
    ensures DisplayName(DisplayName(name)) == DisplayName(name)
  {
    if |name| > 14 {
      var r := DisplayName(name);
      assert r[..14] + "..." == r;
    }
  }

  /** The header button's list: the interests with the selected id. */
  function HeaderInterests(interests: Option<seq<CareerInterest>>, selectedId: int): seq<CareerInterest> {
    if interests.None? then [] else Filter(interests.value, (c: CareerInterest) => c.id == selectedId)
  }

  /** The dropdown's list: every other interest. */
  function DropdownInterests(interests: Option<seq<CareerInterest>>, selectedId: int): seq<CareerInterest> {
    if interests.None? then [] else Filter(interests.value, (c: CareerInterest) => c.id != selectedId)
  }

  /** Header and dropdown split the interest list: nothing lost, nothing shown twice. */
  lemma PickerPartition(interests: seq<CareerInterest>, selectedId: int)
    ensures var header := HeaderInterests(Some(interests), selectedId);
            var dropdown := DropdownInterests(Some(interests), selectedId);
            && multiset(header) + multiset(dropdown) == multiset(interests)
            && |header| + |dropdown| == |interests|
  {
    FilterPartition(interests, (c: CareerInterest) => c.id == selectedId, (c: CareerInterest) => c.id != selectedId);
  }

  /** Both lists keep the interests' order, the header holds only the selected id and the dropdown none of it. */
  lemma PickerOrder(interests: seq<CareerInterest>, selectedId: int)
    ensures var header := HeaderInterests(Some(interests), selectedId);
            var dropdown := DropdownInterests(Some(interests), selectedId);
            && IsSubsequence(header, interests) && IsSubsequence(dropdown, interests)
            && (forall i :: 0 <= i < |header| ==> header[i].id == selectedId)
            && (forall i :: 0 <= i < |dropdown| ==> dropdown[i].id != selectedId)
  {
    FilterSpec(interests, (c: CareerInterest) => c.id == selectedId);
    FilterSpec(interests, (c: CareerInterest) => c.id != selectedId);
  }

  ghost predicate DistinctIds(interests: seq<CareerInterest>) {
    forall i, j :: 0 <= i < j < |interests| ==> interests[i].id != interests[j].id
  }

  /**
   With distinct ids the header shows at most one button, and it is labelled
   with the looked-up name.
   */
  lemma {:induction false} HeaderMatchesName(interests: seq<CareerInterest>, selectedId: int)
    requires DistinctIds(interests)
    ensures |HeaderInterests(Some(interests), selectedId)| <= 1
    ensures |HeaderInterests(Some(interests), selectedId)| == 1 ==>
              HeaderInterests(Some(interests), selectedId)[0].name == SelectedInterestName(Some(interests), selectedId)
    ensures |HeaderInterests(Some(interests), selectedId)| == 0 ==> SelectedInterestName(Some(interests), selectedId) == ""
  {
    if |interests| > 0 {
      var rest := interests[1..];
      assert DistinctIds(rest) by {
        forall i, j | 0 <= i < j < |rest| ensures rest[i].id != rest[j].id {
          assert rest[i] == interests[i + 1] && rest[j] == interests[j + 1];
        }
      }
      HeaderMatchesName(rest, selectedId);
      var p := (c: CareerInterest) => c.id == selectedId;
      assert Find(interests, p) == if p(interests[0]) then Some(interests[0]) else Find(rest, p);
      if interests[0].id == selectedId {
        assert forall i :: 0 <= i < |rest| ==> rest[i].id != selectedId by {
          forall i | 0 <= i < |rest| ensures rest[i].id != selectedId {
            assert rest[i] == interests[i + 1];
          }
        }
        FilterDropsAll(rest, p);
      }
    }
  }
}
