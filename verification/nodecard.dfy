/**
 How one pathway card renders: its three-way style, the chevron colour, the
 status badge and at most two company badges. The card's click hands the
 visualization this card's position (see `Visualization.NodeRef`).
 */
module NodeCard {
  import opened Seqs
  import opened Schema
  import opened Utils
  import opened Visualization

  /** Highlighted (blue), greyed out (faded) or plain (hover-only) card. */
  datatype CardStyle = Highlighted | Greyed | Plain

  datatype Chevron = PrimaryChevron | MutedChevron

  /** The card's three-way style rule. */
  function CardStyleOf(n: PathwayNode, careerSelected: bool): (r: CardStyle)
    ensures r == Highlighted <==> ActivePath(n)
    ensures r == Greyed <==> !ActivePath(n) && careerSelected
    ensures r == Plain <==> !ActivePath(n) && !careerSelected
  {
    if ActivePath(n) then Highlighted
    else if careerSelected && !ActivePath(n) then Greyed
    else Plain
  }

  /** The chevron colour. */
  function ChevronOf(n: PathwayNode): (r: Chevron)
    ensures r == PrimaryChevron <==> ActivePath(n)
  {
    if ActivePath(n) then PrimaryChevron else MutedChevron
  }

  /** A card without the flag renders as one whose flag is false. */
  lemma MissingFlagIsInactive(n: PathwayNode, careerSelected: bool)
    ensures CardStyleOf(n.(isActivePath := None), careerSelected) == CardStyleOf(n.(isActivePath := Some(false)), careerSelected)
    ensures ChevronOf(n.(isActivePath := None)) == ChevronOf(n.(isActivePath := Some(false)))
  {
  }

  /** The chevron ignores `careerSelected`: it is primary exactly on highlighted cards, whatever the selection. */
  lemma ChevronFollowsHighlight(n: PathwayNode, careerSelected: bool)
    ensures ChevronOf(n) == PrimaryChevron <==> CardStyleOf(n, careerSelected) == Highlighted
  {
  }

  /** The company badges: the first two names, shown only for a non-empty list. */
  function CompanyBadges(n: PathwayNode): (r: seq<string>)
    ensures (n.info.None? || n.info.value.companies.None?) ==> r == []
    ensures n.info.Some? && n.info.value.companies.Some? ==>
              var cs := n.info.value.companies.value;
              && |r| == (if |cs| < 2 then |cs| else 2)
              && r == cs[..|r|]
  {
    if n.info.Some? && n.info.value.companies.Some? && |n.info.value.companies.value| > 0 then
      var cs := n.info.value.companies.value;
      if |cs| < 2 then cs else cs[..2]
    else []
  }

  /** Everything on a card that logic decides. */
  datatype CardView = CardView(
    style: CardStyle, chevron: Chevron, badge: BadgeClasses, statusLabel: string,
    title: string, companies: seq<string>)

  /**
   A rendered card: highlighted exactly when its node is on the active path,
   greyed exactly when it is off the path while a career is selected, the chevron primary exactly on a
   highlighted card, and the company badges the first (at most two) names.
   */
  function RenderCard(n: PathwayNode, careerSelected: bool): (r: CardView)
    ensures r.style == Highlighted <==> ActivePath(n)
    ensures r.style == Greyed <==> !ActivePath(n) && careerSelected
    ensures r.chevron == PrimaryChevron <==> r.style == Highlighted
    ensures r.badge == StatusBadgeClasses(n.status) && r.statusLabel == ToTitleCase(n.status)
    ensures r.title == n.title
    ensures (n.info.None? || n.info.value.companies.None?) ==> r.companies == []
    ensures n.info.Some? && n.info.value.companies.Some? ==>
              var cs := n.info.value.companies.value;
              r.companies == cs[..if |cs| < 2 then |cs| else 2]
  {
    CardView(CardStyleOf(n, careerSelected), ChevronOf(n), StatusBadgeClasses(n.status),
             ToTitleCase(n.status), n.title, CompanyBadges(n))
  }

  /**
   After a career is selected every card is either highlighted or greyed: a
   card is highlighted exactly when the selection marks it.
   */
  lemma CardsAfterSelection(s: ViewState, ref: NodeRef, c: Column, i: int)
    requires ValidRef(s, ref)
    requires !IsDetailType(NodeAt(s, ref).pathwayType)
    requires !(s.selectedNode.Some? && s.selectedNode.value.id == NodeAt(s, ref).id)
    requires 0 <= i < |Bucket(s.pathways.value, c)|
    ensures var r := HandleNodeSelect(s, ref);
            && i < |Bucket(r.pathways.value, c)|
            && CardStyleOf(Bucket(r.pathways.value, c)[i], r.careerSelected) ==
                 (if MarkedBySelection(s, ref, c, i) then Highlighted else Greyed)
  {
    SelectCareer(s, ref);
    assert SameColumn(Bucket(s.pathways.value, c), Bucket(HandleNodeSelect(s, ref).pathways.value, c));
  }

  /** After a deselection or a background click every card is plain. */
  lemma CardsAfterDeselect(s: ViewState, c: Column, i: int)
    requires s.pathways.Some?
    requires 0 <= i < |Bucket(s.pathways.value, c)|
    ensures var r := Deselect(s);
            && i < |Bucket(r.pathways.value, c)|
            && CardStyleOf(Bucket(r.pathways.value, c)[i], r.careerSelected) == Plain
  {
    var r := Deselect(s);
    assert SameColumn(Bucket(s.pathways.value, c), Bucket(r.pathways.value, c));
    assert NoneActive(Bucket(r.pathways.value, c));
  }

  /**
   The visible effect of the interest change as written: with a career
   selected, the next interest's fresh cards (flags absent) all render greyed,
   although nothing is selected any more.
   */
  lemma StaleGreyOut(s: ViewState, b: Buckets, c: Column, i: int)
    requires Coherent(s) && s.selectedNode.Some?
    requires 0 <= i < |Bucket(b, c)|
    requires Bucket(b, c)[i].isActivePath.None?
    ensures var r := PathwaysLoaded(InterestChange(s), b);
            && r.selectedNode.None?
            && CardStyleOf(Bucket(r.pathways.value, c)[i], r.careerSelected) == Greyed
  {
  }

  /** With the corrected reset the same fresh cards render plain. */
  lemma NoStaleGreyOut(s: ViewState, b: Buckets, c: Column, i: int)
    requires 0 <= i < |Bucket(b, c)|
    requires Bucket(b, c)[i].isActivePath.None?
    ensures var r := PathwaysLoaded(InterestChangeCorrected(s), b);
            CardStyleOf(Bucket(r.pathways.value, c)[i], r.careerSelected) == Plain
  {
  }
}
