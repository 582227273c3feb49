/**
 The pathway visualization's state machine: clicking nodes, highlighting a
 career's prerequisites, resetting, status filters, and the per-column
 projection the four columns render. Each event handler is one atomic
 transition on an immutable view state; the node flags live in the four
 buckets, which own the node state.
 */
module Visualization {
  import opened Seqs
  import opened Text
  import opened Schema

  /** A rendered card: a position in one of the four buckets. */
  datatype NodeRef = NodeRef(column: Column, index: nat)

  datatype ViewState = ViewState(
    pathways: Option<Buckets>,
    selectedNode: Option<PathwayNode>,
    selectedCourseNode: Option<PathwayNode>,
    activeFilters: seq<string>,
    careerSelected: bool,
    highlightedNodes: seq<int>)

  /** The component's state when it mounts: nothing selected, no filter, no highlight. */
  function InitialState(pathways: Option<Buckets>): ViewState {
    ViewState(pathways, None, None, [], false, [])
  }

  /** `node.isActivePath || false`: a missing flag reads as inactive. */
  predicate ActivePath(n: PathwayNode) {
    n.isActivePath == Some(true)
  }

  /** The node with its transient flag forgotten: everything the server sent. */
  function Strip(n: PathwayNode): PathwayNode {
    n.(isActivePath := None)
  }

  ghost predicate ValidRef(s: ViewState, ref: NodeRef) {
    s.pathways.Some? && ref.index < |Bucket(s.pathways.value, ref.column)|
  }

  function NodeAt(s: ViewState, ref: NodeRef): PathwayNode
    requires ValidRef(s, ref)
  {
    Bucket(s.pathways.value, ref.column)[ref.index]
  }

  /** The same nodes in the same order; only the flags may differ. */
  ghost predicate SameColumn(xs: seq<PathwayNode>, ys: seq<PathwayNode>) {
    |ys| == |xs| && forall i :: 0 <= i < |xs| ==> Strip(ys[i]) == Strip(xs[i])
  }

  /** The same nodes in the same columns and order; only the flags may differ. */
  ghost predicate SameNodes(b: Buckets, b': Buckets) {
    forall c: Column :: SameColumn(Bucket(b, c), Bucket(b', c))
  }

  ghost predicate NoneActive(xs: seq<PathwayNode>) {
    forall i :: 0 <= i < |xs| ==> !ActivePath(xs[i])
  }

  ghost predicate AllInactive(b: Buckets) {
    forall c: Column :: NoneActive(Bucket(b, c))
  }

  /** Pathway types whose click opens the detail modal instead of highlighting. */
  predicate IsDetailType(t: string) {
    t == "course" || t == "certification" || t == "major"
  }

  // ---- resetting ----

  function Deactivate(nodes: seq<PathwayNode>): (r: seq<PathwayNode>)
    ensures |r| == |nodes|
    ensures forall i :: 0 <= i < |r| ==> r[i] == nodes[i].(isActivePath := Some(false))
  {
    seq(|nodes|, i requires 0 <= i < |nodes| => nodes[i].(isActivePath := Some(false)))
  }

  function DeactivateAll(b: Buckets): (r: Buckets)
    ensures forall c: Column :: Bucket(r, c) == Deactivate(Bucket(b, c))
  {
    Buckets(Deactivate(b.courses), Deactivate(b.certifications), Deactivate(b.majors), Deactivate(b.careers))
  }

  /** `resetHighlights`: every flag in all four buckets false, no highlighted ids. */
  function ResetHighlights(s: ViewState): (r: ViewState)
    ensures r.highlightedNodes == []
    ensures r.pathways.Some? <==> s.pathways.Some?
    ensures s.pathways.Some? ==> AllInactive(r.pathways.value) && SameNodes(s.pathways.value, r.pathways.value)
    ensures r == s.(pathways := r.pathways, highlightedNodes := [])
  {
    var r := s.(pathways := if s.pathways.Some? then Some(DeactivateAll(s.pathways.value)) else None,
                highlightedNodes := []);
    assert s.pathways.Some? ==> forall c: Column :: Bucket(r.pathways.value, c) == Deactivate(Bucket(s.pathways.value, c));
    r
  }

  /** Deselecting a career, and the background click: reset, then no selected career. */
  function Deselect(s: ViewState): (r: ViewState)
    ensures r.selectedNode.None? && !r.careerSelected && r.highlightedNodes == []
    ensures s.pathways.Some? ==> r.pathways.Some? && AllInactive(r.pathways.value) && SameNodes(s.pathways.value, r.pathways.value)
    ensures r.selectedCourseNode == s.selectedCourseNode && r.activeFilters == s.activeFilters
  {
    ResetHighlights(s).(selectedNode := None, careerSelected := false)
  }

  /** A click on the visualization's background or its inner container. */
  function BackgroundClick(s: ViewState): ViewState {
    Deselect(s)
  }

  lemma {:induction false} ResetIdempotent(s: ViewState)
    ensures ResetHighlights(ResetHighlights(s)) == ResetHighlights(s)
    ensures Deselect(Deselect(s)) == Deselect(s)
  {
    if s.pathways.Some? {
      var b := s.pathways.value;
      assert DeactivateAll(DeactivateAll(b)) == DeactivateAll(b) by {
        forall nodes: seq<PathwayNode> ensures Deactivate(Deactivate(nodes)) == Deactivate(nodes) {
        }
      }
    }
  }

  // ---- highlighting ----

  /** `requiredSteps.map(step => step.id)`: order and duplicates kept. */
  function StepIds(steps: seq<Step>): (ids: seq<int>)
    ensures |ids| == |steps|
    ensures forall i :: 0 <= i < |steps| ==> ids[i] == steps[i].id
  {
    seq(|steps|, i requires 0 <= i < |steps| => steps[i].id)
  }

  /**
   `matchesRequirement` as written: the inner parameter shadows the selected
   career, so the step scan ranges over the candidate's OWN required steps and
   compares the candidate's title with its own step names.
   */
  predicate MatchesRequirement(candidate: PathwayNode, requiredIds: seq<int>) {
    || candidate.id in requiredIds
    || match RequiredSteps(candidate)
       case None => false
       case Some(steps) =>
         exists i :: 0 <= i < |steps| &&
           (steps[i].id in requiredIds || Contains(Lower(candidate.title), Lower(steps[i].name)))
  }

  function MarkMatches(nodes: seq<PathwayNode>, requiredIds: seq<int>): (r: seq<PathwayNode>)
    ensures |r| == |nodes|
    ensures forall i :: 0 <= i < |r| ==>
              r[i] == if MatchesRequirement(nodes[i], requiredIds) then nodes[i].(isActivePath := Some(true)) else nodes[i]
  {
    seq(|nodes|, i requires 0 <= i < |nodes| =>
      if MatchesRequirement(nodes[i], requiredIds) then nodes[i].(isActivePath := Some(true)) else nodes[i])
  }

  /** `node.isActivePath = true` on the clicked object itself. */
  function ActivateAt(b: Buckets, ref: NodeRef): Buckets
    requires ref.index < |Bucket(b, ref.column)|
  {
    var n := Bucket(b, ref.column)[ref.index].(isActivePath := Some(true));
    match ref.column
    case Courses => b.(courses := b.courses[ref.index := n])
    case Certifications => b.(certifications := b.certifications[ref.index := n])
    case Majors => b.(majors := b.majors[ref.index := n])
    case Careers => b.(careers := b.careers[ref.index := n])
  }

  /** The three scanned columns marked; careers are never scanned. */
  function MarkColumns(b: Buckets, requiredIds: seq<int>): (r: Buckets)
    ensures forall c: Column :: Bucket(r, c) == if c == Careers then Bucket(b, c) else MarkMatches(Bucket(b, c), requiredIds)
  {
    Buckets(MarkMatches(b.courses, requiredIds), MarkMatches(b.certifications, requiredIds),
            MarkMatches(b.majors, requiredIds), b.careers)
  }

  /** The match test reads nothing the flag could change. */
  lemma MatchesIgnoresFlag(n: PathwayNode, m: PathwayNode, requiredIds: seq<int>)
    requires Strip(n) == Strip(m)
    ensures MatchesRequirement(n, requiredIds) == MatchesRequirement(m, requiredIds)
  {
    assert n.id == m.id && n.title == m.title && n.info == m.info;
  }

  lemma SameColumnTransitive(xs: seq<PathwayNode>, ys: seq<PathwayNode>, zs: seq<PathwayNode>)
    requires SameColumn(xs, ys) && SameColumn(ys, zs)
    ensures SameColumn(xs, zs)
  {
  }

  lemma SameNodesTransitive(a: Buckets, b: Buckets, c: Buckets)
    requires SameNodes(a, b) && SameNodes(b, c)
    ensures SameNodes(a, c)
  {
    forall col: Column ensures SameColumn(Bucket(a, col), Bucket(c, col)) {
      SameColumnTransitive(Bucket(a, col), Bucket(b, col), Bucket(c, col));
    }
  }

  lemma MarkColumnsSame(b: Buckets, requiredIds: seq<int>)
    ensures SameNodes(b, MarkColumns(b, requiredIds))
  {
    var r := MarkColumns(b, requiredIds);
    forall c: Column ensures SameColumn(Bucket(b, c), Bucket(r, c)) {
      var xs := Bucket(b, c);
      if c != Careers {
        forall i | 0 <= i < |xs| ensures Strip(Bucket(r, c)[i]) == Strip(xs[i]) {
        }
      }
    }
  }

  /** Exactly the referenced position changes, and only its flag, which becomes true. */
  lemma ActivateAtSpec(b: Buckets, ref: NodeRef)
    requires ref.index < |Bucket(b, ref.column)|
    ensures SameNodes(b, ActivateAt(b, ref))
    ensures forall c: Column, i :: 0 <= i < |Bucket(b, c)| ==>
              Bucket(ActivateAt(b, ref), c)[i] ==
                if NodeRef(c, i) == ref then Bucket(b, c)[i].(isActivePath := Some(true)) else Bucket(b, c)[i]
  {
    var r := ActivateAt(b, ref);
    forall c: Column ensures Bucket(r, c) == if c == ref.column then Bucket(b, c)[ref.index := Bucket(b, c)[ref.index].(isActivePath := Some(true))] else Bucket(b, c) {
    }
  }

  /**
   `highlightPrerequisites`: clear every flag and highlight, then, when the
   clicked node declares required steps (an empty list counts), mark it,
   highlight its step ids and mark the matching courses, certifications and majors.
   */
  function HighlightPrerequisites(s: ViewState, ref: NodeRef): ViewState
    requires ValidRef(s, ref)
  {
    var cleared := ResetHighlights(s);
    match RequiredSteps(NodeAt(s, ref))
    case None => cleared
    case Some(steps) =>
      var ids := StepIds(steps);
      cleared.(pathways := Some(MarkColumns(ActivateAt(cleared.pathways.value, ref), ids)), highlightedNodes := ids)
  }

  /** The ids a selection highlights: the clicked node's step ids, or none. */
  function HighlightIds(n: PathwayNode): seq<int> {
    match RequiredSteps(n)
    case None => []
    case Some(steps) => StepIds(steps)
  }

  /** Which node a selection of `ref` marks active: the reference definition of the highlight. */
  ghost predicate MarkedBySelection(s: ViewState, ref: NodeRef, c: Column, i: int)
    requires ValidRef(s, ref)
    requires 0 <= i < |Bucket(s.pathways.value, c)|
  {
    && RequiredSteps(NodeAt(s, ref)).Some?
    && (NodeRef(c, i) == ref
        || (c != Careers && MatchesRequirement(Bucket(s.pathways.value, c)[i], HighlightIds(NodeAt(s, ref)))))
  }

  /** `handleNodeSelect`, one click on a rendered card. */
  function HandleNodeSelect(s: ViewState, ref: NodeRef): (r: ViewState)
    requires ValidRef(s, ref)
    ensures IsDetailType(NodeAt(s, ref).pathwayType) ==> r == s.(selectedCourseNode := Some(NodeAt(s, ref)))
    ensures !IsDetailType(NodeAt(s, ref).pathwayType) ==>
              && r.selectedCourseNode == s.selectedCourseNode
              && r.activeFilters == s.activeFilters
              && r.pathways.Some? && SameNodes(s.pathways.value, r.pathways.value)
  {
    var node := NodeAt(s, ref);
    if IsDetailType(node.pathwayType) then
      s.(selectedCourseNode := Some(node))
    else if s.selectedNode.Some? && s.selectedNode.value.id == node.id then
      Deselect(s)
    else
      HighlightSameNodes(s, ref);
      HighlightPrerequisites(s, ref).(selectedNode := Some(node), careerSelected := true)
  }

  lemma HighlightSameNodes(s: ViewState, ref: NodeRef)
    requires ValidRef(s, ref)
    ensures var r := HighlightPrerequisites(s, ref);
            && r.pathways.Some? && SameNodes(s.pathways.value, r.pathways.value)
            && r.highlightedNodes == HighlightIds(NodeAt(s, ref))
            && r.selectedNode == s.selectedNode && r.selectedCourseNode == s.selectedCourseNode
            && r.activeFilters == s.activeFilters && r.careerSelected == s.careerSelected
  {
    var b0 := ResetHighlights(s).pathways.value;
    if RequiredSteps(NodeAt(s, ref)).Some? {
      var ids := StepIds(RequiredSteps(NodeAt(s, ref)).value);
      var b := ActivateAt(b0, ref);
      ActivateAtSpec(b0, ref);
      MarkColumnsSame(b, ids);
      SameNodesTransitive(s.pathways.value, b0, b);
      SameNodesTransitive(s.pathways.value, b, MarkColumns(b, ids));
    }
  }

  /** One position after a selection with steps: cleared, then the clicked one set, then the scan. */
  lemma MarkedPosition(s: ViewState, ref: NodeRef, c: Column, i: int)
    requires ValidRef(s, ref)
    requires RequiredSteps(NodeAt(s, ref)).Some?
    requires 0 <= i < |Bucket(s.pathways.value, c)|
    ensures var r := HighlightPrerequisites(s, ref).pathways.value;
            i < |Bucket(r, c)| && (ActivePath(Bucket(r, c)[i]) <==> MarkedBySelection(s, ref, c, i))
  {
    var ids := HighlightIds(NodeAt(s, ref));
    var x := Bucket(s.pathways.value, c)[i];
    var b0 := ResetHighlights(s).pathways.value;
    var x0 := Bucket(b0, c)[i];
    assert x0 == x.(isActivePath := Some(false));
    var b := ActivateAt(b0, ref);
    ActivateAtSpec(b0, ref);
    var x1 := Bucket(b, c)[i];
    assert Strip(x1) == Strip(x);
    MatchesIgnoresFlag(x1, x, ids);
    var r := MarkColumns(b, ids);
    assert HighlightPrerequisites(s, ref).pathways.value == r;
  }

  /**
   Clicking a career that is not the selected one: a clean slate, then exactly
   the nodes the selection marks are active, the step ids are highlighted in
   order, and the career is the selection.
   */
  lemma SelectCareer(s: ViewState, ref: NodeRef)
    requires ValidRef(s, ref)
    requires !IsDetailType(NodeAt(s, ref).pathwayType)
    requires !(s.selectedNode.Some? && s.selectedNode.value.id == NodeAt(s, ref).id)
    ensures var r := HandleNodeSelect(s, ref);
            && r.selectedNode == Some(NodeAt(s, ref)) && r.careerSelected
            && r.highlightedNodes == HighlightIds(NodeAt(s, ref))
            && r.pathways.Some? && SameNodes(s.pathways.value, r.pathways.value)
            && forall c: Column, i :: 0 <= i < |Bucket(r.pathways.value, c)| ==>
                 (ActivePath(Bucket(r.pathways.value, c)[i]) <==> MarkedBySelection(s, ref, c, i))
  {
    var h := HighlightPrerequisites(s, ref);
    HighlightSameNodes(s, ref);
    assert HandleNodeSelect(s, ref) == h.(selectedNode := Some(NodeAt(s, ref)), careerSelected := true);
    var rb := h.pathways.value;
    forall c: Column, i | 0 <= i < |Bucket(rb, c)|
      ensures ActivePath(Bucket(rb, c)[i]) <==> MarkedBySelection(s, ref, c, i)
    {
      assert SameColumn(Bucket(s.pathways.value, c), Bucket(rb, c));
      if RequiredSteps(NodeAt(s, ref)).Some? {
        MarkedPosition(s, ref, c, i);
      } else {
        assert NoneActive(Bucket(rb, c));
      }
    }
  }

  /** A career without required steps still becomes the selection, but marks and highlights nothing. */
  lemma SelectCareerWithoutSteps(s: ViewState, ref: NodeRef)
    requires ValidRef(s, ref)
    requires !IsDetailType(NodeAt(s, ref).pathwayType)
    requires !(s.selectedNode.Some? && s.selectedNode.value.id == NodeAt(s, ref).id)
    requires RequiredSteps(NodeAt(s, ref)).None?
    ensures var r := HandleNodeSelect(s, ref);
            && r.selectedNode == Some(NodeAt(s, ref)) && r.careerSelected
            && r.highlightedNodes == [] && AllInactive(r.pathways.value)
  {
    SelectCareer(s, ref);
  }

  /** `isPrerequisite(id)` */
  predicate IsPrerequisite(s: ViewState, nodeId: int) {
    nodeId in s.highlightedNodes
  }

  /** After a career is selected, an id is a prerequisite exactly when one of the career's steps has it. */
  lemma PrerequisiteIffStep(s: ViewState, ref: NodeRef, nodeId: int)
    requires ValidRef(s, ref)
    requires !IsDetailType(NodeAt(s, ref).pathwayType)
    requires !(s.selectedNode.Some? && s.selectedNode.value.id == NodeAt(s, ref).id)
    ensures IsPrerequisite(HandleNodeSelect(s, ref), nodeId) <==>
            (RequiredSteps(NodeAt(s, ref)).Some? &&
             exists i :: 0 <= i < |RequiredSteps(NodeAt(s, ref)).value| && RequiredSteps(NodeAt(s, ref)).value[i].id == nodeId)
  {
    SelectCareer(s, ref);
  }

  /** Clicking the selected career again, or the background: every flag cleared, nothing selected. */
  lemma ReselectDeselects(s: ViewState, ref: NodeRef)
    requires ValidRef(s, ref)
    requires !IsDetailType(NodeAt(s, ref).pathwayType)
    requires s.selectedNode.Some? && s.selectedNode.value.id == NodeAt(s, ref).id
    ensures var r := HandleNodeSelect(s, ref);
            && r.selectedNode.None? && !r.careerSelected && r.highlightedNodes == []
            && r.pathways.Some? && AllInactive(r.pathways.value)
            && r == BackgroundClick(s)
  {
  }

  /** Selecting a career twice in a row returns to the idle state with no flag set. */
  lemma SelectTwiceIsIdle(s: ViewState, ref: NodeRef)
    requires ValidRef(s, ref)
    requires !IsDetailType(NodeAt(s, ref).pathwayType)
    requires !(s.selectedNode.Some? && s.selectedNode.value.id == NodeAt(s, ref).id)
    ensures ValidRef(HandleNodeSelect(s, ref), ref)
    ensures var r := HandleNodeSelect(HandleNodeSelect(s, ref), ref);
            && r.selectedNode.None? && !r.careerSelected && r.highlightedNodes == []
            && r.pathways.Some? && AllInactive(r.pathways.value)
            && SameNodes(s.pathways.value, r.pathways.value)
  {
    var s1 := HandleNodeSelect(s, ref);
    SelectCareer(s, ref);
    assert Strip(NodeAt(s1, ref)) == Strip(NodeAt(s, ref));
    assert NodeAt(s1, ref).id == NodeAt(s, ref).id;
    var r := HandleNodeSelect(s1, ref);
    assert r == Deselect(s1);
    SameNodesTransitive(s.pathways.value, s1.pathways.value, r.pathways.value);
  }

  // ---- status filters ----

  ghost predicate NoDuplicates(fs: seq<string>) {
    forall i, j :: 0 <= i < j < |fs| ==> fs[i] != fs[j]
  }

  /** `toggleFilter` on the list: drop every copy of a present status, append an absent one. */
  function Toggle(fs: seq<string>, f: string): (r: seq<string>)
    ensures f in r <==> f !in fs
    ensures forall g :: g != f ==> (g in r <==> g in fs)
    ensures NoDuplicates(fs) ==> NoDuplicates(r)
  {
    if f in fs then
      FilterNoDuplicates(fs, (x: string) => x != f);
      Filter(fs, (x: string) => x != f)
    else fs + [f]
  }

  lemma {:induction false} FilterNoDuplicates(fs: seq<string>, p: string -> bool)
    ensures NoDuplicates(fs) ==> NoDuplicates(Filter(fs, p))
  {
    if |fs| > 0 && NoDuplicates(fs) {
      FilterNoDuplicates(fs[1..], p);
      var rest := Filter(fs[1..], p);
      assert fs[0] !in fs[1..] by {
        forall k | 0 <= k < |fs[1..]| ensures fs[1..][k] != fs[0] {
          assert fs[1..][k] == fs[k + 1];
        }
      }
      assert fs[0] !in rest;
      if p(fs[0]) {
        var r := [fs[0]] + rest;
        forall i, j | 0 <= i < j < |r| ensures r[i] != r[j] {
          assert r[j] == rest[j - 1];
          if i > 0 { assert r[i] == rest[i - 1]; }
        }
      }
    }
  }

  function ToggleFilter(s: ViewState, f: string): ViewState {
    s.(activeFilters := Toggle(s.activeFilters, f))
  }

  function ClearFilters(s: ViewState): (r: ViewState)
    ensures |r.activeFilters| == 0
    ensures r.(activeFilters := s.activeFilters) == s
  {
    s.(activeFilters := [])
  }

  /** Toggling an absent status twice gives back the same list. */
  lemma ToggleTwiceRestores(fs: seq<string>, f: string)
    requires f !in fs
    ensures Toggle(Toggle(fs, f), f) == fs
  {
    FilterAppend(fs, [f], (x: string) => x != f);
    FilterKeepsAll(fs, (x: string) => x != f);
  }

  /** Toggling a present status twice keeps the same statuses but moves it to the end. */
  lemma ToggleTwiceMovesToEnd(fs: seq<string>, f: string)
    requires f in fs
    ensures Toggle(Toggle(fs, f), f) == Filter(fs, (x: string) => x != f) + [f]
  {
  }

  /** `filterNodes`: everything when no filter is active, else the nodes whose status is active. */
  function FilterNodes(filters: seq<string>, nodes: seq<PathwayNode>): seq<PathwayNode> {
    if |filters| == 0 then nodes else Filter(nodes, (n: PathwayNode) => n.status in filters)
  }

  lemma FilterNodesSpec(filters: seq<string>, nodes: seq<PathwayNode>)
    ensures |filters| == 0 ==> FilterNodes(filters, nodes) == nodes
    ensures IsSubsequence(FilterNodes(filters, nodes), nodes)
    ensures |filters| > 0 ==>
              forall n :: multiset(FilterNodes(filters, nodes))[n] == if n.status in filters then multiset(nodes)[n] else 0
  {
    FilterSpec(nodes, (n: PathwayNode) => n.status in filters);
    if |filters| == 0 {
      SubsequenceReflexive(nodes);
    }
  }

  lemma {:induction false} SubsequenceReflexive<T>(xs: seq<T>)
    ensures IsSubsequence(xs, xs)
  {
    if |xs| > 0 {
      SubsequenceReflexive(xs[1..]);
    }
  }

  /** The four rendered columns. */
  function Project(s: ViewState): Buckets
    requires s.pathways.Some?
  {
    var b := s.pathways.value;
    Buckets(FilterNodes(s.activeFilters, b.courses), FilterNodes(s.activeFilters, b.certifications),
            FilterNodes(s.activeFilters, b.majors), FilterNodes(s.activeFilters, b.careers))
  }

  // ---- interest change ----

  /**
   The effect that runs when the interest id changes: clears both selections,
   the filters and the highlighted ids, and leaves `careerSelected` and every
   node flag as they were.
   */
  function InterestChange(s: ViewState): (r: ViewState)
    ensures r.selectedNode.None? && r.selectedCourseNode.None?
    ensures r.activeFilters == [] && r.highlightedNodes == []
    ensures r.careerSelected == s.careerSelected && r.pathways == s.pathways
  {
    s.(selectedNode := None, selectedCourseNode := None, activeFilters := [], highlightedNodes := [])
  }

  /** The new interest's query result replacing the node data. */
  function PathwaysLoaded(s: ViewState, b: Buckets): ViewState {
    s.(pathways := Some(b))
  }

  // ---- the selection flag ----

  /** The grey-out flag is on exactly while a career is selected. */
  predicate Coherent(s: ViewState) {
    s.careerSelected <==> s.selectedNode.Some?
  }

  /** Every click and filter event keeps the flag in step with the selection. */
  lemma EventsPreserveCoherence(s: ViewState, ref: NodeRef, f: string)
    requires Coherent(s)
    ensures ValidRef(s, ref) ==> Coherent(HandleNodeSelect(s, ref))
    ensures Coherent(BackgroundClick(s))
    ensures Coherent(ToggleFilter(s, f)) && Coherent(ClearFilters(s))
    ensures Coherent(InterestChangeCorrected(s))
  {
    if ValidRef(s, ref) && !IsDetailType(NodeAt(s, ref).pathwayType)
       && !(s.selectedNode.Some? && s.selectedNode.value.id == NodeAt(s, ref).id) {
      SelectCareer(s, ref);
    }
  }

  /**
   The interest change as written breaks the flag: from any state with a
   selected career, the selection is dropped while `careerSelected` stays true.
   */
  lemma InterestChangeBreaksCoherence(s: ViewState)
    requires Coherent(s) && s.selectedNode.Some?
    ensures !Coherent(InterestChange(s))
    ensures InterestChange(s).careerSelected
  {
  }

  /** A concrete run: mount, click a career without steps, switch interest. */
  lemma InterestChangeCounterexample()
    ensures var career := PathwayNode(11, 1, "career", "Robotics Technician", "option", None, None);
            var s0 := InitialState(Some(Buckets([], [], [], [career])));
            var s1 := HandleNodeSelect(s0, NodeRef(Careers, 0));
            Coherent(s0) && Coherent(s1) && !Coherent(InterestChange(s1))
  {
    var career := PathwayNode(11, 1, "career", "Robotics Technician", "option", None, None);
    var s0 := InitialState(Some(Buckets([], [], [], [career])));
    SelectCareer(s0, NodeRef(Careers, 0));
  }

  /**
   The interest change with the evidently intended reset: the selection, the
   flag, every node flag, filters and highlights all cleared.
   */
  function InterestChangeCorrected(s: ViewState): (r: ViewState)
    ensures r.selectedNode.None? && !r.careerSelected && r.selectedCourseNode.None?
    ensures r.activeFilters == [] && r.highlightedNodes == []
    ensures s.pathways.Some? ==> r.pathways.Some? && AllInactive(r.pathways.value) && SameNodes(s.pathways.value, r.pathways.value)
  {
    Deselect(s).(selectedCourseNode := None, activeFilters := [])
  }

  /**
   The corrected interest change lands in the state the component mounts in;
   the one as written does so only when no career was flagged.
   */
  lemma InterestChangeVersusMount(s: ViewState)
    ensures InterestChangeCorrected(s) == InitialState(ResetHighlights(s).pathways)
    ensures InterestChange(s) == InitialState(s.pathways).(careerSelected := s.careerSelected)
    ensures InterestChange(s) == InitialState(s.pathways) <==> !s.careerSelected
  {
  }
}
