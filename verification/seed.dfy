/**
 The store's seed data (`initializeData`): one user, one student, five
 career interests, the 42 pathway nodes of the first three interests and
 five progress records. Users, students and progress records are written
 under literal ids; interests and pathway nodes go through the counters in
 list order, which fixes every seeded node's id. Descriptions, schools,
 salaries and skills are display text and are not part of the model.
 */
module Seed {
  import opened Seqs
  import opened JsMap
  import opened Schema
  import opened Storage
  import Visualization
  import Explorer

  // ---- the seeded rows ----

  /** A row of one group: its interest and type come from the group and the column. */
  datatype Seeded = Seeded(title: string, status: string, info: Option<Info>)

  /** `additionalInfo` holding display fields only (schools, salary, growth rate). */
  const DisplayOnly: Option<Info> := Some(Info(None, None))

  function Plain(title: string, status: string): Seeded {
    Seeded(title, status, None)
  }

  function Career(title: string, status: string, steps: seq<Step>, companies: Option<seq<string>>): Seeded {
    Seeded(title, status, Some(Info(Some(steps), companies)))
  }

  const RoboticsCourses: seq<Seeded> := [
    Plain("Introduction to Robotics", "completed"),
    Plain("Engineering Principles", "in-progress"),
    Plain("Advanced Robotics", "available"),
    Plain("AI for Robotics", "available")]

  const RoboticsCertifications: seq<Seeded> := [
    Plain("Robotics Programming Level 1", "eligible"),
    Plain("Arduino Certification", "available"),
    Plain("Robotics Technology Associate", "available")]

  const RoboticsMajors: seq<Seeded> := [
    Seeded("Mechanical Engineering", "recommended", DisplayOnly),
    Seeded("Electrical Engineering", "recommended", DisplayOnly),
    Plain("Computer Science", "option")]

  const RoboticsEngineerSteps: seq<Step> := [
    Step(1, "Intro to Robotics", "completed"),
    Step(2, "Engineering Principles", "in-progress"),
    Step(3, "Robotics Programming Certificate", "required"),
    Step(4, "Mechanical Engineering", "recommended")]

  const RoboticsCareers: seq<Seeded> := [
    Career("Robotics Engineer", "recommended", RoboticsEngineerSteps,
           Some(["Texas Instruments", "NASA Johnson Space Center", "Austin Robotics Institute"])),
    Career("Automation Specialist", "option", [
             Step(1, "Intro to Robotics", "completed"),
             Step(5, "Automation Technician Certification", "required"),
             Step(6, "Industrial Engineering", "recommended")], None),
    Career("AI Robotics Researcher", "option", [
             Step(2, "Engineering Principles", "in-progress"),
             Step(8, "Artificial Intelligence Certificate", "required"),
             Step(9, "Computer Science", "recommended")], None),
    Seeded("Robotics Technician", "option", DisplayOnly)]

  const CulinaryCourses: seq<Seeded> := [
    Plain("Culinary Foundations", "available"),
    Plain("Baking and Pastry Arts", "available"),
    Plain("Texas Regional Cuisine", "available"),
    Plain("Restaurant Management", "available")]

  const CulinaryCertifications: seq<Seeded> := [
    Plain("ServSafe Food Handler", "available"),
    Plain("Certified Culinarian", "available"),
    Plain("Certified Pastry Culinarian", "available")]

  const CulinaryMajors: seq<Seeded> := [
    Seeded("Culinary Arts", "recommended", DisplayOnly),
    Seeded("Food Science & Nutrition", "option", DisplayOnly),
    Seeded("Hospitality Management", "option", DisplayOnly)]

  const CulinaryCareers: seq<Seeded> := [
    Career("Executive Chef", "recommended", [
             Step(5, "Culinary Basics (Grade 9)", "completed"),
             Step(6, "Food Safety & Sanitation", "completed"),
             Step(7, "Advanced Culinary Techniques", "in-progress"),
             Step(17, "ServSafe Food Handler", "required")],
           Some(["Uchi Restaurant Group", "Landry's Inc.", "H-E-B"])),
    Career("Pastry Chef", "option", [
             Step(5, "Culinary Basics (Grade 9)", "completed"),
             Step(6, "Food Safety & Sanitation", "completed"),
             Step(19, "Certified Pastry Culinarian", "required")], None),
    Career("Food Service Manager", "option", [
             Step(5, "Culinary Basics (Grade 9)", "completed"),
             Step(6, "Food Safety & Sanitation", "completed"),
             Step(8, "Restaurant Management", "upcoming"),
             Step(17, "ServSafe Food Handler", "required")], None),
    Seeded("Food Stylist/Photographer", "option", DisplayOnly)]

  const BusinessCourses: seq<Seeded> := [
    Plain("Introduction to Business", "available"),
    Plain("Entrepreneurship Basics", "available"),
    Plain("Marketing Principles", "available"),
    Plain("Financial Literacy", "available")]

  const BusinessCertifications: seq<Seeded> := [
    Plain("Entrepreneurship & Small Business", "available"),
    Plain("Microsoft Office Specialist", "available"),
    Plain("QuickBooks Certified User", "available")]

  const BusinessMajors: seq<Seeded> := [
    Seeded("Business Administration", "recommended", DisplayOnly),
    Seeded("Entrepreneurship", "recommended", DisplayOnly),
    Seeded("Marketing", "option", DisplayOnly)]

  const BusinessCareers: seq<Seeded> := [
    Career("Entrepreneur/Business Owner", "recommended", [
             Step(9, "Intro to Business (Grade 9)", "completed"),
             Step(10, "Marketing Fundamentals", "in-progress"),
             Step(11, "Financial Literacy", "upcoming"),
             Step(30, "Entrepreneurship & Small Business", "required")],
           Some(["Self-employed", "Texas Startups", "Small Business Development Centers"])),
    Career("Marketing Manager", "option", [
             Step(9, "Intro to Business (Grade 9)", "completed"),
             Step(10, "Marketing Fundamentals", "in-progress"),
             Step(31, "Microsoft Office Specialist", "required")], None),
    Career("Business Consultant", "option", [
             Step(9, "Intro to Business (Grade 9)", "completed"),
             Step(11, "Financial Literacy", "upcoming"),
             Step(32, "QuickBooks Certified User", "required")], None),
    Career("Sales Manager", "option", [
             Step(9, "Intro to Business (Grade 9)", "completed"),
             Step(10, "Marketing Fundamentals", "in-progress"),
             Step(31, "Microsoft Office Specialist", "required")], None)]

  /** One column's rows as insert records of the given interest and type. */
  function Rows(interestId: int, pathwayType: string, xs: seq<Seeded>): (r: seq<InsertCareerPathway>)
    ensures |r| == |xs|
    ensures forall i :: 0 <= i < |xs| ==>
              r[i] == InsertCareerPathway(interestId, pathwayType, xs[i].title, xs[i].status, xs[i].info)
  {
    seq(|xs|, i requires 0 <= i < |xs| =>
      InsertCareerPathway(interestId, pathwayType, xs[i].title, xs[i].status, xs[i].info))
  }

  /** `[...courses, ...certifications, ...majors, ...careers]` of one interest. */
  function Group(interestId: int, courses: seq<Seeded>, certifications: seq<Seeded>, majors: seq<Seeded>,
                 careers: seq<Seeded>): seq<InsertCareerPathway>
  {
    Rows(interestId, "course", courses) + Rows(interestId, "certification", certifications)
    + Rows(interestId, "major", majors) + Rows(interestId, "career", careers)
  }

  /** Every row of the three groups, in the order they are added. */
  function SeedPathways(): seq<InsertCareerPathway> {
    Group(1, RoboticsCourses, RoboticsCertifications, RoboticsMajors, RoboticsCareers)
    + Group(2, CulinaryCourses, CulinaryCertifications, CulinaryMajors, CulinaryCareers)
    + Group(3, BusinessCourses, BusinessCertifications, BusinessMajors, BusinessCareers)
  }

  const SeedInterests: seq<InsertCareerInterest> := [
    InsertCareerInterest("Robotics & Engineering", "computer"),
    InsertCareerInterest("Culinary Arts", "restaurant"),
    InsertCareerInterest("Business & Entrepreneurship", "business"),
    InsertCareerInterest("Healthcare Sciences", "medical_services"),
    InsertCareerInterest("Creative Arts & Design", "palette")]

  const SeedUser := User(1, "roberto", "password123")

  const SeedStudent := Student(
    1, "Roberto Garcia", 10, "Austin High School", "2023589", "3.8", 1,
    Some("https://images.unsplash.com/photo-1531427186611-ecfd6d936c79?ixlib=rb-4.0.3&auto=format&fit=crop&w=96&h=96"))

  const RoboticsProgressSteps: seq<Step> := [
    Step(1, "Introduction to Robotics (Grade 9)", "completed"),
    Step(2, "Engineering Principles (Grade 10)", "completed"),
    Step(3, "Advanced Robotics (Upcoming)", "upcoming"),
    Step(4, "Robotics Certification", "required")]

  const CulinaryProgressSteps: seq<Step> := [
    Step(5, "Culinary Basics (Grade 9)", "completed"),
    Step(6, "Food Safety & Sanitation", "completed"),
    Step(7, "Advanced Culinary Techniques", "in-progress"),
    Step(8, "Restaurant Management", "upcoming")]

  const BusinessProgressSteps: seq<Step> := [
    Step(9, "Intro to Business (Grade 9)", "completed"),
    Step(10, "Marketing Fundamentals", "in-progress"),
    Step(11, "Financial Literacy", "upcoming"),
    Step(12, "Business Certification", "required")]

  const HealthcareProgressSteps: seq<Step> := [
    Step(13, "Biology (Grade 9)", "completed"),
    Step(14, "Anatomy & Physiology", "upcoming"),
    Step(15, "Medical Terminology", "required"),
    Step(16, "CPR & First Aid Certification", "required")]

  const ArtProgressSteps: seq<Step> := [
    Step(17, "Introduction to Design", "completed"),
    Step(18, "Digital Art Fundamentals", "upcoming"),
    Step(19, "Portfolio Development", "required"),
    Step(20, "Adobe Creative Suite", "required")]

  /** The five progress records, one per interest, under the literal ids 1 to 5. */
  const SeedProgress: seq<StudentProgress> := [
    StudentProgress(1, 1, 1, 60, RoboticsProgressSteps),
    StudentProgress(2, 1, 2, 45, CulinaryProgressSteps),
    StudentProgress(3, 1, 3, 30, BusinessProgressSteps),
    StudentProgress(4, 1, 4, 15, HealthcareProgressSteps),
    StudentProgress(5, 1, 5, 10, ArtProgressSteps)]

  // ---- the insertion loops ----

  /** The rows as stored from counter `start` on: the i-th row gets id `start + i`. */
  function Numbered(xs: seq<InsertCareerPathway>, start: int): (r: seq<PathwayNode>)
    ensures |r| == |xs|
    ensures forall i :: 0 <= i < |xs| ==> r[i] == PathwayRow(xs[i], start + i)
  {
    seq(|xs|, i requires 0 <= i < |xs| => PathwayRow(xs[i], start + i))
  }

  lemma NumberedAppend(xs: seq<InsertCareerPathway>, ys: seq<InsertCareerPathway>, start: int)
    ensures Numbered(xs + ys, start) == Numbered(xs, start) + Numbered(ys, start + |xs|)
  {
  }

  lemma NumberedCons(xs: seq<InsertCareerPathway>, start: int)
    requires |xs| > 0
    ensures Numbered(xs, start) == [PathwayRow(xs[0], start)] + Numbered(xs[1..], start + 1)
  {
  }

  /** One pass of the pathway loop: store `{ ...pathway, id }` under the counter and bump it. */
  function SeedPathway(s: Store, x: InsertCareerPathway): (r: Store)
    ensures r.currentPathwayId == s.currentPathwayId + 1
    ensures r == s.(careerPathways := r.careerPathways, currentPathwayId := r.currentPathwayId)
    ensures (forall i :: 0 <= i < |s.careerPathways| ==> s.careerPathways[i].key < s.currentPathwayId) ==>
              r.careerPathways == s.careerPathways + [Entry(s.currentPathwayId, PathwayRow(x, s.currentPathwayId))]
  {
    var id := s.currentPathwayId;
    assert (forall i :: 0 <= i < |s.careerPathways| ==> s.careerPathways[i].key < id) ==> id !in Keys(s.careerPathways);
    s.(careerPathways := Set(s.careerPathways, id, PathwayRow(x, id)), currentPathwayId := id + 1)
  }

  /** The `forEach` over the pathway list, in order. */
  function AddPathways(s: Store, xs: seq<InsertCareerPathway>): (r: Store)
    ensures r.currentPathwayId == s.currentPathwayId + |xs|
    ensures r == s.(careerPathways := r.careerPathways, currentPathwayId := r.currentPathwayId)
    decreases |xs|
  {
    if |xs| == 0 then s
    else AddPathways(SeedPathway(s, xs[0]), xs[1..])
  }

  /** On a valid store the loop keeps the invariant. */
  lemma {:induction false} AddPathwaysValid(s: Store, xs: seq<InsertCareerPathway>)
    requires Valid(s)
    ensures Valid(AddPathways(s, xs))
    decreases |xs|
  {
    if |xs| > 0 {
      var id := s.currentPathwayId;
      InsertFresh(s.careerPathways, (y: PathwayNode) => y.id, id, PathwayRow(xs[0], id));
      AddPathwaysValid(SeedPathway(s, xs[0]), xs[1..]);
    }
  }

  lemma SeedPathwayAppends(s: Store, x: InsertCareerPathway)
    requires forall i :: 0 <= i < |s.careerPathways| ==> s.careerPathways[i].key < s.currentPathwayId
    ensures var r := SeedPathway(s, x);
            && Values(r.careerPathways) == Values(s.careerPathways) + [PathwayRow(x, s.currentPathwayId)]
            && forall i :: 0 <= i < |r.careerPathways| ==> r.careerPathways[i].key < r.currentPathwayId
  {
    var e := Entry(s.currentPathwayId, PathwayRow(x, s.currentPathwayId));
    ValuesAppend(s.careerPathways, [e]);
  }

  /** With every key below the counter, the i-th row is appended under the counter plus i. */
  lemma {:induction false} AddPathwaysNumbers(s: Store, xs: seq<InsertCareerPathway>)
    requires forall i :: 0 <= i < |s.careerPathways| ==> s.careerPathways[i].key < s.currentPathwayId
    ensures Values(AddPathways(s, xs).careerPathways) == Values(s.careerPathways) + Numbered(xs, s.currentPathwayId)
    decreases |xs|
  {
    if |xs| > 0 {
      var id := s.currentPathwayId;
      var s' := SeedPathway(s, xs[0]);
      SeedPathwayAppends(s, xs[0]);
      AddPathwaysNumbers(s', xs[1..]);
      assert AddPathways(s, xs) == AddPathways(s', xs[1..]);
      NumberingStep(Values(s.careerPathways), Values(s'.careerPathways),
                    Values(AddPathways(s', xs[1..]).careerPathways), xs, id);
    }
  }

  /** One step of the numbering: the first row, then the rest numbered from the next id. */
  lemma NumberingStep(v: seq<PathwayNode>, v': seq<PathwayNode>, w: seq<PathwayNode>,
                      xs: seq<InsertCareerPathway>, id: int)
    requires |xs| > 0
    requires v' == v + [PathwayRow(xs[0], id)]
    requires w == v' + Numbered(xs[1..], id + 1)
    ensures w == v + Numbered(xs, id)
  {
    AppendAssoc(v, [PathwayRow(xs[0], id)], Numbered(xs[1..], id + 1));
    NumberedCons(xs, id);
  }

  /** The interests as stored from counter `start` on. */
  function NumberedInterests(xs: seq<InsertCareerInterest>, start: int): (r: seq<CareerInterest>)
    ensures |r| == |xs|
    ensures forall i :: 0 <= i < |xs| ==> r[i] == CareerInterest(start + i, xs[i].name, xs[i].icon)
  {
    seq(|xs|, i requires 0 <= i < |xs| => CareerInterest(start + i, xs[i].name, xs[i].icon))
  }

  lemma NumberedInterestsCons(xs: seq<InsertCareerInterest>, start: int)
    requires |xs| > 0
    ensures NumberedInterests(xs, start)
              == [CareerInterest(start, xs[0].name, xs[0].icon)] + NumberedInterests(xs[1..], start + 1)
  {
  }

  /** One pass of the interest loop: store `{ ...interest, id }` under the counter and bump it. */
  function SeedInterest(s: Store, x: InsertCareerInterest): (r: Store)
    ensures r.currentInterestId == s.currentInterestId + 1
    ensures r == s.(careerInterests := r.careerInterests, currentInterestId := r.currentInterestId)
    ensures (forall i :: 0 <= i < |s.careerInterests| ==> s.careerInterests[i].key < s.currentInterestId) ==>
              r.careerInterests == s.careerInterests + [Entry(s.currentInterestId, CareerInterest(s.currentInterestId, x.name, x.icon))]
  {
    var id := s.currentInterestId;
    assert (forall i :: 0 <= i < |s.careerInterests| ==> s.careerInterests[i].key < id) ==> id !in Keys(s.careerInterests);
    s.(careerInterests := Set(s.careerInterests, id, CareerInterest(id, x.name, x.icon)), currentInterestId := id + 1)
  }

  /** The `forEach` over the interest list, in order. */
  function AddInterests(s: Store, xs: seq<InsertCareerInterest>): (r: Store)
    ensures r.currentInterestId == s.currentInterestId + |xs|
    ensures r == s.(careerInterests := r.careerInterests, currentInterestId := r.currentInterestId)
    decreases |xs|
  {
    if |xs| == 0 then s
    else AddInterests(SeedInterest(s, xs[0]), xs[1..])
  }

  /** On a valid store the loop keeps the invariant. */
  lemma {:induction false} AddInterestsValid(s: Store, xs: seq<InsertCareerInterest>)
    requires Valid(s)
    ensures Valid(AddInterests(s, xs))
    decreases |xs|
  {
    if |xs| > 0 {
      var id := s.currentInterestId;
      InsertFresh(s.careerInterests, (y: CareerInterest) => y.id, id, CareerInterest(id, xs[0].name, xs[0].icon));
      AddInterestsValid(SeedInterest(s, xs[0]), xs[1..]);
    }
  }

  lemma SeedInterestAppends(s: Store, x: InsertCareerInterest)
    requires forall i :: 0 <= i < |s.careerInterests| ==> s.careerInterests[i].key < s.currentInterestId
    ensures var r := SeedInterest(s, x);
            && Values(r.careerInterests) == Values(s.careerInterests) + [CareerInterest(s.currentInterestId, x.name, x.icon)]
            && forall i :: 0 <= i < |r.careerInterests| ==> r.careerInterests[i].key < r.currentInterestId
  {
    var e := Entry(s.currentInterestId, CareerInterest(s.currentInterestId, x.name, x.icon));
    ValuesAppend(s.careerInterests, [e]);
  }

  lemma AppendAssoc<T>(a: seq<T>, b: seq<T>, c: seq<T>)
    ensures a + b + c == a + (b + c)
  {
  }

  /** With every key below the counter, the i-th interest is appended under the counter plus i. */
  lemma {:induction false} AddInterestsNumbers(s: Store, xs: seq<InsertCareerInterest>)
    requires forall i :: 0 <= i < |s.careerInterests| ==> s.careerInterests[i].key < s.currentInterestId
    ensures Values(AddInterests(s, xs).careerInterests)
              == Values(s.careerInterests) + NumberedInterests(xs, s.currentInterestId)
    decreases |xs|
  {
    if |xs| > 0 {
      var id := s.currentInterestId;
      var s' := SeedInterest(s, xs[0]);
      SeedInterestAppends(s, xs[0]);
      AddInterestsNumbers(s', xs[1..]);
      assert AddInterests(s, xs) == AddInterests(s', xs[1..]);
      InterestNumberingStep(Values(s.careerInterests), Values(s'.careerInterests),
                            Values(AddInterests(s', xs[1..]).careerInterests), xs, id);
    }
  }

  lemma InterestNumberingStep(v: seq<CareerInterest>, v': seq<CareerInterest>, w: seq<CareerInterest>,
                              xs: seq<InsertCareerInterest>, id: int)
    requires |xs| > 0
    requires v' == v + [CareerInterest(id, xs[0].name, xs[0].icon)]
    requires w == v' + NumberedInterests(xs[1..], id + 1)
    ensures w == v + NumberedInterests(xs, id)
  {
    AppendAssoc(v, [CareerInterest(id, xs[0].name, xs[0].icon)], NumberedInterests(xs[1..], id + 1));
    NumberedInterestsCons(xs, id);
  }

  function ProgressEntry(p: StudentProgress): Entry<string, StudentProgress> {
    Entry(ProgressKey(p.studentId, p.interestId), p)
  }

  /** No two records share a (student, interest) pair. */
  ghost predicate DistinctPairs(ps: seq<StudentProgress>) {
    forall i, j :: 0 <= i < j < |ps| ==>
      ps[i].studentId != ps[j].studentId || ps[i].interestId != ps[j].interestId
  }

  /**
   The five `studentProgress.set(`${studentId}-${interestId}`, record)` calls.
   With fresh, pairwise distinct pairs every call appends.
   */
  function SaveProgress(t: Table<string, StudentProgress>, ps: seq<StudentProgress>): Table<string, StudentProgress>
    decreases |ps|
  {
    if |ps| == 0 then t
    else SaveProgress(Set(t, ProgressEntry(ps[0]).key, ps[0]), ps[1..])
  }

  function ProgressEntries(ps: seq<StudentProgress>): (r: Table<string, StudentProgress>)
    ensures |r| == |ps| && forall i :: 0 <= i < |ps| ==> r[i] == ProgressEntry(ps[i])
  {
    seq(|ps|, i requires 0 <= i < |ps| => ProgressEntry(ps[i]))
  }

  lemma ProgressEntriesCons(ps: seq<StudentProgress>)
    requires |ps| > 0
    ensures ProgressEntries(ps) == [ProgressEntry(ps[0])] + ProgressEntries(ps[1..])
  {
  }

  /** With fresh, pairwise distinct (student, interest) pairs every `set` appends, in order. */
  lemma {:induction false} SaveProgressAppends(t: Table<string, StudentProgress>, ps: seq<StudentProgress>)
    requires DistinctPairs(ps)
    requires forall i :: 0 <= i < |ps| ==> ProgressEntry(ps[i]).key !in Keys(t)
    ensures SaveProgress(t, ps) == t + ProgressEntries(ps)
    decreases |ps|
  {
    if |ps| > 0 {
      var e := ProgressEntry(ps[0]);
      assert Set(t, e.key, ps[0]) == t + [e];
      RestStaysFresh(t, ps);
      SaveProgressAppends(t + [e], ps[1..]);
      ProgressEntriesCons(ps);
      AppendAssoc(t, [e], ProgressEntries(ps[1..]));
    }
  }

  /** After the first `set`, the remaining pairs' keys are still absent. */
  lemma RestStaysFresh(t: Table<string, StudentProgress>, ps: seq<StudentProgress>)
    requires |ps| > 0
    requires DistinctPairs(ps)
    requires forall i :: 0 <= i < |ps| ==> ProgressEntry(ps[i]).key !in Keys(t)
    ensures DistinctPairs(ps[1..])
    ensures forall i :: 0 <= i < |ps| - 1 ==>
              ProgressEntry(ps[1..][i]).key !in Keys(Set(t, ProgressEntry(ps[0]).key, ps[0]))
  {
    var k := ProgressEntry(ps[0]).key;
    var rest := ps[1..];
    SetKeys(t, k, ps[0]);
    forall i | 0 <= i < |rest| ensures ProgressEntry(rest[i]).key !in Keys(Set(t, k, ps[0])) {
      assert rest[i] == ps[i + 1];
      if ProgressEntry(rest[i]).key == k {
        ProgressKeyInjective(rest[i].studentId, rest[i].interestId, ps[0].studentId, ps[0].interestId);
      }
    }
  }

  /**
   `initializeData` with its data as parameters: the user and the student
   under their own ids with their counters bumped, the interests and the
   pathway nodes through the counters in list order, the progress records
   under their (student, interest) keys, and the progress counter set to 6.
   */
  function Seeding(s0: Store, user: User, student: Student, interests: seq<InsertCareerInterest>,
                   pathways: seq<InsertCareerPathway>, progress: seq<StudentProgress>): Store
  {
    var s1 := s0.(users := Set(s0.users, user.id, user), currentUserId := s0.currentUserId + 1);
    var s2 := s1.(students := Set(s1.students, student.id, student), currentStudentId := s1.currentStudentId + 1);
    var s4 := AddPathways(AddInterests(s2, interests), pathways);
    s4.(studentProgress := SaveProgress(s4.studentProgress, progress), currentProgressId := 6)
  }

  /** `initializeData`, run by the constructor on the store `EmptyStore()`. */
  function InitializeData(s0: Store): Store {
    Seeding(s0, SeedUser, SeedStudent, SeedInterests, SeedPathways(), SeedProgress)
  }

  /** The counters after seeding the empty store, and its one user and one student. */
  lemma SeedingCounters(s0: Store, user: User, student: Student, interests: seq<InsertCareerInterest>,
                        pathways: seq<InsertCareerPathway>, progress: seq<StudentProgress>)
    requires s0 == EmptyStore()
    ensures var s := Seeding(s0, user, student, interests, pathways, progress);
            && s.currentUserId == 2 && s.currentStudentId == 2 && s.currentProgressId == 6
            && s.currentInterestId == 1 + |interests| && s.currentPathwayId == 1 + |pathways|
            && Values(s.users) == [user] && Values(s.students) == [student]
  {
  }

  /** Seeding the empty store numbers the interests and the nodes from 1, in list order. */
  lemma SeedingNumbers(s0: Store, user: User, student: Student, interests: seq<InsertCareerInterest>,
                       pathways: seq<InsertCareerPathway>, progress: seq<StudentProgress>)
    requires s0 == EmptyStore()
    ensures var s := Seeding(s0, user, student, interests, pathways, progress);
            && Values(s.careerInterests) == NumberedInterests(interests, 1)
            && Values(s.careerPathways) == Numbered(pathways, 1)
  {
    var s1 := s0.(users := Set(s0.users, user.id, user), currentUserId := s0.currentUserId + 1);
    var s2 := s1.(students := Set(s1.students, student.id, student), currentStudentId := s1.currentStudentId + 1);
    AddInterestsNumbers(s2, interests);
    AddPathwaysNumbers(AddInterests(s2, interests), pathways);
  }

  /** Records of distinct pairs land in the empty progress table one entry each, in order. */
  lemma SeedingProgress(s0: Store, user: User, student: Student, interests: seq<InsertCareerInterest>,
                        pathways: seq<InsertCareerPathway>, progress: seq<StudentProgress>)
    requires s0 == EmptyStore()
    requires DistinctPairs(progress)
    ensures Seeding(s0, user, student, interests, pathways, progress).studentProgress == ProgressEntries(progress)
  {
    SaveProgressAppends([], progress);
  }

  /**
   With a user and a student of id 1 and progress records of distinct pairs
   and ids below 6, the seeded store keeps the store invariant.
   */
  lemma SeedingValid(s0: Store, user: User, student: Student, interests: seq<InsertCareerInterest>,
                     pathways: seq<InsertCareerPathway>, progress: seq<StudentProgress>)
    requires s0 == EmptyStore()
    requires user.id == 1 && student.id == 1
    requires DistinctPairs(progress)
    requires forall i :: 0 <= i < |progress| ==> progress[i].id < 6
    ensures Valid(Seeding(s0, user, student, interests, pathways, progress))
  {
    var s1 := s0.(users := Set(s0.users, user.id, user), currentUserId := s0.currentUserId + 1);
    var s2 := s1.(students := Set(s1.students, student.id, student), currentStudentId := s1.currentStudentId + 1);
    LoopsValid(s2, interests, pathways);
    SeedingProgress(s0, user, student, interests, pathways, progress);
    PairsGiveDistinctKeys(progress);
  }

  /** The two loops run on a store holding one user and one student and nothing else. */
  lemma LoopsValid(s2: Store, interests: seq<InsertCareerInterest>, pathways: seq<InsertCareerPathway>)
    requires |s2.users| == 1 && s2.users[0].key == 1 && s2.users[0].value.id == 1 && s2.currentUserId == 2
    requires |s2.students| == 1 && s2.students[0].key == 1 && s2.students[0].value.id == 1 && s2.currentStudentId == 2
    requires s2.careerInterests == [] && s2.careerPathways == [] && s2.studentProgress == []
    requires s2.currentInterestId == 1 && s2.currentPathwayId == 1
    ensures var s4 := AddPathways(AddInterests(s2, interests), pathways);
            && Valid(s4)
            && s4 == s2.(careerInterests := s4.careerInterests, currentInterestId := s4.currentInterestId,
                         careerPathways := s4.careerPathways, currentPathwayId := s4.currentPathwayId)
  {
    assert Valid(s2);
    AddInterestsValid(s2, interests);
    AddPathwaysValid(AddInterests(s2, interests), pathways);
  }

  /** Distinct (student, interest) pairs give distinct progress keys. */
  lemma PairsGiveDistinctKeys(ps: seq<StudentProgress>)
    requires DistinctPairs(ps)
    ensures DistinctKeys(ProgressEntries(ps))
  {
    var es := ProgressEntries(ps);
    forall i, j | 0 <= i < j < |es| ensures es[i].key != es[j].key {
      ProgressKeysDiffer(ps[i].studentId, ps[i].interestId, ps[j].studentId, ps[j].interestId);
    }
  }

  lemma ProgressKeysDiffer(a: int, b: int, c: int, d: int)
    requires a != c || b != d
    ensures ProgressKey(a, b) != ProgressKey(c, d)
  {
    if ProgressKey(a, b) == ProgressKey(c, d) {
      ProgressKeyInjective(a, b, c, d);
    }
  }

  /** The seeded progress records: student 1, interest i + 1, id i + 1. */
  lemma SeedProgressShape()
    ensures |SeedProgress| == 5
    ensures forall i :: 0 <= i < 5 ==>
              SeedProgress[i].id == i + 1 && SeedProgress[i].studentId == 1 && SeedProgress[i].interestId == i + 1
  {
  }

  lemma SeedProgressAt(i: int)
    requires 0 <= i < 5
    ensures |SeedProgress| == 5 && SeedProgress[i].studentId == 1 && SeedProgress[i].interestId == i + 1
  {
    SeedProgressShape();
  }

  lemma SeedProgressPairs()
    ensures DistinctPairs(SeedProgress)
    ensures forall i :: 0 <= i < |SeedProgress| ==> SeedProgress[i].id < 6
  {
    SeedProgressShape();
  }

  lemma SeedPathwayCount()
    ensures |SeedPathways()| == 42 && |SeedInterests| == 5
  {
  }

  /**
   The constructor's store after `initializeData`: valid, with the counters at
   2, 2, 6, 43 and 6, the one user and one student.
   */
  lemma SeededStore(s0: Store)
    requires s0 == EmptyStore()
    ensures var s := InitializeData(s0);
            && Valid(s)
            && s.currentUserId == 2 && s.currentStudentId == 2 && s.currentInterestId == 6
            && s.currentPathwayId == 43 && s.currentProgressId == 6
            && Values(s.users) == [SeedUser] && Values(s.students) == [SeedStudent]
  {
    SeedProgressPairs();
    SeedPathwayCount();
    SeedingValid(s0, SeedUser, SeedStudent, SeedInterests, SeedPathways(), SeedProgress);
    SeedingCounters(s0, SeedUser, SeedStudent, SeedInterests, SeedPathways(), SeedProgress);
  }

  /** The five interests under ids 1 to 5, in list order. */
  lemma SeededInterests(s0: Store)
    requires s0 == EmptyStore()
    ensures GetAllCareerInterests(InitializeData(s0)) == NumberedInterests(SeedInterests, 1)
  {
    SeedingNumbers(s0, SeedUser, SeedStudent, SeedInterests, SeedPathways(), SeedProgress);
  }

  /** The 42 nodes under ids 1 to 42, in list order. */
  lemma SeededNodes(s0: Store)
    requires s0 == EmptyStore()
    ensures Values(InitializeData(s0).careerPathways) == Numbered(SeedPathways(), 1)
  {
    SeedingNumbers(s0, SeedUser, SeedStudent, SeedInterests, SeedPathways(), SeedProgress);
  }

  /** One progress entry per seeded record, keyed by its (student, interest) pair. */
  lemma SeededProgress(s0: Store)
    requires s0 == EmptyStore()
    ensures InitializeData(s0).studentProgress == ProgressEntries(SeedProgress)
  {
    SeedProgressPairs();
    SeedingProgress(s0, SeedUser, SeedStudent, SeedInterests, SeedPathways(), SeedProgress);
  }

  /** After seeding, each record of distinct pairs is found under its (student, interest) pair. */
  lemma SeedingLookup(s0: Store, user: User, student: Student, interests: seq<InsertCareerInterest>,
                      pathways: seq<InsertCareerPathway>, progress: seq<StudentProgress>, i: int)
    requires s0 == EmptyStore()
    requires DistinctPairs(progress)
    requires 0 <= i < |progress|
    ensures GetStudentProgress(Seeding(s0, user, student, interests, pathways, progress),
                               progress[i].studentId, progress[i].interestId) == Some(progress[i])
  {
    SeedingProgress(s0, user, student, interests, pathways, progress);
    PairsGiveDistinctKeys(progress);
    DistinctGetAt(ProgressEntries(progress), i);
  }

  /** Each seeded progress record is found under its (student, interest) pair. */
  lemma SeededProgressLookup(s0: Store, interestId: int)
    requires s0 == EmptyStore()
    requires 1 <= interestId <= 5
    ensures GetStudentProgress(InitializeData(s0), 1, interestId) == Some(SeedProgress[interestId - 1])
  {
    SeedProgressPairs();
    SeedProgressAt(interestId - 1);
    SeedingLookup(s0, SeedUser, SeedStudent, SeedInterests, SeedPathways(), SeedProgress, interestId - 1);
  }

  // ---- facts about the seeded store ----

  /** Every row of a group carries the group's interest id. */
  lemma GroupInterest(interestId: int, courses: seq<Seeded>, certifications: seq<Seeded>, majors: seq<Seeded>,
                      careers: seq<Seeded>)
    ensures var g := Group(interestId, courses, certifications, majors, careers);
            forall i :: 0 <= i < |g| ==> g[i].interestId == interestId
  {
  }

  /** The seeded rows belong to interests 1, 2 and 3 only. */
  lemma SeedInterestIds()
    ensures forall i :: 0 <= i < |SeedPathways()| ==> 1 <= SeedPathways()[i].interestId <= 3
  {
    GroupInterest(1, RoboticsCourses, RoboticsCertifications, RoboticsMajors, RoboticsCareers);
    GroupInterest(2, CulinaryCourses, CulinaryCertifications, CulinaryMajors, CulinaryCareers);
    GroupInterest(3, BusinessCourses, BusinessCertifications, BusinessMajors, BusinessCareers);
  }

  /** Seeding rows whose interests lie in `lo..hi` gives any interest outside it four empty columns. */
  lemma SeedingOtherInterest(s0: Store, user: User, student: Student, interests: seq<InsertCareerInterest>,
                             pathways: seq<InsertCareerPathway>, progress: seq<StudentProgress>,
                             lo: int, hi: int, interestId: int)
    requires s0 == EmptyStore()
    requires forall i :: 0 <= i < |pathways| ==> lo <= pathways[i].interestId <= hi
    requires interestId < lo || interestId > hi
    ensures GetPathwaysByInterest(Seeding(s0, user, student, interests, pathways, progress), interestId)
              == Buckets([], [], [], [])
  {
    var s := Seeding(s0, user, student, interests, pathways, progress);
    SeedingNumbers(s0, user, student, interests, pathways, progress);
    FilterDropsAll(Values(s.careerPathways), (p: PathwayNode) => p.interestId == interestId);
  }

  /** After seeding, an interest other than 1, 2 and 3 (healthcare, art and design included) has four empty columns. */
  lemma NoPathwaysBeyondThirdInterest(s0: Store, interestId: int)
    requires s0 == EmptyStore()
    requires interestId < 1 || interestId > 3
    ensures GetPathwaysByInterest(InitializeData(s0), interestId) == Buckets([], [], [], [])
  {
    SeedInterestIds();
    SeedingOtherInterest(s0, SeedUser, SeedStudent, SeedInterests, SeedPathways(), SeedProgress, 1, 3, interestId);
  }

  /** A group's four columns as `getPathwaysByInterest` hands them out, numbered from `start`. */
  function GroupBuckets(interestId: int, courses: seq<Seeded>, certifications: seq<Seeded>, majors: seq<Seeded>,
                        careers: seq<Seeded>, start: int): Buckets
  {
    Buckets(
      Numbered(Rows(interestId, "course", courses), start),
      Numbered(Rows(interestId, "certification", certifications), start + |courses|),
      Numbered(Rows(interestId, "major", majors), start + |courses| + |certifications|),
      Numbered(Rows(interestId, "career", careers), start + |courses| + |certifications| + |majors|))
  }

  /** Selecting one column's type from a numbered group gives back that column. */
  lemma GroupSplit(interestId: int, courses: seq<Seeded>, certifications: seq<Seeded>, majors: seq<Seeded>,
                   careers: seq<Seeded>, start: int, c: Column, p: PathwayNode -> bool)
    requires forall n :: p(n) == (n.pathwayType == ColumnType(c))
    ensures Filter(Numbered(Group(interestId, courses, certifications, majors, careers), start), p)
              == Bucket(GroupBuckets(interestId, courses, certifications, majors, careers, start), c)
  {
    var g := GroupBuckets(interestId, courses, certifications, majors, careers, start);
    var all := Numbered(Group(interestId, courses, certifications, majors, careers), start);
    GroupNumbered(interestId, courses, certifications, majors, careers, start);
    GroupTests(interestId, courses, certifications, majors, careers, start, c, p);
    FourParts(g.courses, g.certifications, g.majors, g.careers, p,
              c == Courses, c == Certifications, c == Majors, c == Careers);
    PickColumn(g, c);
  }

  /** Keeping only column `c` of the four columns back to back gives that column. */
  lemma PickColumn(b: Buckets, c: Column)
    ensures (if c == Courses then b.courses else []) + (if c == Certifications then b.certifications else [])
            + (if c == Majors then b.majors else []) + (if c == Careers then b.careers else []) == Bucket(b, c)
  {
    match c
    case Courses => assert b.courses + [] + [] + [] == b.courses;
    case Certifications => assert [] + b.certifications + [] + [] == b.certifications;
    case Majors => assert [] + [] + b.majors + [] == b.majors;
    case Careers => assert [] + [] + [] + b.careers == b.careers;
  }

  /** A test for column `c`'s type holds on all of that column of a numbered group and on nothing else. */
  lemma GroupTests(interestId: int, courses: seq<Seeded>, certifications: seq<Seeded>, majors: seq<Seeded>,
                   careers: seq<Seeded>, start: int, c: Column, p: PathwayNode -> bool)
    requires forall n :: p(n) == (n.pathwayType == ColumnType(c))
    ensures var g := GroupBuckets(interestId, courses, certifications, majors, careers, start);
            && (forall i :: 0 <= i < |g.courses| ==> p(g.courses[i]) == (c == Courses))
            && (forall i :: 0 <= i < |g.certifications| ==> p(g.certifications[i]) == (c == Certifications))
            && (forall i :: 0 <= i < |g.majors| ==> p(g.majors[i]) == (c == Majors))
            && (forall i :: 0 <= i < |g.careers| ==> p(g.careers[i]) == (c == Careers))
  {
    ColumnTest(interestId, Courses, courses, start, c, p);
    ColumnTest(interestId, Certifications, certifications, start + |courses|, c, p);
    ColumnTest(interestId, Majors, majors, start + |courses| + |certifications|, c, p);
    ColumnTest(interestId, Careers, careers, start + |courses| + |certifications| + |majors|, c, p);
  }

  /** A test for column `c`'s type holds on column `d`'s numbered rows exactly when `d` is `c`. */
  lemma ColumnTest(interestId: int, d: Column, xs: seq<Seeded>, start: int, c: Column, p: PathwayNode -> bool)
    requires forall n :: p(n) == (n.pathwayType == ColumnType(c))
    ensures var ns := Numbered(Rows(interestId, ColumnType(d), xs), start);
            forall i :: 0 <= i < |ns| ==> p(ns[i]) == (d == c)
  {
    ColumnTyped(interestId, ColumnType(d), xs, start);
    ColumnTypeInjective(c, d);
  }

  /** The rows of two groups of other interests. */
  lemma OtherGroups(k: int, k2: int, courses2: seq<Seeded>, certifications2: seq<Seeded>, majors2: seq<Seeded>,
                    careers2: seq<Seeded>, k3: int, courses3: seq<Seeded>, certifications3: seq<Seeded>,
                    majors3: seq<Seeded>, careers3: seq<Seeded>)
    requires k != k2 && k != k3
    ensures var rest := Group(k2, courses2, certifications2, majors2, careers2)
                        + Group(k3, courses3, certifications3, majors3, careers3);
            forall i :: 0 <= i < |rest| ==> rest[i].interestId != k
  {
    GroupInterest(k2, courses2, certifications2, majors2, careers2);
    GroupInterest(k3, courses3, certifications3, majors3, careers3);
  }

  /**
   Seeding a first group followed by rows of other interests: the first
   group's interest gets exactly that group's four columns, numbered from 1.
   */
  lemma SeedingFirstGroup(s0: Store, user: User, student: Student, interests: seq<InsertCareerInterest>,
                          k: int, courses: seq<Seeded>, certifications: seq<Seeded>, majors: seq<Seeded>,
                          careers: seq<Seeded>, rest: seq<InsertCareerPathway>, progress: seq<StudentProgress>)
    requires s0 == EmptyStore()
    requires forall i :: 0 <= i < |rest| ==> rest[i].interestId != k
    ensures GetPathwaysByInterest(Seeding(s0, user, student, interests, Group(k, courses, certifications, majors, careers) + rest, progress), k)
              == GroupBuckets(k, courses, certifications, majors, careers, 1)
  {
    var g := Group(k, courses, certifications, majors, careers);
    var s := Seeding(s0, user, student, interests, g + rest, progress);
    SeedingNumbers(s0, user, student, interests, g + rest, progress);
    NumberedAppend(g, rest, 1);
    var ng, nr := Numbered(g, 1), Numbered(rest, 1 + |g|);
    var inK := (p: PathwayNode) => p.interestId == k;
    FilterAppend(ng, nr, inK);
    GroupInterest(k, courses, certifications, majors, careers);
    FilterKeepsAll(ng, inK);
    FilterDropsAll(nr, inK);
    assert Filter(Values(s.careerPathways), inK) == ng;
    GroupColumns(k, courses, certifications, majors, careers);
  }

  /** The four type filters of `getPathwaysByInterest` split a group numbered from 1 into its columns. */
  lemma GroupColumns(k: int, courses: seq<Seeded>, certifications: seq<Seeded>, majors: seq<Seeded>, careers: seq<Seeded>)
    ensures var ng := Numbered(Group(k, courses, certifications, majors, careers), 1);
            Buckets(
              Filter(ng, (p: PathwayNode) => p.pathwayType == "course"),
              Filter(ng, (p: PathwayNode) => p.pathwayType == "certification"),
              Filter(ng, (p: PathwayNode) => p.pathwayType == "major"),
              Filter(ng, (p: PathwayNode) => p.pathwayType == "career"))
            == GroupBuckets(k, courses, certifications, majors, careers, 1)
  {
    GroupSplit(k, courses, certifications, majors, careers, 1, Courses, (p: PathwayNode) => p.pathwayType == "course");
    GroupSplit(k, courses, certifications, majors, careers, 1, Certifications, (p: PathwayNode) => p.pathwayType == "certification");
    GroupSplit(k, courses, certifications, majors, careers, 1, Majors, (p: PathwayNode) => p.pathwayType == "major");
    GroupSplit(k, courses, certifications, majors, careers, 1, Careers, (p: PathwayNode) => p.pathwayType == "career");
  }

  /** The robotics interest's columns after seeding: its 14 nodes under ids 1 to 14, by column. */
  lemma SeededRobotics(s0: Store)
    requires s0 == EmptyStore()
    ensures GetPathwaysByInterest(InitializeData(s0), 1)
              == GroupBuckets(1, RoboticsCourses, RoboticsCertifications, RoboticsMajors, RoboticsCareers, 1)
  {
    var g1 := Group(1, RoboticsCourses, RoboticsCertifications, RoboticsMajors, RoboticsCareers);
    var g2 := Group(2, CulinaryCourses, CulinaryCertifications, CulinaryMajors, CulinaryCareers);
    var g3 := Group(3, BusinessCourses, BusinessCertifications, BusinessMajors, BusinessCareers);
    AppendAssoc(g1, g2, g3);
    OtherGroups(1, 2, CulinaryCourses, CulinaryCertifications, CulinaryMajors, CulinaryCareers,
                3, BusinessCourses, BusinessCertifications, BusinessMajors, BusinessCareers);
    SeedingFirstGroup(s0, SeedUser, SeedStudent, SeedInterests, 1, RoboticsCourses, RoboticsCertifications,
                      RoboticsMajors, RoboticsCareers, g2 + g3, SeedProgress);
  }

  /** The robotics columns as numbered: courses 1 to 4, certifications 5 to 7, majors 8 to 10, careers 11 to 14. */
  lemma RoboticsColumns(b: Buckets)
    requires b == GroupBuckets(1, RoboticsCourses, RoboticsCertifications, RoboticsMajors, RoboticsCareers, 1)
    ensures |b.courses| == 4 && |b.certifications| == 3 && |b.majors| == 3 && |b.careers| == 4
    ensures forall i :: 0 <= i < 4 ==> b.courses[i].id == i + 1
    ensures forall i :: 0 <= i < 3 ==> b.certifications[i].id == i + 5 && RequiredSteps(b.certifications[i]).None?
    ensures forall i :: 0 <= i < 3 ==> b.majors[i].id == i + 8 && RequiredSteps(b.majors[i]).None?
    ensures b.majors[0].title == "Mechanical Engineering"
    ensures forall i :: 0 <= i < 4 ==> b.careers[i].id == i + 11
    ensures b.careers[0].title == "Robotics Engineer" && b.careers[0].pathwayType == "career"
    ensures RequiredSteps(b.careers[0]) == Some(RoboticsEngineerSteps)
  {
  }

  /**
   The first career declares `steps`; every course is one of them by id, and
   no certification or major is one by id or declares steps of its own.
   */
  ghost predicate FirstCareerShape(b: Buckets, steps: seq<Step>) {
    && |b.careers| > 0 && b.careers[0].pathwayType == "career"
    && RequiredSteps(b.careers[0]) == Some(steps)
    && (forall i :: 0 <= i < |b.courses| ==> b.courses[i].id in Visualization.StepIds(steps))
    && (forall i :: 0 <= i < |b.certifications| ==>
          b.certifications[i].id !in Visualization.StepIds(steps) && RequiredSteps(b.certifications[i]).None?)
    && (forall i :: 0 <= i < |b.majors| ==>
          b.majors[i].id !in Visualization.StepIds(steps) && RequiredSteps(b.majors[i]).None?)
  }

  /** Under that shape, selecting the first career marks a position exactly when it is a course or the career itself. */
  lemma FirstCareerMarks(b: Buckets, steps: seq<Step>, c: Column, i: int)
    requires FirstCareerShape(b, steps)
    requires 0 <= i < |Bucket(b, c)|
    ensures var s, ref := Visualization.InitialState(Some(b)), Visualization.NodeRef(Careers, 0);
            && Visualization.ValidRef(s, ref)
            && (Visualization.MarkedBySelection(s, ref, c, i) <==> (c == Courses || (c == Careers && i == 0)))
  {
    var x := Bucket(b, c)[i];
    var ids := Visualization.StepIds(steps);
    match c
    case Courses => assert x.id in ids;
    case Certifications => assert x.id !in ids;
    case Majors => assert x.id !in ids;
    case Careers =>
  }

  /** Under that shape, after the selection a position is active exactly when it is a course or the career itself. */
  lemma FirstCareerActive(b: Buckets, steps: seq<Step>)
    requires FirstCareerShape(b, steps)
    ensures var r := Visualization.HandleNodeSelect(Visualization.InitialState(Some(b)), Visualization.NodeRef(Careers, 0));
            && r.pathways.Some?
            && forall c: Column, i :: 0 <= i < |Bucket(r.pathways.value, c)| ==>
                 (Visualization.ActivePath(Bucket(r.pathways.value, c)[i]) <==> (c == Courses || (c == Careers && i == 0)))
  {
    var s := Visualization.InitialState(Some(b));
    var ref := Visualization.NodeRef(Careers, 0);
    Visualization.SelectCareer(s, ref);
    var rb := Visualization.HandleNodeSelect(s, ref).pathways.value;
    forall c: Column, i | 0 <= i < |Bucket(rb, c)|
      ensures Visualization.ActivePath(Bucket(rb, c)[i]) <==> (c == Courses || (c == Careers && i == 0))
    {
      assert Visualization.SameColumn(Bucket(b, c), Bucket(rb, c));
      FirstCareerMarks(b, steps, c, i);
    }
  }

  /**
   Selecting the first career from the idle state under that shape: the
   courses light up, the certifications and majors stay dark, and among the
   careers only the clicked one is active.
   */
  lemma SelectFirstCareer(b: Buckets, steps: seq<Step>)
    requires FirstCareerShape(b, steps)
    ensures var r := Visualization.HandleNodeSelect(Visualization.InitialState(Some(b)), Visualization.NodeRef(Careers, 0));
            && r.selectedNode == Some(b.careers[0]) && r.careerSelected
            && r.highlightedNodes == Visualization.StepIds(steps)
            && r.pathways.Some? && Visualization.SameNodes(b, r.pathways.value)
            && (forall i :: 0 <= i < |r.pathways.value.courses| ==> Visualization.ActivePath(r.pathways.value.courses[i]))
            && (forall i :: 0 <= i < |r.pathways.value.certifications| ==> !Visualization.ActivePath(r.pathways.value.certifications[i]))
            && (forall i :: 0 <= i < |r.pathways.value.majors| ==> !Visualization.ActivePath(r.pathways.value.majors[i]))
            && (forall i :: 0 <= i < |r.pathways.value.careers| ==> (Visualization.ActivePath(r.pathways.value.careers[i]) <==> i == 0))
  {
    var s := Visualization.InitialState(Some(b));
    var ref := Visualization.NodeRef(Careers, 0);
    Visualization.SelectCareer(s, ref);
    FirstCareerActive(b, steps);
    var rb := Visualization.HandleNodeSelect(s, ref).pathways.value;
    assert rb.courses == Bucket(rb, Courses) && rb.certifications == Bucket(rb, Certifications);
    assert rb.majors == Bucket(rb, Majors) && rb.careers == Bucket(rb, Careers);
  }

  /**
   Clicking "Robotics Engineer" on the freshly loaded robotics columns: its
   step ids 1 to 4 are highlighted and the four courses (ids 1 to 4) light up,
   but no certification and no major does. "Mechanical Engineering" (id 8)
   stays dark although it is the name of the career's fourth step: the title
   test compares each candidate with its own steps, and the majors have none.
   Among the careers only the clicked one is active.
   */
  lemma RoboticsEngineerSelection(b: Buckets)
    requires b == GroupBuckets(1, RoboticsCourses, RoboticsCertifications, RoboticsMajors, RoboticsCareers, 1)
    ensures |b.careers| == 4 && b.careers[0].title == "Robotics Engineer"
    ensures b.majors[0].id == 8 && b.majors[0].title == "Mechanical Engineering"
    ensures var r := Visualization.HandleNodeSelect(Visualization.InitialState(Some(b)), Visualization.NodeRef(Careers, 0));
            && r.selectedNode == Some(b.careers[0]) && r.careerSelected
            && r.highlightedNodes == [1, 2, 3, 4]
            && r.pathways.Some? && Visualization.SameNodes(b, r.pathways.value)
            && (forall i :: 0 <= i < |r.pathways.value.courses| ==> Visualization.ActivePath(r.pathways.value.courses[i]))
            && (forall i :: 0 <= i < |r.pathways.value.certifications| ==> !Visualization.ActivePath(r.pathways.value.certifications[i]))
            && (forall i :: 0 <= i < |r.pathways.value.majors| ==> !Visualization.ActivePath(r.pathways.value.majors[i]))
            && (forall i :: 0 <= i < |r.pathways.value.careers| ==> (Visualization.ActivePath(r.pathways.value.careers[i]) <==> i == 0))
  {
    RoboticsColumns(b);
    var ids := Visualization.StepIds(RoboticsEngineerSteps);
    assert ids == [1, 2, 3, 4];
    SelectFirstCareer(b, RoboticsEngineerSteps);
  }

  /** The picker's labels for the five seeded interests: all but "Culinary Arts" are cut to 14 characters. */
  lemma SeedDisplayNames()
    ensures Explorer.DisplayName(SeedInterests[0].name) == "Robotics & Eng..."
    ensures Explorer.DisplayName(SeedInterests[1].name) == "Culinary Arts"
    ensures Explorer.DisplayName(SeedInterests[2].name) == "Business & Ent..."
    ensures Explorer.DisplayName(SeedInterests[3].name) == "Healthcare Sci..."
    ensures Explorer.DisplayName(SeedInterests[4].name) == "Creative Arts ..."
  {
  }

  /** On the seeded store the page opens on interest 1, whose name is "Robotics & Engineering". */
  lemma SeededInitialInterest(s0: Store)
    requires s0 == EmptyStore()
    ensures Explorer.SelectedInterestName(Some(GetAllCareerInterests(InitializeData(s0))), Explorer.InitialInterestId)
              == "Robotics & Engineering"
  {
    SeededInterests(s0);
    FirstInterestNamed(NumberedInterests(SeedInterests, 1));
  }

  lemma FirstInterestNamed(xs: seq<CareerInterest>)
    requires |xs| > 0 && xs[0].id == 1
    ensures Explorer.SelectedInterestName(Some(xs), 1) == xs[0].name
  {
  }

  /** A numbered group is its numbered columns back to back. */
  lemma GroupNumbered(interestId: int, courses: seq<Seeded>, certifications: seq<Seeded>, majors: seq<Seeded>,
                      careers: seq<Seeded>, start: int)
    ensures var g := GroupBuckets(interestId, courses, certifications, majors, careers, start);
            Numbered(Group(interestId, courses, certifications, majors, careers), start)
              == g.courses + g.certifications + g.majors + g.careers
  {
    var a := Rows(interestId, "course", courses);
    var b := Rows(interestId, "certification", certifications);
    var c := Rows(interestId, "major", majors);
    var d := Rows(interestId, "career", careers);
    NumberedAppend(a, b, start);
    NumberedAppend(a + b, c, start);
    NumberedAppend(a + b + c, d, start);
  }

  lemma ColumnTyped(interestId: int, pathwayType: string, xs: seq<Seeded>, start: int)
    ensures var ns := Numbered(Rows(interestId, pathwayType, xs), start);
            forall i :: 0 <= i < |ns| ==> ns[i].pathwayType == pathwayType && ns[i].interestId == interestId
  {
  }

  /** Filtering four parts back to back, with a test constant on each part, keeps the parts it holds on. */
  lemma FourParts(w: seq<PathwayNode>, x: seq<PathwayNode>, y: seq<PathwayNode>, z: seq<PathwayNode>,
                  p: PathwayNode -> bool, onW: bool, onX: bool, onY: bool, onZ: bool)
    requires forall i :: 0 <= i < |w| ==> p(w[i]) == onW
    requires forall i :: 0 <= i < |x| ==> p(x[i]) == onX
    requires forall i :: 0 <= i < |y| ==> p(y[i]) == onY
    requires forall i :: 0 <= i < |z| ==> p(z[i]) == onZ
    ensures Filter(w + x + y + z, p)
              == (if onW then w else []) + (if onX then x else []) + (if onY then y else []) + (if onZ then z else [])
  {
    FilterAppend(w + x + y, z, p);
    FilterAppend(w + x, y, p);
    FilterAppend(w, x, p);
    Uniform(w, p, onW);
    Uniform(x, p, onX);
    Uniform(y, p, onY);
    Uniform(z, p, onZ);
  }

  lemma Uniform(xs: seq<PathwayNode>, p: PathwayNode -> bool, b: bool)
    requires forall i :: 0 <= i < |xs| ==> p(xs[i]) == b
    ensures Filter(xs, p) == if b then xs else []
  {
    if b { FilterKeepsAll(xs, p); } else { FilterDropsAll(xs, p); }
  }
}
