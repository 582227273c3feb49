/**
 The detail modal opened by a course, certification or major card: which
 class record (if any) a course shows, and the status- and title-driven
 texts of the certification, major and fallback panels.
 */
module DetailModal {
  import opened Seqs
  import opened Text
  import opened Schema

  datatype Assignment = Assignment(name: string, grade: string, score: string)

  /** A class record; schedule, description, achievements and skills are display text and left out. */
  datatype CourseData = CourseData(
    teacher: string, roomNumber: string, grade: string, progress: nat, assignments: seq<Assignment>)

  const IntroToRobotics := CourseData("Mr. Rodriguez", "203B", "A", 100, [
    Assignment("Robot Design Project", "A", "95/100"),
    Assignment("Programming Basics Quiz", "A-", "89/100"),
    Assignment("Final Presentation", "A+", "98/100"),
    Assignment("Final Robot Competition", "A", "94/100")])

  const EngineeringPrinciples := CourseData("Ms. Johnson", "115A", "B+", 75, [
    Assignment("Material Strength Analysis", "B+", "88/100"),
    Assignment("Engineering Ethics Essay", "A-", "92/100"),
    Assignment("Midterm Exam", "B", "85/100")])

  /**
   The `courseData` choice: only a course can have class data; a completed
   course titled exactly "Introduction to Robotics" gets that record, an
   in-progress course whose title contains "Engineering Principles" gets the
   engineering record, and nothing else gets any.
   */
  function CourseDataFor(n: PathwayNode): (r: Option<CourseData>)
    ensures r.Some? ==> n.pathwayType == "course"
    ensures r == Some(IntroToRobotics) <==>
              n.pathwayType == "course" && n.status == "completed" && n.title == "Introduction to Robotics"
    ensures r == Some(EngineeringPrinciples) <==>
              n.pathwayType == "course" && n.status == "in-progress" && Contains(n.title, "Engineering Principles")
    ensures r.Some? ==> r.value == IntroToRobotics || r.value == EngineeringPrinciples
  {
    if n.pathwayType == "course" then
      if n.status == "completed" && n.title == "Introduction to Robotics" then Some(IntroToRobotics)
      else if n.status == "in-progress" && Contains(n.title, "Engineering Principles") then Some(EngineeringPrinciples)
      else None
    else if n.pathwayType == "certification" then None
    else if n.pathwayType == "major" then None
    else None
  }

  /** The colour of an assignment's grade badge. */
  datatype GradeTone = GreenGrade | BlueGrade | AmberGrade

  function GradeBadge(grade: string): (r: GradeTone)
    ensures r == GreenGrade <==> |grade| > 0 && grade[0] == 'A'
    ensures r == BlueGrade <==> |grade| > 0 && grade[0] == 'B'
    ensures r == AmberGrade <==> |grade| == 0 || (grade[0] != 'A' && grade[0] != 'B')
  {
    if StartsWith(grade, "A") then GreenGrade
    else if StartsWith(grade, "B") then BlueGrade
    else AmberGrade
  }

  /** The robotics record's grades are all green; the engineering record's are blue, green, blue. */
  lemma RecordGradeBadges()
    ensures forall a :: a in IntroToRobotics.assignments ==> GradeBadge(a.grade) == GreenGrade
    ensures GradeBadge(EngineeringPrinciples.assignments[0].grade) == BlueGrade
    ensures GradeBadge(EngineeringPrinciples.assignments[1].grade) == GreenGrade
    ensures GradeBadge(EngineeringPrinciples.assignments[2].grade) == BlueGrade
  {
  }

  /** The heading over the assignment list. */
  function AssignmentsHeading(status: string): string {
    if status == "completed" then "Completed Assignments" else "Recent Assignments"
  }

  /** The green completion banner shows for a course with class data whose status is completed. */
  predicate CompletedBanner(n: PathwayNode) {
    CourseDataFor(n).Some? && n.status == "completed"
  }

  /**
   A record fixes the status, so the robotics record is always listed as
   completed work under a completion banner and the engineering record as
   recent work without one.
   */
  lemma RecordPresentation(n: PathwayNode)
    ensures CourseDataFor(n) == Some(IntroToRobotics) ==>
              AssignmentsHeading(n.status) == "Completed Assignments" && CompletedBanner(n)
    ensures CourseDataFor(n) == Some(EngineeringPrinciples) ==>
              AssignmentsHeading(n.status) == "Recent Assignments" && !CompletedBanner(n)
    ensures CompletedBanner(n) <==> CourseDataFor(n) == Some(IntroToRobotics)
  {
  }

  /** Certification texts, chosen by status. */
  function CertificationHeading(status: string): (r: string)
    ensures r == "Certification Eligibility" <==> status == "eligible"
    ensures r == "Available Certification" <==> status == "available"
    ensures r == "Completed Certification" <==> status == "completed"
    ensures r == "Certification Information" <==> status != "eligible" && status != "available" && status != "completed"
  {
    if status == "eligible" then "Certification Eligibility"
    else if status == "available" then "Available Certification"
    else if status == "completed" then "Completed Certification"
    else "Certification Information"
  }

  datatype CertificationAction = SpeakWithCounselor | ValidForThreeYears | CompletePrerequisites

  /**
   The line under the heading: the counselor line for an open certification,
   the three-year line for a completed one, the prerequisites line otherwise.
   */
  function CertificationActionFor(status: string): (r: CertificationAction)
    ensures r == SpeakWithCounselor <==> status == "eligible" || status == "available"
    ensures r == ValidForThreeYears <==> status == "completed"
    ensures r == CompletePrerequisites <==> status != "eligible" && status != "available" && status != "completed"
  {
    if status == "eligible" || status == "available" then SpeakWithCounselor
    else if status == "completed" then ValidForThreeYears
    else CompletePrerequisites
  }

  /** The action line agrees with the heading: the counselor line goes with the two open headings, and so on. */
  lemma CertificationTextsAgree(status: string)
    ensures CertificationActionFor(status) == SpeakWithCounselor <==>
              CertificationHeading(status) in {"Certification Eligibility", "Available Certification"}
    ensures CertificationActionFor(status) == ValidForThreeYears <==>
              CertificationHeading(status) == "Completed Certification"
    ensures CertificationActionFor(status) == CompletePrerequisites <==>
              CertificationHeading(status) == "Certification Information"
  {
  }

  datatype CertificationTopic = RoboticsProgrammingTopic | ArduinoTopic | GenericTopic

  /** The certification details paragraph, chosen by title; "Robotics Programming" is tested first. */
  function CertificationTopicOf(title: string): (r: CertificationTopic)
    ensures Contains(title, "Robotics Programming") ==> r == RoboticsProgrammingTopic
    ensures r == ArduinoTopic <==> !Contains(title, "Robotics Programming") && Contains(title, "Arduino")
    ensures r == GenericTopic <==> !Contains(title, "Robotics Programming") && !Contains(title, "Arduino")
  {
    if Contains(title, "Robotics Programming") then RoboticsProgrammingTopic
    else if Contains(title, "Arduino") then ArduinoTopic
    else GenericTopic
  }

  datatype MajorTrack = MechanicalTrack | ElectricalTrack

  /** The major panel describes a mechanical programme when the title mentions it, else an electrical one. */
  function MajorTrackOf(title: string): (r: MajorTrack)
    ensures r == MechanicalTrack <==> Contains(title, "Mechanical")
  {
    if Contains(title, "Mechanical") then MechanicalTrack else ElectricalTrack
  }

  function StartingSalary(t: MajorTrack): string {
    match t
    case MechanicalTrack => "Average Starting Salary: $72,000"
    case ElectricalTrack => "Average Starting Salary: $78,000"
  }

  /** The fallback panel's sentence: the enrolment line for an open course, the not-available line otherwise. */
  function CourseInfoMessage(status: string): (r: string)
    ensures r == "You can enroll in this course in the upcoming semester." <==> status == "available" || status == "eligible"
    ensures r == "Detailed course information not available." <==> status != "available" && status != "eligible"
  {
    if status == "available" || status == "eligible" then "You can enroll in this course in the upcoming semester."
    else "Detailed course information not available."
  }

  /** What the modal's body shows. */
  datatype Panel =
    | ClassPanel(data: CourseData)
    | CertificationPanel(heading: string, action: CertificationAction, topic: CertificationTopic)
    | MajorPanel(track: MajorTrack)
    | CourseInfoPanel(message: string)

  /**
   The modal's body: the node's class record if it has one, else the
   certification texts for its status and title, the major's track, or the
   fallback sentence for its status.
   */
  function ModalPanel(n: PathwayNode): (r: Panel)
    ensures r.ClassPanel? <==> CourseDataFor(n).Some?
    ensures r.CertificationPanel? <==> n.pathwayType == "certification"
    ensures r.MajorPanel? <==> n.pathwayType == "major"
    ensures r.CourseInfoPanel? <==> CourseDataFor(n).None? && n.pathwayType != "certification" && n.pathwayType != "major"
    ensures r.ClassPanel? ==> CourseDataFor(n) == Some(r.data)
    ensures r.CertificationPanel? ==>
              && r.heading == CertificationHeading(n.status)
              && r.action == CertificationActionFor(n.status)
              && r.topic == CertificationTopicOf(n.title)
    ensures r.MajorPanel? ==> (r.track == MechanicalTrack <==> Contains(n.title, "Mechanical"))
    ensures r.CourseInfoPanel? ==>
              (r.message == "You can enroll in this course in the upcoming semester." <==>
                 n.status == "available" || n.status == "eligible")
  {
    match CourseDataFor(n)
    case Some(d) => ClassPanel(d)
    case None =>
      if n.pathwayType == "certification" then
        CertificationPanel(CertificationHeading(n.status), CertificationActionFor(n.status), CertificationTopicOf(n.title))
      else if n.pathwayType == "major" then MajorPanel(MajorTrackOf(n.title))
      else CourseInfoPanel(CourseInfoMessage(n.status))
  }

  /**
   The seeded robotics courses: only the first two carry class data, and a
   completed "Engineering Principles" course would get none.
   */
  lemma SeededCoursePanels()
    ensures ModalPanel(PathwayNode(1, 1, "course", "Introduction to Robotics", "completed", None, None)) == ClassPanel(IntroToRobotics)
    ensures ModalPanel(PathwayNode(2, 1, "course", "Engineering Principles", "in-progress", None, None)) == ClassPanel(EngineeringPrinciples)
    ensures ModalPanel(PathwayNode(3, 1, "course", "Advanced Robotics", "available", None, None)) ==
              CourseInfoPanel("You can enroll in this course in the upcoming semester.")
    ensures ModalPanel(PathwayNode(2, 1, "course", "Engineering Principles", "completed", None, None)) ==
              CourseInfoPanel("Detailed course information not available.")
  {
    StartsWithContains("Engineering Principles", "Engineering Principles");
  }
}
