/**
 The records of the dashboard: the server's table rows (users, students,
 career interests, career pathway nodes, student progress) and the client's
 view of a pathway node, which is the same row plus the transient
 `isActivePath` flag. Free-text fields that no logic reads (descriptions,
 schools, salary, growth rate, skills) are not part of the model.
 */
module Schema {
  import opened Seqs

  /** A progress item; also the shape of a career's required step. */
  datatype Step = Step(id: int, name: string, status: string)

  /** The parts of a node's `additionalInfo` that logic reads; companies by name. */
  datatype Info = Info(requiredSteps: Option<seq<Step>>, companies: Option<seq<string>>)

  /**
   A course, certification, major or career. `pathwayType` and `status` are
   free strings, as in the table; `isActivePath` is absent (None) on rows that
   the visualization has not touched yet.
   */
  datatype PathwayNode = PathwayNode(
    id: int,
    interestId: int,
    pathwayType: string,
    title: string,
    status: string,
    info: Option<Info>,
    isActivePath: Option<bool>)

  /** `node.additionalInfo?.requiredSteps` */
  function RequiredSteps(n: PathwayNode): Option<seq<Step>> {
    if n.info.Some? then n.info.value.requiredSteps else None
  }

  /** The four columns of the pathway graph, as the server hands them out. */
  datatype Buckets = Buckets(
    courses: seq<PathwayNode>,
    certifications: seq<PathwayNode>,
    majors: seq<PathwayNode>,
    careers: seq<PathwayNode>)

  datatype Column = Courses | Certifications | Majors | Careers

  function Bucket(b: Buckets, c: Column): seq<PathwayNode> {
    match c
    case Courses => b.courses
    case Certifications => b.certifications
    case Majors => b.majors
    case Careers => b.careers
  }

  /** The `pathwayType` string that selects each column. */
  function ColumnType(c: Column): string {
    match c
    case Courses => "course"
    case Certifications => "certification"
    case Majors => "major"
    case Careers => "career"
  }

  /** The four type strings differ. */
  lemma ColumnTypeInjective(c: Column, d: Column)
    ensures ColumnType(c) == ColumnType(d) <==> c == d
  {
  }

  datatype User = User(id: int, username: string, password: string)

  datatype InsertUser = InsertUser(username: string, password: string)

  /** `studentNumber` is the school's student id string (the row's `studentId` column). */
  datatype Student = Student(
    id: int, name: string, grade: int, school: string, studentNumber: string,
    gpa: string, userId: int, imageUrl: Option<string>)

  datatype InsertStudent = InsertStudent(
    name: string, grade: int, school: string, studentNumber: string,
    gpa: string, userId: int, imageUrl: Option<string>)

  datatype CareerInterest = CareerInterest(id: int, name: string, icon: string)

  datatype InsertCareerInterest = InsertCareerInterest(name: string, icon: string)

  datatype InsertCareerPathway = InsertCareerPathway(
    interestId: int, pathwayType: string, title: string, status: string, info: Option<Info>)

  datatype StudentProgress = StudentProgress(
    id: int, studentId: int, interestId: int, percentage: int, completedSteps: seq<Step>)

  datatype InsertStudentProgress = InsertStudentProgress(
    studentId: int, interestId: int, percentage: int, completedSteps: seq<Step>)
}
