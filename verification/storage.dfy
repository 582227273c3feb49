/**
 The server's in-memory store (`MemStorage`): five JavaScript maps and five
 auto-increment counters. Every operation is a pure function from the store
 to the new store and the record it returns.
 */
module Storage {
  import opened Seqs
  import opened Text
  import opened JsMap
  import opened Schema

  datatype Store = Store(
    users: Table<int, User>,
    students: Table<int, Student>,
    careerInterests: Table<int, CareerInterest>,
    careerPathways: Table<int, PathwayNode>,
    studentProgress: Table<string, StudentProgress>,
    currentUserId: int,
    currentStudentId: int,
    currentInterestId: int,
    currentPathwayId: int,
    currentProgressId: int)

  /** What a `create…` call leaves behind: the new store and the record it returned. */
  datatype Created<T> = Created(store: Store, record: T)

  /** The freshly constructed store before seeding: empty maps, every counter at 1. */
  function EmptyStore(): Store {
    Store([], [], [], [], [], 1, 1, 1, 1, 1)
  }

  /** The progress map key `${studentId}-${interestId}`. */
  function ProgressKey(studentId: int, interestId: int): string {
    IntToString(studentId) + "-" + IntToString(interestId)
  }

  /** Distinct (student, interest) pairs never share a progress key. */
  lemma ProgressKeyInjective(a: int, b: int, c: int, d: int)
    requires ProgressKey(a, b) == ProgressKey(c, d)
    ensures a == c && b == d
  {
    var A, B, C, D := IntToString(a), IntToString(b), IntToString(c), IntToString(d);
    var k := ProgressKey(a, b);
    assert k == A + "-" + B;
    assert k == C + "-" + D;
    // The separator is the first '-' after the first character, so both renderings end at it.
    assert k[|A|] == '-' && k[|C|] == '-';
    assert forall j :: 1 <= j < |C| ==> k[j] == C[j] && IsDigit(k[j]);
    assert forall j :: 1 <= j < |A| ==> k[j] == A[j] && IsDigit(k[j]);
    assert |A| == |C|;
    assert A == k[..|A|] == C;
    assert B == k[|A| + 1..] == D;
    IntToStringInjective(a, c);
    IntToStringInjective(b, d);
  }

  /** Every stored id map is keyed by the record's own id, below its counter. */
  ghost predicate IdTable<V>(t: Table<int, V>, id: V -> int, counter: int) {
    && DistinctKeys(t)
    && forall i :: 0 <= i < |t| ==> t[i].key == id(t[i].value) && t[i].key < counter
  }

  /** The store invariant: fresh ids stay fresh, and every record sits under its own key. */
  ghost predicate Valid(s: Store) {
    && IdTable(s.users, (u: User) => u.id, s.currentUserId)
    && IdTable(s.students, (x: Student) => x.id, s.currentStudentId)
    && IdTable(s.careerInterests, (x: CareerInterest) => x.id, s.currentInterestId)
    && IdTable(s.careerPathways, (x: PathwayNode) => x.id, s.currentPathwayId)
    && ProgressRows(s.studentProgress, s.currentProgressId)
  }

  /** One record per key, each filed under its own pair's key with an id below the counter. */
  ghost predicate ProgressRows(t: Table<string, StudentProgress>, counter: int) {
    && DistinctKeys(t)
    && forall i :: 0 <= i < |t| ==>
         && t[i].key == ProgressKey(t[i].value.studentId, t[i].value.interestId)
         && t[i].value.id < counter
  }

  /** Inserting under the counter keeps an id table valid and just appends. */
  lemma InsertFresh<V>(t: Table<int, V>, id: V -> int, counter: int, v: V)
    ensures IdTable(t, id, counter) && id(v) == counter ==>
              && Set(t, counter, v) == t + [Entry(counter, v)]
              && IdTable(Set(t, counter, v), id, counter + 1)
  {
    SetKeys(t, counter, v);
  }

  // ---- users ----

  function GetUser(s: Store, id: int): Option<User> {
    Get(s.users, id)
  }

  /** The first user, in insertion order, whose username is exactly `username`. */
  function GetUserByUsername(s: Store, username: string): (r: Option<User>)
    ensures r.None? <==> forall i :: 0 <= i < |s.users| ==> s.users[i].value.username != username
    ensures r.Some? ==> exists i :: 0 <= i < |s.users| && s.users[i].value == r.value
                          && r.value.username == username
                          && forall j :: 0 <= j < i ==> s.users[j].value.username != username
  {
    Find(Values(s.users), (u: User) => u.username == username)
  }

  function CreateUser(s: Store, u: InsertUser): (r: Created<User>)
    ensures r.record == User(s.currentUserId, u.username, u.password)
    ensures r.store.currentUserId == s.currentUserId + 1
    ensures GetUser(r.store, r.record.id) == Some(r.record)
    ensures forall id :: id != r.record.id ==> GetUser(r.store, id) == GetUser(s, id)
    ensures r.store == s.(users := r.store.users, currentUserId := r.store.currentUserId)
    ensures Valid(s) ==> Valid(r.store) && r.store.users == s.users + [Entry(r.record.id, r.record)]
  {
    var id := s.currentUserId;
    var user := User(id, u.username, u.password);
    InsertFresh(s.users, (x: User) => x.id, id, user);
    SetGet(s.users, id, user);
    Created(s.(users := Set(s.users, id, user), currentUserId := id + 1), user)
  }

  // ---- students ----

  function GetStudent(s: Store, id: int): Option<Student> {
    Get(s.students, id)
  }

  /** The first student, in insertion order, linked to `userId`. */
  function GetStudentByUserId(s: Store, userId: int): (r: Option<Student>)
    ensures r.None? <==> forall i :: 0 <= i < |s.students| ==> s.students[i].value.userId != userId
    ensures r.Some? ==> exists i :: 0 <= i < |s.students| && s.students[i].value == r.value
                          && r.value.userId == userId
                          && forall j :: 0 <= j < i ==> s.students[j].value.userId != userId
  {
    Find(Values(s.students), (x: Student) => x.userId == userId)
  }

  function CreateStudent(s: Store, x: InsertStudent): (r: Created<Student>)
    ensures r.record == Student(s.currentStudentId, x.name, x.grade, x.school, x.studentNumber, x.gpa, x.userId, x.imageUrl)
    ensures r.store.currentStudentId == s.currentStudentId + 1
    ensures GetStudent(r.store, r.record.id) == Some(r.record)
    ensures forall id :: id != r.record.id ==> GetStudent(r.store, id) == GetStudent(s, id)
    ensures r.store == s.(students := r.store.students, currentStudentId := r.store.currentStudentId)
    ensures Valid(s) ==> Valid(r.store) && r.store.students == s.students + [Entry(r.record.id, r.record)]
  {
    var id := s.currentStudentId;
    var student := Student(id, x.name, x.grade, x.school, x.studentNumber, x.gpa, x.userId, x.imageUrl);
    InsertFresh(s.students, (y: Student) => y.id, id, student);
    SetGet(s.students, id, student);
    Created(s.(students := Set(s.students, id, student), currentStudentId := id + 1), student)
  }

  // ---- career interests ----

  /** `Array.from(careerInterests.values())`: every interest, in insertion order. */
  function GetAllCareerInterests(s: Store): seq<CareerInterest> {
    Values(s.careerInterests)
  }

  function GetCareerInterest(s: Store, id: int): Option<CareerInterest> {
    Get(s.careerInterests, id)
  }

  function CreateCareerInterest(s: Store, x: InsertCareerInterest): (r: Created<CareerInterest>)
    ensures r.record == CareerInterest(s.currentInterestId, x.name, x.icon)
    ensures r.store.currentInterestId == s.currentInterestId + 1
    ensures GetCareerInterest(r.store, r.record.id) == Some(r.record)
    ensures forall id :: id != r.record.id ==> GetCareerInterest(r.store, id) == GetCareerInterest(s, id)
    ensures r.store == s.(careerInterests := r.store.careerInterests, currentInterestId := r.store.currentInterestId)
    ensures Valid(s) ==> Valid(r.store) && r.store.careerInterests == s.careerInterests + [Entry(r.record.id, r.record)]
  {
    var id := s.currentInterestId;
    var interest := CareerInterest(id, x.name, x.icon);
    InsertFresh(s.careerInterests, (y: CareerInterest) => y.id, id, interest);
    SetGet(s.careerInterests, id, interest);
    Created(s.(careerInterests := Set(s.careerInterests, id, interest), currentInterestId := id + 1), interest)
  }

  // ---- career pathways ----

  /** The row `{ ...pathway, id }`; a stored row carries no `isActivePath`. */
  function PathwayRow(x: InsertCareerPathway, id: int): PathwayNode {
    PathwayNode(id, x.interestId, x.pathwayType, x.title, x.status, x.info, None)
  }

  /** The nodes of one interest split by `pathwayType`, each list in insertion order. */
  function GetPathwaysByInterest(s: Store, interestId: int): Buckets {
    var pathways := Filter(Values(s.careerPathways), (p: PathwayNode) => p.interestId == interestId);
    Buckets(
      Filter(pathways, (p: PathwayNode) => p.pathwayType == "course"),
      Filter(pathways, (p: PathwayNode) => p.pathwayType == "certification"),
      Filter(pathways, (p: PathwayNode) => p.pathwayType == "major"),
      Filter(pathways, (p: PathwayNode) => p.pathwayType == "career"))
  }

  /**
   Each column is the order-preserving selection of exactly the stored nodes
   of that interest and that column's type string, each as often as stored.
   */
  lemma GetPathwaysByInterestSpec(s: Store, interestId: int, c: Column)
    ensures IsSubsequence(Bucket(GetPathwaysByInterest(s, interestId), c), Values(s.careerPathways))
    ensures forall n :: multiset(Bucket(GetPathwaysByInterest(s, interestId), c))[n]
                        == if n.interestId == interestId && n.pathwayType == ColumnType(c)
                           then multiset(Values(s.careerPathways))[n] else 0
  {
    var all := Values(s.careerPathways);
    var p := (p: PathwayNode) => p.interestId == interestId;
    var b := GetPathwaysByInterest(s, interestId);
    var t := ColumnType(c);
    match c
    case Courses =>
      SelectionSpec(all, p, (p: PathwayNode) => p.pathwayType == "course", interestId, t, b.courses);
    case Certifications =>
      SelectionSpec(all, p, (p: PathwayNode) => p.pathwayType == "certification", interestId, t, b.certifications);
    case Majors =>
      SelectionSpec(all, p, (p: PathwayNode) => p.pathwayType == "major", interestId, t, b.majors);
    case Careers =>
      SelectionSpec(all, p, (p: PathwayNode) => p.pathwayType == "career", interestId, t, b.careers);
  }

  /** Two filters that test the interest id and the type string select by both. */
  lemma SelectionSpec(all: seq<PathwayNode>, p: PathwayNode -> bool, q: PathwayNode -> bool,
                      interestId: int, t: string, r: seq<PathwayNode>)
    requires r == Filter(Filter(all, p), q)
    requires forall n :: p(n) == (n.interestId == interestId)
    requires forall n :: q(n) == (n.pathwayType == t)
    ensures IsSubsequence(r, all)
    ensures forall n :: multiset(r)[n] == if n.interestId == interestId && n.pathwayType == t then multiset(all)[n] else 0
  {
    FilterFilterSpec(all, p, q);
  }

  /** A node whose type is none of the four strings is in no column. */
  lemma UnknownTypeDropped(s: Store, interestId: int, n: PathwayNode)
    requires n.pathwayType !in {"course", "certification", "major", "career"}
    ensures forall c: Column :: n !in Bucket(GetPathwaysByInterest(s, interestId), c)
  {
    forall c: Column ensures n !in Bucket(GetPathwaysByInterest(s, interestId), c) {
      GetPathwaysByInterestSpec(s, interestId, c);
      assert multiset(Bucket(GetPathwaysByInterest(s, interestId), c))[n] == 0;
    }
  }

  function GetCareerPathway(s: Store, id: int): Option<PathwayNode> {
    Get(s.careerPathways, id)
  }

  function CreateCareerPathway(s: Store, x: InsertCareerPathway): (r: Created<PathwayNode>)
    ensures r.record == PathwayRow(x, s.currentPathwayId) && r.record.id == s.currentPathwayId
    ensures r.store.currentPathwayId == s.currentPathwayId + 1
    ensures GetCareerPathway(r.store, r.record.id) == Some(r.record)
    ensures forall id :: id != r.record.id ==> GetCareerPathway(r.store, id) == GetCareerPathway(s, id)
    ensures r.store == s.(careerPathways := r.store.careerPathways, currentPathwayId := r.store.currentPathwayId)
    ensures Valid(s) ==> Valid(r.store) && r.store.careerPathways == s.careerPathways + [Entry(r.record.id, r.record)]
  {
    var id := s.currentPathwayId;
    var row := PathwayRow(x, id);
    InsertFresh(s.careerPathways, (y: PathwayNode) => y.id, id, row);
    SetGet(s.careerPathways, id, row);
    Created(s.(careerPathways := Set(s.careerPathways, id, row), currentPathwayId := id + 1), row)
  }

  // ---- student progress ----

  function GetStudentProgress(s: Store, studentId: int, interestId: int): Option<StudentProgress> {
    Get(s.studentProgress, ProgressKey(studentId, interestId))
  }

  /**
   Upsert keyed by (studentId, interestId): an existing record keeps its id,
   student and interest and takes the new percentage and steps; otherwise a
   record is inserted under the progress counter.
   */
  function CreateOrUpdateStudentProgress(s: Store, p: InsertStudentProgress): (r: Created<StudentProgress>)
    ensures GetStudentProgress(r.store, p.studentId, p.interestId) == Some(r.record)
    ensures r.record.percentage == p.percentage && r.record.completedSteps == p.completedSteps
    ensures match GetStudentProgress(s, p.studentId, p.interestId)
            case Some(e) =>
              && r.record == e.(percentage := p.percentage, completedSteps := p.completedSteps)
              && r.store.currentProgressId == s.currentProgressId
            case None =>
              && r.record == StudentProgress(s.currentProgressId, p.studentId, p.interestId, p.percentage, p.completedSteps)
              && r.store.currentProgressId == s.currentProgressId + 1
    ensures forall k :: k != ProgressKey(p.studentId, p.interestId) ==> Get(r.store.studentProgress, k) == Get(s.studentProgress, k)
    ensures r.store == s.(studentProgress := r.store.studentProgress, currentProgressId := r.store.currentProgressId)
  {
    var key := ProgressKey(p.studentId, p.interestId);
    match Get(s.studentProgress, key)
    case Some(existing) =>
      var updated := existing.(percentage := p.percentage, completedSteps := p.completedSteps);
      SetGet(s.studentProgress, key, updated);
      Created(s.(studentProgress := Set(s.studentProgress, key, updated)), updated)
    case None =>
      var id := s.currentProgressId;
      var inserted := StudentProgress(id, p.studentId, p.interestId, p.percentage, p.completedSteps);
      SetGet(s.studentProgress, key, inserted);
      Created(s.(studentProgress := Set(s.studentProgress, key, inserted), currentProgressId := id + 1), inserted)
  }

  /** The upsert never disturbs another (student, interest) pair's record. */
  lemma UpsertLeavesOtherPairs(s: Store, p: InsertStudentProgress, studentId: int, interestId: int)
    requires studentId != p.studentId || interestId != p.interestId
    ensures GetStudentProgress(CreateOrUpdateStudentProgress(s, p).store, studentId, interestId)
            == GetStudentProgress(s, studentId, interestId)
  {
    if ProgressKey(studentId, interestId) == ProgressKey(p.studentId, p.interestId) {
      ProgressKeyInjective(studentId, interestId, p.studentId, p.interestId);
    }
  }

  /** The upsert keeps the store invariant: one record per pair, ids below the counter. */
  lemma UpsertPreservesValid(s: Store, p: InsertStudentProgress)
    requires Valid(s)
    ensures Valid(CreateOrUpdateStudentProgress(s, p).store)
  {
    var key := ProgressKey(p.studentId, p.interestId);
    var r := CreateOrUpdateStudentProgress(s, p);
    var t := s.studentProgress;
    if Get(t, key).Some? {
      StoredRow(t, key, s.currentProgressId);
      ReplaceKeepsRows(t, key, r.record, s.currentProgressId);
    } else {
      SetKeys(t, key, r.record);
      AppendKeepsRows(t, key, r.record, s.currentProgressId);
    }
  }

  /** A record found under a key is filed under its own pair's key and has an id below the counter. */
  lemma StoredRow(t: Table<string, StudentProgress>, key: string, counter: int)
    requires ProgressRows(t, counter) && Get(t, key).Some?
    ensures key == ProgressKey(Get(t, key).value.studentId, Get(t, key).value.interestId)
    ensures Get(t, key).value.id < counter
  {
    var i :| 0 <= i < |t| && t[i] == Entry(key, Get(t, key).value);
  }

  /** Overwriting a stored key with a record of the same pair keeps the rows valid. */
  lemma ReplaceKeepsRows(t: Table<string, StudentProgress>, key: string, v: StudentProgress, counter: int)
    requires ProgressRows(t, counter) && key in Keys(t)
    requires key == ProgressKey(v.studentId, v.interestId) && v.id < counter
    ensures ProgressRows(Set(t, key, v), counter)
  {
    SetKeys(t, key, v);
    forall j | 0 <= j < |Set(t, key, v)|
      ensures Set(t, key, v)[j].key == ProgressKey(Set(t, key, v)[j].value.studentId, Set(t, key, v)[j].value.interestId)
      ensures Set(t, key, v)[j].value.id < counter
    {
      ReplacedRow(t, key, v, counter, j);
    }
  }

  /** One row of the overwritten table: the new record at the key, the old row elsewhere. */
  lemma ReplacedRow(t: Table<string, StudentProgress>, key: string, v: StudentProgress, counter: int, j: int)
    requires ProgressRows(t, counter) && key in Keys(t) && DistinctKeys(Set(t, key, v))
    requires key == ProgressKey(v.studentId, v.interestId) && v.id < counter
    requires 0 <= j < |Set(t, key, v)|
    ensures Set(t, key, v)[j].key == ProgressKey(Set(t, key, v)[j].value.studentId, Set(t, key, v)[j].value.interestId)
    ensures Set(t, key, v)[j].value.id < counter
  {
    var t' := Set(t, key, v);
    SetGet(t, key, v);
    DistinctGetAt(t', j);
    if t'[j].key != key {
      DistinctGetAt(t, j);
    }
  }

  /** Appending a fresh pair's record under the counter keeps the rows valid for the next counter. */
  lemma AppendKeepsRows(t: Table<string, StudentProgress>, key: string, v: StudentProgress, counter: int)
    requires ProgressRows(t, counter) && DistinctKeys(Set(t, key, v))
    requires key == ProgressKey(v.studentId, v.interestId) && v.id == counter
    requires key !in Keys(t)
    ensures ProgressRows(Set(t, key, v), counter + 1)
  {
    assert Set(t, key, v) == t + [Entry(key, v)];
  }

  /** In a table without repeated keys, `get` of an entry's key yields that entry's value. */
  lemma DistinctGetAt<K, V>(t: Table<K, V>, i: int)
    requires DistinctKeys(t) && 0 <= i < |t|
    ensures Get(t, t[i].key) == Some(t[i].value)
  {
    var r := Get(t, t[i].key);
    var j :| 0 <= j < |t| && t[j] == Entry(t[i].key, r.value);
  }
}
