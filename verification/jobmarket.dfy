/**
 The deterministic parts of the job-market report: the interest's search
 query, the skills-demand table chosen from that query, and the relative
 "posted" date. Dates are integer milliseconds since the epoch, as
 `Date.getTime` returns them; a date string that does not parse is `None`.
 */
module JobMarket {
  import opened Seqs
  import opened Text

  /** `interestMap[interestId] || 'technology'` */
  function SearchQuery(interestId: int): string {
    match interestId
    case 1 => "robotics engineer"
    case 2 => "chef cook culinary restaurant"
    case 3 => "business analyst manager"
    case 4 => "nurse healthcare medical"
    case 5 => "graphic designer artist creative"
    case _ => "technology"
  }

  datatype SkillDemand = SkillDemand(skill: string, demand: nat, growth: nat)

  const RoboticsSkills: seq<SkillDemand> := [
    SkillDemand("Python Programming", 1450, 28),
    SkillDemand("ROS (Robot Operating System)", 890, 35),
    SkillDemand("Computer Vision", 1120, 22),
    SkillDemand("Machine Learning", 1340, 31),
    SkillDemand("PLC Programming", 780, 15)]

  const ChefSkills: seq<SkillDemand> := [
    SkillDemand("Menu Development", 650, 15),
    SkillDemand("Food Safety Certification", 890, 18),
    SkillDemand("Team Leadership", 720, 12),
    SkillDemand("Culinary Arts", 1200, 10),
    SkillDemand("Restaurant Management", 580, 14)]

  const BusinessSkills: seq<SkillDemand> := [
    SkillDemand("Data Analysis", 1850, 24),
    SkillDemand("Project Management", 1650, 19),
    SkillDemand("Business Strategy", 1200, 16),
    SkillDemand("SQL", 1450, 22),
    SkillDemand("Leadership", 1320, 18)]

  const DefaultSkills: seq<SkillDemand> := [
    SkillDemand("Communication", 950, 18),
    SkillDemand("Problem Solving", 850, 22),
    SkillDemand("Leadership", 650, 15),
    SkillDemand("Teamwork", 800, 12),
    SkillDemand("Technical Skills", 750, 20)]

  /** The keys of the skill sets, in the order `Object.keys` lists them. */
  const SkillKeys: seq<string> := ["robotics", "chef", "business"]

  function SkillSet(key: string): Option<seq<SkillDemand>> {
    match key
    case "robotics" => Some(RoboticsSkills)
    case "chef" => Some(ChefSkills)
    case "business" => Some(BusinessSkills)
    case _ => None
  }

  /** `generateSkillsDemand`: the set of the first key the query contains, else the default list. */
  function GenerateSkillsDemand(query: string): (r: seq<SkillDemand>)
    ensures Contains(query, "robotics") ==> r == RoboticsSkills
    ensures !Contains(query, "robotics") && Contains(query, "chef") ==> r == ChefSkills
    ensures !Contains(query, "robotics") && !Contains(query, "chef") && Contains(query, "business") ==> r == BusinessSkills
    ensures !Contains(query, "robotics") && !Contains(query, "chef") && !Contains(query, "business") ==> r == DefaultSkills
    ensures |r| == 5
  {
    var key := Find(SkillKeys, (k: string) => Contains(query, k));
    if key.Some? && SkillSet(key.value).Some? then SkillSet(key.value).value else DefaultSkills
  }

  /** Interests 1, 2 and 3 get their own skill sets; every other id gets the default list. */
  lemma SkillsForInterest(interestId: int)
    ensures interestId == 1 ==> GenerateSkillsDemand(SearchQuery(interestId)) == RoboticsSkills
    ensures interestId == 2 ==> GenerateSkillsDemand(SearchQuery(interestId)) == ChefSkills
    ensures interestId == 3 ==> GenerateSkillsDemand(SearchQuery(interestId)) == BusinessSkills
    ensures !(1 <= interestId <= 3) ==> GenerateSkillsDemand(SearchQuery(interestId)) == DefaultSkills
  {
    if interestId == 1 {
      RoboticsQuerySkills(SearchQuery(interestId));
    } else if interestId == 2 {
      ChefQuerySkills(SearchQuery(interestId));
    } else if interestId == 3 {
      BusinessQuerySkills(SearchQuery(interestId));
    } else {
      OtherQueryLetters(interestId);
      OtherQuerySkills(SearchQuery(interestId));
    }
  }

  lemma RoboticsQuerySkills(q: string)
    requires q == "robotics engineer"
    ensures GenerateSkillsDemand(q) == RoboticsSkills
  {
    assert q[..8] == "robotics";
    StartsWithContains(q, "robotics");
  }

  lemma ChefQuerySkills(q: string)
    requires q == "chef cook culinary restaurant"
    ensures GenerateSkillsDemand(q) == ChefSkills
  {
    Lacks(q, "robotics", 'b');
    ChefQueryLeads(q);
  }

  lemma ChefQueryLeads(q: string)
    requires q == "chef cook culinary restaurant"
    ensures Contains(q, "chef")
  {
    assert q[..4] == "chef";
    StartsWithContains(q, "chef");
  }

  lemma BusinessQuerySkills(q: string)
    requires q == "business analyst manager"
    ensures GenerateSkillsDemand(q) == BusinessSkills
  {
    Lacks(q, "robotics", 'o');
    Lacks(q, "chef", 'c');
    BusinessQueryLeads(q);
  }

  lemma BusinessQueryLeads(q: string)
    requires q == "business analyst manager"
    ensures Contains(q, "business")
  {
    assert q[..8] == "business";
    StartsWithContains(q, "business");
  }

  /** A query without a 'b' or an 'f' matches no key. */
  lemma OtherQuerySkills(q: string)
    requires 'b' !in q && 'f' !in q
    ensures GenerateSkillsDemand(q) == DefaultSkills
  {
    Lacks(q, "robotics", 'b');
    Lacks(q, "chef", 'f');
    Lacks(q, "business", 'b');
  }

  /** The queries of interests 4 and 5 and the `'technology'` fallback have neither letter. */
  lemma OtherQueryLetters(interestId: int)
    requires !(1 <= interestId <= 3)
    ensures 'b' !in SearchQuery(interestId) && 'f' !in SearchQuery(interestId)
  {
    var q := SearchQuery(interestId);
    if interestId == 4 {
      NurseQueryLetters(q);
    } else if interestId == 5 {
      DesignerQueryLetters(q);
    } else {
      TechnologyQueryLetters(q);
    }
  }

  lemma NurseQueryLetters(q: string)
    requires q == "nurse healthcare medical"
    ensures 'b' !in q && 'f' !in q
  {
  }

  lemma DesignerQueryLetters(q: string)
    requires q == "graphic designer artist creative"
    ensures 'b' !in q && 'f' !in q
  {
  }

  lemma TechnologyQueryLetters(q: string)
    requires q == "technology"
    ensures 'b' !in q && 'f' !in q
  {
  }

  /** A query missing a character of the key does not contain the key. */
  lemma Lacks(q: string, key: string, c: char)
    requires c in key && c !in q
    ensures !Contains(q, key)
  {
    MissingCharNotContained(q, key, c);
  }

  const MsPerDay: nat := 1000 * 60 * 60 * 24

  function Abs(x: int): nat {
    if x < 0 then -x else x
  }

  /** `Math.ceil(a / b)` for a non-negative integer numerator. */
  function CeilDiv(a: nat, b: nat): (q: nat)
    requires b > 0
    ensures q * b >= a && (q == 0 || (q - 1) * b < a)
  {
    (a + b - 1) / b
  }

  /** Whole days between the two instants, rounded up. */
  function DiffDays(date: int, now: int): (d: nat)
    ensures d == 0 <==> date == now
    ensures d > 0 ==> (d - 1) * MsPerDay < Abs(now - date) <= d * MsPerDay
  {
    CeilDiv(Abs(now - date), MsPerDay)
  }

  /**
   `formatJobDate`: the age of a posting, by elapsed milliseconds. An
   unparseable date makes every comparison false and ends in "NaN weeks ago".
   */
  function FormatJobDate(date: Option<int>, now: int): (r: string)
    ensures date.None? ==> r == "NaN weeks ago"
    ensures date.Some? && date.value == now ==> r == "0 days ago"
    ensures date.Some? && 0 < Abs(now - date.value) <= MsPerDay ==> r == "1 day ago"
    ensures date.Some? && 6 * MsPerDay < Abs(now - date.value) <= 13 * MsPerDay ==> r == "1 week ago"
  {
    match date
    case None => "NaN weeks ago"
    case Some(t) =>
      var d := DiffDays(t, now);
      if d == 1 then "1 day ago"
      else if d < 7 then NatToString(d) + " days ago"
      else if d < 14 then "1 week ago"
      else NatToString(d / 7) + " weeks ago"
  }

  /**
   Between one and six days the age is counted in whole days, rounded up: the
   count `d` covers ages over `d - 1` and up to `d` days.
   */
  lemma FormatJobDateDays(date: int, now: int)
    requires MsPerDay < Abs(now - date) <= 6 * MsPerDay
    ensures exists d :: 2 <= d <= 6 && (d - 1) * MsPerDay < Abs(now - date) <= d * MsPerDay
                        && FormatJobDate(Some(date), now) == NatToString(d) + " days ago"
  {
    var d := DiffDays(date, now);
    assert 2 <= d <= 6;
    assert FormatJobDate(Some(date), now) == NatToString(d) + " days ago";
  }

  /**
   Past thirteen days the age is counted in whole weeks, rounded down, so the
   count `w` covers ages from `7w - 1` to `7w + 6` days.
   */
  lemma FormatJobDateWeeks(date: int, now: int)
    requires 13 * MsPerDay < Abs(now - date)
    ensures exists w :: w >= 2 && (7 * w - 1) * MsPerDay < Abs(now - date) <= (7 * w + 6) * MsPerDay
                        && FormatJobDate(Some(date), now) == NatToString(w) + " weeks ago"
  {
    var d := DiffDays(date, now);
    var w := d / 7;
    assert d >= 14;
    assert 7 * w <= d <= 7 * w + 6;
    assert (7 * w - 1) * MsPerDay <= (d - 1) * MsPerDay;
    assert d * MsPerDay <= (7 * w + 6) * MsPerDay;
    assert FormatJobDate(Some(date), now) == NatToString(w) + " weeks ago";
  }

  /** The age does not depend on which of the two instants is earlier. */
  lemma FormatJobDateSymmetric(a: int, b: int)
    ensures FormatJobDate(Some(a), b) == FormatJobDate(Some(b), a)
  {
    assert Abs(b - a) == Abs(a - b);
  }
}
