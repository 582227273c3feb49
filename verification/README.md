# Texas career-path explorer — a Dafny model of its core

The explorer shows a high-school student the pathways toward a chosen career
interest. The pathways are four columns of nodes: courses, certifications,
college majors and careers. Clicking a career highlights the nodes that lead
to it, and clicking anything else opens a detail panel. This project models,
as pure Dafny functions over immutable data:

- **the pathway visualization's state machine** (`Visualization`): node
  selection, the prerequisite highlight (including its literal
  `matchesRequirement`), the reset, the status filters with the column
  projection, and the reset that runs when the interest changes;
- **the pathway card** (`NodeCard`): the three-way card style, the chevron,
  the status badge and the company badges;
- **the server's in-memory store** (`Storage`, over `JsMap`, a model of a
  JavaScript `Map`): the create/get operations with their auto-increment
  counters, the selection by interest, and the progress upsert;
- **the seed data** (`Seed`): the store `initializeData` fills, including
  the ids the counters hand out;
- **the job-market helpers** (`JobMarket`): the search query by interest,
  the skills-demand table and the relative "posted" date;
- **the detail modal** (`DetailModal`): which class record a course shows,
  and the certification, major and fallback texts;
- **the career-explorer page** (`Explorer`): the selected interest's name,
  the 14-character truncation, the header/dropdown split and the initial
  interest id;
- **the formatting helpers** (`Utils`): `formatCurrency`,
  `getStatusBadgeClasses` and `toTitleCase`.

Supporting modules:

- `Seqs` holds `Option`, `Filter`, `Find` and the subsequence/multiset facts.
- `Text` holds ASCII case mapping, `includes`/`startsWith` and the decimal
  rendering of integers.
- `Schema` holds the records.

In the source, the visualization mutates the `isActivePath` flag on nodes
that belong to the react-query cache. Here the flags live in the four
buckets of the view state, and a click names a card by its position
(`NodeRef`: column and index). Every event handler is one atomic transition.

## Model

| member | source | states |
|---|---|---|
| Utils.FormatCurrency | client/src/lib/utils.ts:9-11 | The salary text is shown exactly as stored: same length, same character at every position. |
| Utils.StatusBadgeClasses | client/src/lib/utils.ts:14-31 | "completed" is green, "in-progress" blue and "recommended" amber. The neutral classes are returned exactly for every other status, listed or not. |
| Utils.BadgeClassesDistinguish | client/src/lib/utils.ts:14-31 | Two statuses get the same badge classes if and only if they are equal or both lack a colour of their own. |
| Utils.InsertSpaces | client/src/lib/utils.ts:36 | The capital-letter replacement adds exactly one character per ASCII capital, and its result never starts with a capital. |
| Utils.CapitalsFollowSpace | client/src/lib/utils.ts:36 | Every capital in the replaced text is immediately preceded by a space. |
| Utils.InsertSpacesRoundTrip | client/src/lib/utils.ts:36 | Dropping each space that stands before a capital gives back the original string, so the replacement loses nothing. |
| Utils.InsertSpacesNoCapitals | client/src/lib/utils.ts:36 | Text without capitals passes through the replacement unchanged. |
| Utils.InsertSpacesAppend | client/src/lib/utils.ts:36 | The replacement distributes over concatenation. |
| Utils.ToTitleCase | client/src/lib/utils.ts:34-38 | The length grows by one per capital; the empty string stays empty. A leading capital yields a leading space. Otherwise the first character is upper-cased. The rest is the replaced text. |
| Utils.ToTitleCaseRecoverable | client/src/lib/utils.ts:34-38 | Once the first character is put back, the original string can be recovered from the title. |
| Utils.ToTitleCaseNoCapitals | client/src/lib/utils.ts:34-38 | A status without capitals only has its first letter upper-cased. |
| Utils.ToTitleCaseOfStatus | client/src/lib/utils.ts:34-38 | "in-progress" is labelled "In-progress". |
| Utils.ToTitleCaseOfCapital | client/src/lib/utils.ts:34-38 | A camel-case string that starts with a capital gets a leading space ("Foo" gives " Foo"). |
| NodeCard.CardStyleOf | client/src/components/PathwayNode.tsx:17-31 | A card is highlighted if and only if its flag is true. Otherwise it is greyed if and only if a career is selected, and plain if and only if none is. |
| NodeCard.ChevronOf | client/src/components/PathwayNode.tsx:49 | The chevron uses the primary colour if and only if the node's flag is true. |
| NodeCard.MissingFlagIsInactive | client/src/components/PathwayNode.tsx:17 | A missing flag renders exactly like a false one. |
| NodeCard.ChevronFollowsHighlight | client/src/components/PathwayNode.tsx:17-49 | The chevron is primary if and only if the card is highlighted, whatever the selection flag. |
| NodeCard.CompanyBadges | client/src/components/PathwayNode.tsx:87-96 | With no companies there are no badges. Otherwise the badges are the first min(2, n) names, in order. |
| NodeCard.RenderCard | client/src/components/PathwayNode.tsx:15-96 | A card is highlighted if and only if its node is on the active path, and greyed if and only if it is off the path while a career is selected. The chevron is primary if and only if the card is highlighted. The badge and label follow the status. The company badges are the first min(2, n) company names, and there are none without a company list. |
| NodeCard.CardsAfterSelection | client/src/components/PathwayNode.tsx:20-31 | After a career is selected, a card is highlighted if the selection marks it and greyed otherwise. |
| NodeCard.CardsAfterDeselect | client/src/components/PathwayNode.tsx:20-31 | After a deselection or background click, every card is plain. |
| NodeCard.StaleGreyOut | client/src/components/PathwayVisualization.tsx:140-145 | With a career selected, the interest change as written renders the next interest's fresh cards greyed although nothing is selected. |
| NodeCard.NoStaleGreyOut | client/src/components/PathwayVisualization.tsx:140-145 | After the corrected interest change, the same fresh cards render plain. |
| Visualization.ResetHighlights | client/src/components/PathwayVisualization.tsx:68-75 | No highlighted ids remain. With data loaded, every flag in all four columns is false and the nodes and their order are unchanged. Selections, filters and the selection flag are untouched. |
| Visualization.Deselect | client/src/components/PathwayVisualization.tsx:53-57 | Deselecting resets the highlights and clears the selected career and the flag. The course selection and the filters are kept. |
| Visualization.ResetIdempotent | client/src/components/PathwayVisualization.tsx:68-75 | Resetting twice equals resetting once, and so does deselecting twice. |
| Visualization.MatchesIgnoresFlag | client/src/components/PathwayVisualization.tsx:117-122 | The match test reads nothing the flag could change. |
| Visualization.MarkColumnsSame | client/src/components/PathwayVisualization.tsx:125-129 | Marking changes only flags: the same nodes stay in the same columns and order. |
| Visualization.ActivateAtSpec | client/src/components/PathwayVisualization.tsx:109 | Only the clicked position changes, and only its flag, which becomes true. |
| Visualization.HandleNodeSelect | client/src/components/PathwayVisualization.tsx:47-65 | A course, certification or major click only opens the modal for that node. Any other click keeps the course selection, the filters and the nodes. |
| Visualization.HighlightSameNodes | client/src/components/PathwayVisualization.tsx:97-132 | The highlight keeps every node in place. The highlighted ids are the clicked node's step ids, or none. It changes no selection, filter or selection flag. |
| Visualization.MarkedPosition | client/src/components/PathwayVisualization.tsx:97-132 | When the clicked node declares steps, a position is active afterwards exactly when the selection marks it. |
| Visualization.SelectCareer | client/src/components/PathwayVisualization.tsx:47-132 | Clicking a career other than the selected one: it becomes the selection, the flag is set, its step ids are highlighted in order, and exactly the positions the selection marks are active. |
| Visualization.SelectCareerWithoutSteps | client/src/components/PathwayVisualization.tsx:107 | A career without required steps is still selected, but nothing is highlighted or active. |
| Visualization.PrerequisiteIffStep | client/src/components/PathwayVisualization.tsx:111-137 | After a career is selected, an id counts as a prerequisite if and only if one of the career's required steps carries it. |
| Visualization.ReselectDeselects | client/src/components/PathwayVisualization.tsx:47-65 | Clicking the selected career again clears everything. It is the same transition as a background click. |
| Visualization.SelectTwiceIsIdle | client/src/components/PathwayVisualization.tsx:47-65 | Selecting the same career twice returns to no selection, no flag and no highlight, with the nodes unchanged. |
| Visualization.Toggle | client/src/components/PathwayVisualization.tsx:77-83 | A status is active afterwards if and only if it was not active before. Other statuses are unaffected. A list without duplicates stays without duplicates. |
| Visualization.FilterNoDuplicates | client/src/components/PathwayVisualization.tsx:79 | Removing entries from a duplicate-free list keeps it duplicate-free. |
| Visualization.ToggleTwiceRestores | client/src/components/PathwayVisualization.tsx:77-83 | Toggling an absent status twice restores the list. |
| Visualization.ToggleTwiceMovesToEnd | client/src/components/PathwayVisualization.tsx:77-83 | Toggling a present status twice moves it to the end. |
| Visualization.ClearFilters | client/src/components/PathwayVisualization.tsx:85-87 | No filter remains and nothing else changes. |
| Visualization.FilterNodesSpec | client/src/components/PathwayVisualization.tsx:91-94 | Without filters, every node is shown. With filters, the nodes are an order-preserving selection that holds each node whose status is active as often as it occurs, and no other node. |
| Visualization.InterestChange | client/src/components/PathwayVisualization.tsx:140-145 | Both selections, the filters and the highlights are cleared. The selection flag and every node flag are kept. |
| Visualization.EventsPreserveCoherence | client/src/components/PathwayVisualization.tsx:47-87 | Clicks, background clicks, filter changes and the corrected interest change keep the grey-out flag set exactly while a career is selected. |
| Visualization.InterestChangeBreaksCoherence | client/src/components/PathwayVisualization.tsx:140-145 | From any state with a selected career, the interest change as written drops the selection but leaves the flag set. |
| Visualization.InterestChangeCounterexample | client/src/components/PathwayVisualization.tsx:140-145 | A concrete run shows this: mount, click a career, switch interest. |
| Visualization.InterestChangeCorrected | client/src/components/PathwayVisualization.tsx:140-145 | The intended reset clears both selections, the flag, every node flag, the filters and the highlights. |
| Visualization.InterestChangeVersusMount | client/src/components/PathwayVisualization.tsx:140-145 | The corrected change lands in the mount state. The one as written lands there if and only if no career was flagged. |
| Explorer.InitialPage | client/src/pages/career-explorer.tsx:34 | The page opens on interest 1. |
| Explorer.ChooseInterest | client/src/pages/career-explorer.tsx:173-182 | A dropdown click selects the id. The visualization's interest-change effect runs if and only if the id changed. |
| Explorer.SelectedInterestName | client/src/pages/career-explorer.tsx:58-62 | The name is empty before the list loads and when no interest has the id. Otherwise it is the name of the first interest with that id. |
| Explorer.DisplayName | client/src/pages/career-explorer.tsx:163 | A name of up to 14 characters is shown whole. A longer one shows its first 14 characters and "...". |
| Explorer.DisplayNameIdempotent | client/src/pages/career-explorer.tsx:163 | Truncating a displayed name again changes nothing. |
| Explorer.PickerPartition | client/src/pages/career-explorer.tsx:142-173 | The header and the dropdown partition the interest list, as multisets and by count. |
| Explorer.PickerOrder | client/src/pages/career-explorer.tsx:142-173 | Both lists keep the interests' order. The header holds only the selected id, and the dropdown never holds it. |
| Explorer.HeaderMatchesName | client/src/pages/career-explorer.tsx:58-62 | With distinct ids the header has at most one button, labelled with the looked-up name. The name is empty when the header is empty. |
| DetailModal.CourseDataFor | client/src/components/CourseDetailModal.tsx:90-131 | Only a course can show class data. The robotics record goes exactly to a completed course titled "Introduction to Robotics". The engineering record goes exactly to an in-progress course whose title contains "Engineering Principles". |
| DetailModal.GradeBadge | client/src/components/CourseDetailModal.tsx:298-302 | A grade starting with 'A' is green, one starting with 'B' is blue, and every other grade, including the empty one, is amber. |
| DetailModal.RecordGradeBadges | client/src/components/CourseDetailModal.tsx:298-302 | All robotics grades are green. The engineering grades are blue, green, blue. |
| DetailModal.RecordPresentation | client/src/components/CourseDetailModal.tsx:167-274 | The completion banner shows if and only if the robotics record shows. The robotics record is listed under "Completed Assignments" and the engineering record under "Recent Assignments". |
| DetailModal.CertificationHeading | client/src/components/CourseDetailModal.tsx:322-325 | The heading is "Certification Eligibility" if and only if the status is eligible, "Available Certification" if and only if it is available, "Completed Certification" if and only if it is completed, and "Certification Information" if and only if it is none of the three. |
| DetailModal.CertificationActionFor | client/src/components/CourseDetailModal.tsx:433-445 | The counselor line shows if and only if the status is eligible or available. The three-year line shows if and only if it is completed. The prerequisites line shows otherwise. |
| DetailModal.CertificationTextsAgree | client/src/components/CourseDetailModal.tsx:322-445 | The action line agrees with the heading, in both directions for each of the three actions. |
| DetailModal.CertificationTopicOf | client/src/components/CourseDetailModal.tsx:391-395 | "Robotics Programming" is tested first, then "Arduino". Otherwise the text is generic. |
| DetailModal.MajorTrackOf | client/src/components/CourseDetailModal.tsx:457-490 | The major panel describes the mechanical programme and salary if and only if the title contains "Mechanical", and the electrical one otherwise. |
| DetailModal.CourseInfoMessage | client/src/components/CourseDetailModal.tsx:533-535 | The fallback offers enrolment if and only if the status is available or eligible. Otherwise it says no details are available. |
| DetailModal.ModalPanel | client/src/components/CourseDetailModal.tsx:316-537 | Class data shows if and only if there is a record, and it is that record. The certification panel shows if and only if the node is a certification, with the heading and action line of its status and the topic of its title. The major panel shows if and only if the node is a major, on the mechanical track if and only if the title contains "Mechanical". Otherwise the fallback shows, with the enrolment sentence if and only if the status is available or eligible. |
| JobMarket.GenerateSkillsDemand | server/storage.ts:312-345 | The skill set is the first of robotics, chef and business that the query contains; otherwise the default list. It always has five entries. |
| JobMarket.SkillsForInterest | server/storage.ts:186-345 | Interests 1, 2 and 3 get the robotics, chef and business sets. Every other id, including 4, 5 and unknown ids, gets the default list. |
| JobMarket.OtherQuerySkills | server/storage.ts:312-345 | A query without 'b' or 'f' matches no key. |
| JobMarket.OtherQueryLetters | server/storage.ts:186-194 | The queries of interests 4 and 5 and the "technology" fallback contain neither letter. |
| JobMarket.CeilDiv | server/storage.ts:304 | The quotient rounded up: the least q with q * b >= a. |
| JobMarket.DiffDays | server/storage.ts:303-304 | Elapsed whole days are zero exactly for equal instants. Otherwise the elapsed time lies in ((d-1) days, d days]. |
| JobMarket.FormatJobDate | server/storage.ts:300-310 | An unparseable date gives "NaN weeks ago". The same instant gives "0 days ago". Up to one day gives "1 day ago". Over 6 and up to 13 days gives "1 week ago". |
| JobMarket.FormatJobDateDays | server/storage.ts:303-307 | Over one and up to six days, the age reads "d days ago", where d (2 to 6) is the elapsed time in days rounded up: the age is over d - 1 days and at most d days. |
| JobMarket.FormatJobDateWeeks | server/storage.ts:308-309 | Past 13 days, the age reads "w weeks ago" with w >= 2, and w counts ages from 7w-1 to 7w+6 days. |
| JobMarket.FormatJobDateSymmetric | server/storage.ts:303 | The text does not depend on which instant is earlier. |
| Storage.ProgressKeyInjective | server/storage.ts:160-166 | Distinct (student, interest) pairs have distinct map keys. |
| Storage.GetUserByUsername | server/storage.ts:81-85 | No user is returned if and only if no stored user has the name. Otherwise the first one in insertion order is returned. |
| Storage.CreateUser | server/storage.ts:77-92 | The new user gets the counter's id, and the counter increments. `getUser` finds the new user and reads every other id as before. A valid store stays valid and gains one entry at the end. |
| Storage.GetStudentByUserId | server/storage.ts:99-103 | No student is returned if and only if none is linked to the user. Otherwise the first linked one is returned. |
| Storage.CreateStudent | server/storage.ts:95-110 | The same as CreateUser, for students. |
| Storage.CreateCareerInterest | server/storage.ts:113-126 | The same as CreateUser, for career interests. `getAllCareerInterests` lists values in insertion order. |
| Storage.GetPathwaysByInterestSpec | server/storage.ts:129-145 | Each column is an order-preserving selection of the stored nodes, holding each node of that interest and type string as often as it is stored, and no other node. |
| Storage.UnknownTypeDropped | server/storage.ts:136-144 | A node whose type is none of the four strings is in no column. |
| Storage.CreateCareerPathway | server/storage.ts:147-156 | The same as CreateUser, for pathway nodes. A stored node carries no flag. |
| Storage.CreateOrUpdateStudentProgress | server/storage.ts:159-182 | An existing record keeps its id, student and interest, takes the new percentage and steps, and the counter stays. Otherwise a record with the counter's id is inserted and the counter increments. Either way the pair's lookup returns the record and other keys are untouched. |
| Storage.UpsertLeavesOtherPairs | server/storage.ts:159-182 | The upsert never changes another pair's record. |
| Storage.UpsertPreservesValid | server/storage.ts:164-182 | The upsert keeps the store invariant: distinct keys, each record under its own pair's key, and ids below the counter. |
| Seed.Numbered | server/storage.ts:907-915 | The i-th row of a pathway loop started at counter c is stored with id c + i. |
| Seed.SeedPathway | server/storage.ts:907-915 | One loop pass appends the row under the counter and increments the counter. |
| Seed.AddPathwaysValid | server/storage.ts:907-915 | The pathway loop keeps the store valid. |
| Seed.AddPathwaysNumbers | server/storage.ts:907-915 | With every key below the counter, the loop appends its rows numbered from the counter, in order. |
| Seed.AddInterestsValid | server/storage.ts:373-385 | The interest loop keeps the store valid. |
| Seed.AddInterestsNumbers | server/storage.ts:373-385 | The interest loop appends its interests numbered from the counter, in order. |
| Seed.SaveProgressAppends | server/storage.ts:981-994 | Saving records of distinct, fresh pairs appends one entry each, in order. |
| Seed.SeedingCounters | server/storage.ts:348-996 | Seeding the empty store leaves the user and student counters at 2, the progress counter at 6, and the interest and pathway counters at one more than the number of rows. It leaves the one user and one student. |
| Seed.SeedingNumbers | server/storage.ts:373-915 | The interests and the nodes are numbered from 1 in list order. |
| Seed.SeedingValid | server/storage.ts:348-996 | With a user and a student of id 1 and progress records of distinct pairs below id 6, the seeded store is valid. |
| Seed.SeededStore | server/storage.ts:59-74 | The constructor's store is valid, with counters 2, 2, 6, 43 and 6, the seeded user and the seeded student. |
| Seed.SeededInterests | server/storage.ts:373-385 | The five interests are stored under ids 1 to 5, in order. |
| Seed.SeededNodes | server/storage.ts:907-915 | The 42 nodes are stored under ids 1 to 42, in list order. |
| Seed.SeededProgress | server/storage.ts:918-994 | There is one progress entry per record, under its (student, interest) key. |
| Seed.SeededProgressLookup | server/storage.ts:981-994 | Student 1's record for interest i (1 to 5) is found under its pair. |
| Seed.NoPathwaysBeyondThirdInterest | server/storage.ts:907-915 | Every interest other than 1, 2 and 3 has four empty columns, including healthcare and art and design. |
| Seed.SeedingFirstGroup | server/storage.ts:907-915 | A first group seeded before rows of other interests comes back as exactly its four columns, numbered from 1. |
| Seed.SeededRobotics | server/storage.ts:391-557 | The robotics columns are its 14 nodes under ids 1 to 14, split by column. |
| Seed.RoboticsColumns | server/storage.ts:391-557 | Courses have ids 1 to 4, certifications 5 to 7, majors 8 to 10 and careers 11 to 14. The first career is "Robotics Engineer" with its four steps. |
| Seed.SelectFirstCareer | client/src/components/PathwayVisualization.tsx:97-132 | When the courses are steps by id and the certifications and majors are neither steps nor have steps, selecting the first career lights exactly the courses and itself. |
| Seed.RoboticsEngineerSelection | server/storage.ts:488-510 | Clicking "Robotics Engineer" highlights ids 1 to 4 and lights the four courses. No certification or major lights up, not even "Mechanical Engineering", which names the fourth step. |
| Seed.SeedDisplayNames | client/src/pages/career-explorer.tsx:163 | Every seeded interest name except "Culinary Arts" is cut to 14 characters plus "...". |
| Seed.SeededInitialInterest | client/src/pages/career-explorer.tsx:34-62 | On the seeded store the page opens on "Robotics & Engineering". |
| JsMap.Get | server/storage.ts:78 | `get` returns nothing if and only if the key is absent; otherwise it returns the value of an entry with that key. |
| JsMap.Set | server/storage.ts:90 | `set` on a new key appends an entry. On an existing key it keeps the entries' keys and order. |
| JsMap.SetGet | server/storage.ts:90 | After `set(k, v)`, `get(k)` returns v and every other key reads as before. |
| JsMap.SetKeys | server/storage.ts:90 | `set` adds its key and never creates a second entry for it. |
| Text.NatToStringRoundTrip | server/storage.ts:307-309 | The decimal rendering reads back to the number. |
| Text.IntToStringInjective | server/storage.ts:160 | Different integers render differently. |
| Text.MissingCharNotContained | server/storage.ts:337 | A needle with a character the haystack lacks is not contained in it. |

## Left out

- `getJobMarketTrends` (server/storage.ts:196-297) queries a remote job API over the network. Only its deterministic helpers are modelled: the query map, `formatJobDate` and `generateSkillsDemand`.
- JobMarket.FormatJobDate: dates are integer milliseconds, and an unparseable date string is modelled as `None`. Date parsing and the clock are parameters. The day count is an exact integer ceiling, whereas the source divides in floating point; the two differ only for gaps beyond about 1.3e8 days. The source never calls this helper.
- Charts, the share and export dialogs, authentication, routes, timers and the DOM dropdown toggling are outside the modelled core.
- `handleInterestSelect` (career-explorer.tsx:48-56) shows a loading overlay and hides it after 800 ms. The model keeps only its `setSelectedInterestId`, the same state change as the dropdown click.
- The cache aliasing is not modelled. The visualization mutates node objects shared with the react-query cache. The model gives the flags to the view state's buckets, so a refetch of the same interest starting from fresh flags is not represented.
- The react-query loading state is not modelled. Choosing an interest (Explorer.ChooseInterest) only sets the id. The data switch is the separate step Visualization.PathwaysLoaded. Until that step, the previous interest's buckets stand in for the source's loading branch (PathwayVisualization.tsx:147), which renders while the new query key has no data.
- React's batching of state updates is not modelled. Each handler is one atomic transition, which is what the batched handlers commit.
- A card's click is modelled as its position (`NodeRef`), not as the node object.
- Display-only fields are not part of the records: descriptions, schools, salaries, growth rates, skills, schedules, achievements and feedback.
- Text: case mapping is ASCII-only, and lengths count Dafny characters rather than UTF-16 code units. Both agree on the seeded data.
- `initializeData` builds a similar-pathways list (server/storage.ts:999-1144) but never stores or reads it, so it is not modelled.
- Seed.InitializeData is stated only for the constructor's empty store, which is the only store it ever runs on.
- Visualization.HighlightPrerequisites requires loaded data. The source tolerates a missing `pathways`, but a card can only be clicked once the columns are rendered.

## Findings

| source | as written | input that shows it | evidently intended | confidence | as-written member | corrected member |
|---|---|---|---|---|---|---|
| client/src/components/PathwayVisualization.tsx:140-145 | The interest-change effect clears the selected node, the course node, the filters and the highlighted ids. It leaves `careerSelected` true and the node flags as they were. | Mount on interest 1, click a career, pick another interest: nothing is selected, yet every card of the new interest renders greyed. | The comment and `handleNodeSelect` both call for a full reset: no selection, no grey-out flag, no active node. | medium, not executed | Visualization.InterestChangeBreaksCoherence, Visualization.InterestChangeCounterexample, NodeCard.StaleGreyOut | Visualization.InterestChangeCorrected, Visualization.EventsPreserveCoherence, NodeCard.NoStaleGreyOut |
