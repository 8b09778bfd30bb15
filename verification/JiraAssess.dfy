/**
  The Jira half of the assessment, internal/assess/jira_assess.go: every row the scanner
  delivers is tallied, and the tallies are folded into ledger classes.
 */
module JiraAssess {
  import opened Text
  import opened Census
  import opened Mapping
  import opened AssessLedger
  import J = JiraEntities
  import Q = JqlClassify
  import X = JqlLex

  type Names = map<string, string>

  datatype Project = Project(id: string, key: string, name: string)

  datatype IssueTally = IssueTally(
    issues: nat, issueKeys: Counts, issueTypes: Counts, statuses: Counts, priorities: Counts)

  /** Action rows are general activity; some are comments, and some of those are restricted. */
  datatype ActivityTally = ActivityTally(actions: nat, comments: nat, restricted: nat)

  /** Entity types of which only the number matters. */
  datatype Counters = Counters(
    fieldValues: nat, attachments: nat, users: nat, groups: nat, memberships: nat, links: nat, worklogs: nat)

  /** The names behind the ids that issues refer to. */
  datatype Lookups = Lookups(rows: nat, typeNames: Names, statusNames: Names, priorityNames: Names)

  datatype Tally = Tally(
    projects: seq<Project>, fieldTypes: Counts, filters: seq<Q.Query>,
    issue: IssueTally, activity: ActivityTally, counted: Counters, lookups: Lookups)

  const EMPTY := Tally([], map[], [], IssueTally(0, map[], map[], map[], map[]), ActivityTally(0, 0, 0),
                       Counters(0, 0, 0, 0, 0, 0, 0), Lookups(0, map[], map[], map[]))

  /** Which handler a row goes to. */
  datatype Kind =
    | Projects | Issues | Actions | CustomFields | FieldValues | Attachments | Users | Groups
    | Memberships | Links | Worklogs | SavedFilters | TypeNames | StatusNames | PriorityNames | Unhandled
  {
    /** Only counted. */
    predicate IsCounter() {
      FieldValues? || Attachments? || Users? || Groups? || Memberships? || Links? || Worklogs?
    }

    /** Names behind the ids issues refer to. */
    predicate IsLookup() { TypeNames? || StatusNames? || PriorityNames? }
  }

  const HANDLERS: seq<Handler<Kind>> := [
    On("project", Projects), On("issue", Issues), On("action", Actions), On("customfield",
    CustomFields), On("customfieldvalue", FieldValues), On("fileattachment", Attachments),
    On("applicationuser", Users), On("osgroup", Groups), On("osmembership", Memberships),
    On("issuelink", Links), On("worklog", Worklogs), On("searchrequest", SavedFilters), On("issuetype",
    TypeNames), On("status", StatusNames), On("priority", PriorityNames)]

  const WANTED := Registered(HANDLERS)

  function KindOf(entity: string): Kind { HandlerOf(HANDLERS, ToLower(entity), Unhandled) }

  function CountIfSet(m: Counts, key: string): Counts {
    if TrimSpace(key) != "" then Bump(m, TrimSpace(key), 1) else m
  }

  function IsComment(r: J.Row): bool { EqualFold(J.Get(r, "type"), "comment") }

  function IsRestricted(r: J.Row): bool { J.Get(r, "level") != "" || J.Get(r, "rolelevel") != "" }

  function FieldTypeKey(r: J.Row): string {
    if J.Get(r, "customfieldtypekey") == "" then J.Get(r, "customfieldtype") else J.Get(r, "customfieldtypekey")
  }

  function QueryText(r: J.Row): string { if J.Get(r, "request") == "" then J.Get(r, "query") else J.Get(r, "request") }

  ghost function ClassifiedText(input: string): Q.Query {
    if TrimSpace(input) == "" then Q.Query([], [Q.NoText], Q.NotExpressible)
    else Q.Classified(X.LexTokens(TrimSpace(input)))
  }

  function WithName(names: Names, r: J.Row): Names {
    if J.Get(r, "id") != "" && J.Get(r, "name") != "" then names[J.Get(r, "id") := J.Get(r, "name")] else names
  }

  function OnIssue(t: IssueTally, r: J.Row): IssueTally {
    IssueTally(
      t.issues + 1, Bump(t.issueKeys, J.Get(r, "project"), 1), CountIfSet(t.issueTypes, J.Get(r, "type")),
      CountIfSet(t.statuses, J.Get(r, "status")), CountIfSet(t.priorities, J.Get(r, "priority")))
  }

  function OnAction(t: ActivityTally, r: J.Row): ActivityTally {
    ActivityTally(
      t.actions + 1, t.comments + (if IsComment(r) then 1 else 0),
      t.restricted + (if IsComment(r) && IsRestricted(r) then 1 else 0))
  }

  function OnCounter(t: Counters, kind: Kind): Counters
    requires kind.IsCounter()
  {
    match kind
    case FieldValues => t.(fieldValues := t.fieldValues + 1)
    case Attachments => t.(attachments := t.attachments + 1)
    case Users => t.(users := t.users + 1)
    case Groups => t.(groups := t.groups + 1)
    case Memberships => t.(memberships := t.memberships + 1)
    case Links => t.(links := t.links + 1)
    case Worklogs => t.(worklogs := t.worklogs + 1)
  }

  function OnLookup(t: Lookups, kind: Kind, r: J.Row): Lookups
    requires kind.IsLookup()
  {
    match kind
    case TypeNames => t.(rows := t.rows + 1, typeNames := WithName(t.typeNames, r))
    case StatusNames => t.(rows := t.rows + 1, statusNames := WithName(t.statusNames, r))
    case PriorityNames => t.(rows := t.rows + 1, priorityNames := WithName(t.priorityNames, r))
  }

  /** What one delivered row adds to the tally. */
  ghost function OnRow(t: Tally, r: J.Row): Tally { OnKind(t, KindOf(r.entity), r) }

  ghost function OnKind(t: Tally, kind: Kind, r: J.Row): Tally {
    if kind.IsCounter() then t.(counted := OnCounter(t.counted, kind))
    else if kind.IsLookup() then t.(lookups := OnLookup(t.lookups, kind, r))
    else match kind
      case Projects => t.(projects := t.projects + [Project(J.Get(r, "id"), J.Get(r, "key"), J.Get(r, "name"))])
      case Issues => t.(issue := OnIssue(t.issue, r))
      case Actions => t.(activity := OnAction(t.activity, r))
      case CustomFields => t.(fieldTypes := CountIfSet(t.fieldTypes, FieldTypeKey(r)))
      case SavedFilters => t.(filters := t.filters + [ClassifiedText(QueryText(r))])
      case Unhandled => t
  }

  ghost function OnRows(t: Tally, rs: seq<J.Row>): Tally {
    if rs == [] then t else OnRow(OnRows(t, rs[..|rs| - 1]), rs[|rs| - 1])
  }

  function CountedIn(t: Counters): nat {
    t.fieldValues + t.attachments + t.users + t.groups + t.memberships + t.links + t.worklogs
  }

  /** The rows the classes account for. */
  ghost function Claimed(t: Tally): nat {
    |t.projects| + t.issue.issues + t.activity.actions + CountedIn(t.counted) + Sum(t.fieldTypes) + |t.filters|
    + t.lookups.rows
  }

  ghost predicate Sane(t: Tally) { t.activity.restricted <= t.activity.comments <= t.activity.actions }

  lemma WantedAreHandled(entity: string)
    ensures ToLower(entity) in WANTED <==> !KindOf(entity).Unhandled?
  {
    RegisteredAreHandled(HANDLERS, ToLower(entity), Unhandled);
  }

  /** The row is claimed by exactly one class, unless it is a custom field that names no type. */
  predicate Claims(r: J.Row) { KindClaims(KindOf(r.entity), r) }

  predicate KindClaims(kind: Kind, r: J.Row) {
    !kind.Unhandled? && (kind.CustomFields? ==> TrimSpace(FieldTypeKey(r)) != "")
  }

  lemma {:induction false} CountIfSetSum(m: Counts, key: string)
    ensures Sum(CountIfSet(m, key)) == Sum(m) + (if TrimSpace(key) != "" then 1 else 0)
  {
    BumpSum(m, TrimSpace(key), 1);
  }

  lemma CounterCountsOnce(t: Counters, kind: Kind)
    requires kind.IsCounter()
    ensures CountedIn(OnCounter(t, kind)) == CountedIn(t) + 1
  {
  }

  lemma KindClaimedOnce(t: Tally, kind: Kind, r: J.Row)
    requires Sane(t)
    ensures Sane(OnKind(t, kind, r))
    ensures Claimed(OnKind(t, kind, r)) == Claimed(t) + (if KindClaims(kind, r) then 1 else 0)
  {
    if kind.IsCounter() { CounterCountsOnce(t.counted, kind); }
    if kind.CustomFields? { CountIfSetSum(t.fieldTypes, FieldTypeKey(r)); }
  }

  lemma RowClaimedOnce(t: Tally, r: J.Row)
    requires Sane(t)
    ensures Sane(OnRow(t, r)) && Claimed(OnRow(t, r)) == Claimed(t) + (if Claims(r) then 1 else 0)
  {
    KindClaimedOnce(t, KindOf(r.entity), r);
  }

  ghost function ClaimsIn(rs: seq<J.Row>): nat {
    if rs == [] then 0 else ClaimsIn(rs[..|rs| - 1]) + (if Claims(rs[|rs| - 1]) then 1 else 0)
  }

  /** Every delivered row lands in one class or, at most, in the remainder. */
  lemma {:induction false} RowsClaimedOnce(t: Tally, rs: seq<J.Row>)
    requires Sane(t)
    ensures Sane(OnRows(t, rs)) && Claimed(OnRows(t, rs)) == Claimed(t) + ClaimsIn(rs) && ClaimsIn(rs) <= |rs|
  {
    if rs != [] {
      RowsClaimedOnce(t, rs[..|rs| - 1]);
      RowClaimedOnce(OnRows(t, rs[..|rs| - 1]), rs[|rs| - 1]);
    }
  }

  lemma NothingClaimed(t: Tally)
    requires t == EMPTY
    ensures Sane(t) && Claimed(t) == 0
  {
    assert t.fieldTypes == map[];
  }

  lemma {:induction false} CollectedOnce(t: Tally, rs: seq<J.Row>)
    requires t == EMPTY
    ensures Sane(OnRows(t, rs)) && Claimed(OnRows(t, rs)) <= |rs|
  {
    NothingClaimed(t);
    RowsClaimedOnce(t, rs);
  }

  // ----- The collector ----------------------------------------------------------------------------

  class Collector {
    var projects: seq<Project>
    var fieldTypes: Counts
    var filters: seq<Q.Query>
    var issue: IssueTally
    var activity: ActivityTally
    var counted: Counters
    var lookups: Lookups

    ghost function Contents(): Tally
      reads this
    {
      Tally(projects, fieldTypes, filters, issue, activity, counted, lookups)
    }

    constructor ()
      ensures Contents() == EMPTY
    {
      projects, fieldTypes, filters := [], map[], [];
      issue, activity := IssueTally(0, map[], map[], map[], map[]), ActivityTally(0, 0, 0);
      counted, lookups := Counters(0, 0, 0, 0, 0, 0, 0), Lookups(0, map[], map[], map[]);
    }

    method HandleIssue(r: J.Row)
      modifies this`issue
      ensures issue == OnIssue(old(issue), r)
    {
      issue := issue.(issues := issue.issues + 1);
      issue := issue.(issueKeys := Bump(issue.issueKeys, J.Get(r, "project"), 1));
      issue := issue.(issueTypes := CountIfSet(issue.issueTypes, J.Get(r, "type")));
      issue := issue.(statuses := CountIfSet(issue.statuses, J.Get(r, "status")));
      issue := issue.(priorities := CountIfSet(issue.priorities, J.Get(r, "priority")));
    }

    method HandleAction(r: J.Row)
      modifies this`activity
      ensures activity == OnAction(old(activity), r)
    {
      activity := activity.(actions := activity.actions + 1);
      if !IsComment(r) {
        return;
      }
      activity := activity.(comments := activity.comments + 1);
      if IsRestricted(r) {
        activity := activity.(restricted := activity.restricted + 1);
      }
    }

    method HandleSavedFilter(r: J.Row)
      modifies this`filters
      ensures filters == old(filters) + [ClassifiedText(QueryText(r))]
    {
      var q := Q.Classify(QueryText(r));
      filters := filters + [q];
    }

    method Handle(r: J.Row)
      modifies this
      ensures Contents() == OnRow(old(Contents()), r)
    {
      HandleKind(KindOf(r.entity), r);
    }

    method HandleKind(kind: Kind, r: J.Row)
      modifies this
      ensures Contents() == OnKind(old(Contents()), kind, r)
    {
      if kind.IsCounter() {
        counted := OnCounter(counted, kind);
      } else if kind.IsLookup() {
        lookups := OnLookup(lookups, kind, r);
      } else {
        match kind {
          case Projects => projects := projects + [Project(J.Get(r, "id"), J.Get(r, "key"), J.Get(r, "name"))];
          case Issues => HandleIssue(r);
          case Actions => HandleAction(r);
          case CustomFields => fieldTypes := CountIfSet(fieldTypes, FieldTypeKey(r));
          case SavedFilters => HandleSavedFilter(r);
          case Unhandled =>
        }
      }
    }

    method HandleAll(rs: seq<J.Row>)
      modifies this
      ensures Contents() == OnRows(old(Contents()), rs)
    {
      for i := 0 to |rs|
        invariant Contents() == OnRows(old(Contents()), rs[..i])
      {
        assert rs[..i + 1][..i] == rs[..i];
        Handle(rs[i]);
      }
      assert rs[..|rs|] == rs;
    }
  }

  // ----- Resolving ids to names -----------------------------------------------------------------------

  function Target(names: Names, id: string): string { if id in names then names[id] else id }

  /** What is counted under the ids traded for this name. */
  ghost function Under(counts: Counts, names: Names, name: string): Counts {
    map id | id in counts && Target(names, id) == name :: counts[id]
  }

  /** Each name counts what the ids traded for it counted. */
  ghost predicate Renamed(counts: Counts, names: Names, out: Counts) {
    && out.Keys == Targets(names, counts.Keys)
    && forall name :: Get(out, name) == Sum(Under(counts, names, name))
  }

  /** A counter keyed by id becomes one keyed by name; an unknown id stands for itself and nothing is dropped. */
  method Resolve(counts: Counts, names: Names) returns (out: Counts)
    ensures Renamed(counts, names, out)
    ensures Sum(out) == Sum(counts)
  {
    out := map[];
    var pending := counts.Keys;
    assert counts - pending == map[];
    NothingRenamed(names);
    while pending != {}
      invariant pending <= counts.Keys
      invariant Sum(out) == Sum(counts - pending)
      invariant Renamed(counts - pending, names, out)
      decreases |pending|
    {
      var id :| id in pending;
      ghost var done := counts - pending;
      OneMoreDone(counts, pending, id);
      OneMoreRenamed(done, id, counts[id], names, out);
      out := BumpTarget(out, Target(names, id), counts[id]);
      pending := pending - {id};
    }
    assert counts - {} == counts;
  }

  method BumpTarget(m: Counts, name: string, n: nat) returns (out: Counts)
    ensures Sum(out) == Sum(m) + n && out == Bump(m, name, n)
  {
    BumpSum(m, name, n);
    out := Bump(m, name, n);
  }

  ghost function Targets(names: Names, ids: set<string>): set<string> { set id | id in ids :: Target(names, id) }

  lemma NothingRenamed(names: Names)
    ensures Renamed(map[], names, map[])
  {
    forall name ensures Under(map[], names, name) == map[] {}
  }

  lemma OneMoreDone(counts: Counts, pending: set<string>, id: string)
    requires id in pending && pending <= counts.Keys
    ensures id !in counts - pending && counts - (pending - {id}) == (counts - pending)[id := counts[id]]
    ensures Sum(counts - (pending - {id})) == Sum(counts - pending) + counts[id]
  {
    SumUpdate(counts - pending, id, counts[id]);
    assert counts - (pending - {id}) == (counts - pending)[id := counts[id]];
  }

  lemma UnderOneMore(done: Counts, id: string, n: nat, names: Names, name: string)
    requires id !in done
    ensures Sum(Under(done[id := n], names, name))
         == Sum(Under(done, names, name)) + (if Target(names, id) == name then n else 0)
  {
    var before, after := Under(done, names, name), Under(done[id := n], names, name);
    if Target(names, id) == name {
      assert after == before[id := n];
      SumUpdate(before, id, n);
    } else {
      assert after == before;
    }
  }

  lemma OneMoreRenamed(done: Counts, id: string, n: nat, names: Names, out: Counts)
    requires id !in done && Renamed(done, names, out)
    ensures Renamed(done[id := n], names, Bump(out, Target(names, id), n))
  {
    var target := Target(names, id);
    assert done[id := n].Keys == done.Keys + {id};
    assert Targets(names, done.Keys + {id}) == Targets(names, done.Keys) + {target};
    forall name ensures Get(Bump(out, target, n), name) == Sum(Under(done[id := n], names, name)) {
      UnderOneMore(done, id, n, names, name);
    }
  }

  // ----- Folding into the ledger ------------------------------------------------------------------------

  /** 0: a seeded kind; 1: its slug is accepted as written; 2: the slug is coerced. */
  function KindClass(name: string): nat {
    if IsSeededKind(Slug(name)) then 0 else if SlugChanges(name) then 2 else 1
  }

  function PriorityClass(name: string): nat { if IsPriority(name) then 0 else 1 }

  function FieldClass(fieldType: string): nat { Rank(FieldVerdict(fieldType)) }

  function CoercedIn(ps: seq<Project>): nat {
    if ps == [] then 0 else CoercedIn(ps[..|ps| - 1]) + (if KeyChanges(ps[|ps| - 1].key) then 1 else 0)
  }

  function VerdictsIn(qs: seq<Q.Query>, v: Q.Expressibility): nat {
    if qs == [] then 0 else VerdictsIn(qs[..|qs| - 1], v) + (if qs[|qs| - 1].verdict == v then 1 else 0)
  }

  function ProjectFindings(ps: seq<Project>): seq<Finding> {
    [Finding(Clean, |ps| - CoercedIn(ps), "key"), Finding(Approximated, CoercedIn(ps), "coerced")]
  }

  function ProjectEntries(ps: seq<Project>): seq<Entry> {
    [Entry(JiraProjects, false, |ps|, Positive(ProjectFindings(ps)))]
  }

  ghost function IssueTypesEntry(issueTypes: Counts): Entry {
    Entry(JiraIssueTypes, true, |issueTypes|, Positive([
      Finding(Clean, SumWhere(Ones(issueTypes), KindClass, 0), "seeded"),
      Finding(Approximated, SumWhere(Ones(issueTypes), KindClass, 1), "admin"),
      Finding(Approximated, SumWhere(Ones(issueTypes), KindClass, 2), "coerced")]))
  }

  ghost function PrioritiesEntry(priorities: Counts): Entry {
    Entry(JiraPriorities, true, |priorities|, Positive([
      Finding(Clean, SumWhere(Ones(priorities), PriorityClass, 0), "listed"),
      Finding(Approximated, SumWhere(Ones(priorities), PriorityClass, 1), "manual")]))
  }

  ghost function IssueEntries(t: IssueTally): seq<Entry> {
    [Whole(JiraIssues, t.issues, Clean, "item"),
     IssueTypesEntry(t.issueTypes),
     StatusesEntry(t.statuses),
     PrioritiesEntry(t.priorities)]
  }

  ghost function FieldEntries(fieldTypes: Counts, fieldValues: nat): seq<Entry> {
    [Entry(JiraCustomFields, false, Sum(fieldTypes), Positive([
       Finding(Clean, SumWhere(fieldTypes, FieldClass, 0), "direct"),
       Finding(Approximated, SumWhere(fieldTypes, FieldClass, 1), "retyped"),
       Finding(Unmappable, SumWhere(fieldTypes, FieldClass, 3), "none")])),
     Whole(JiraFieldValues, fieldValues, Approximated, "value")]
  }

  function CommentFindings(t: ActivityTally): seq<Finding> {
    [Finding(Clean, t.comments - t.restricted, "open"), Finding(Unmappable, t.restricted, "hidden")]
  }

  function CommentEntries(t: ActivityTally, attachments: nat): seq<Entry> {
    var other := if t.actions >= t.comments then t.actions - t.comments else 0;
    [Entry(JiraComments, false, t.comments, Positive(CommentFindings(t))),
     Whole(JiraActivity, other, Unmappable, "audit"),
     Whole(JiraAttachments, attachments, Clean, "file")]
  }

  function PeopleEntries(t: Counters): seq<Entry> {
    [Whole(JiraUsers, t.users, Approximated, "email"),
     Whole(JiraGroups, t.groups, Approximated, "team"),
     Whole(JiraMemberships, t.memberships, Approximated, "member")]
  }

  /** The remainder is not clamped: were it negative, reconciliation would fail. */
  ghost function RemainderEntries(t: Tally, rows: int): seq<Entry> {
    LastEntries(t.counted.links, t.counted.worklogs, t.lookups.rows, rows - Claimed(t))
  }

  function LastEntries(links: nat, worklogs: nat, lookups: nat, other: int): seq<Entry> {
    [Whole(JiraLinks, links, Unmappable, "link"), Whole(JiraWorklogs, worklogs, Unmappable, "time"),
     Whole(JiraLookups, lookups, Clean, "lookup"), Whole(JiraOther, other, Unmappable, "other")]
  }

  function FilterEntries(qs: seq<Q.Query>): seq<Entry> {
    [Entry(JiraFilters, false, |qs|, Positive([
      Finding(Clean, VerdictsIn(qs, Q.Expressible), "maps"),
      Finding(Approximated, VerdictsIn(qs, Q.Partial), "narrows"),
      Finding(Unmappable, VerdictsIn(qs, Q.NotExpressible), "none")]))]
  }

  /** All Jira classes, in report order. */
  ghost function JiraEntries(t: Tally, rows: int): seq<Entry> {
    Flat([ProjectEntries(t.projects), IssueEntries(t.issue), FieldEntries(t.fieldTypes, t.counted.fieldValues),
          CommentEntries(t.activity, t.counted.attachments), PeopleEntries(t.counted), RemainderEntries(t, rows),
          FilterEntries(t.filters)])
  }

  lemma JiraOrder(t: Tally, rows: int)
    ensures JiraEntries(t, rows)
      == ProjectEntries(t.projects) + IssueEntries(t.issue) + FieldEntries(t.fieldTypes, t.counted.fieldValues)
         + CommentEntries(t.activity, t.counted.attachments) + PeopleEntries(t.counted) + RemainderEntries(t, rows)
         + FilterEntries(t.filters)
  {
    FlatOfSeven(ProjectEntries(t.projects), IssueEntries(t.issue), FieldEntries(t.fieldTypes, t.counted.fieldValues),
      CommentEntries(t.activity, t.counted.attachments), PeopleEntries(t.counted), RemainderEntries(t, rows),
      FilterEntries(t.filters));
  }

  method CountCoerced(ps: seq<Project>) returns (coerced: nat)
    ensures coerced == CoercedIn(ps)
  {
    coerced := 0;
    for i := 0 to |ps|
      invariant coerced == CoercedIn(ps[..i])
    {
      assert ps[..i + 1][..i] == ps[..i];
      if KeyChanges(ps[i].key) {
        coerced := coerced + 1;
      }
    }
    assert ps[..|ps|] == ps;
  }

  method FoldProjects(ps: seq<Project>, l: Ledger)
    requires l.Valid() && Unused(l.Contents(), JiraProjects)
    modifies l
    ensures forall c :: c in l.classes ==> c in old(l.classes) || fresh(c)
    ensures l.Valid() && l.Contents() == old(l.Contents()) + ProjectEntries(ps)
  {
    var coerced := CountCoerced(ps);
    var findings := [Finding(Clean, |ps| - coerced, "key"), Finding(Approximated, coerced, "coerced")];
    assert findings == ProjectFindings(ps);
    Record(l, JiraProjects, false, |ps|, findings);
  }

  method FoldIssues(t: IssueTally, l: Ledger)
    requires l.Valid() && Unused(l.Contents(), JiraIssues) && Unused(l.Contents(), JiraIssueTypes)
    requires Unused(l.Contents(), JiraStatuses) && Unused(l.Contents(), JiraPriorities)
    modifies l
    ensures forall c :: c in l.classes ==> c in old(l.classes) || fresh(c)
    ensures l.Valid() && l.Contents() == old(l.Contents()) + IssueEntries(t)
  {
    FoldIssuesAndTypes(t, l);
    FoldStatusesAndPriorities(t, l);
  }

  method FoldIssuesAndTypes(t: IssueTally, l: Ledger)
    requires l.Valid() && Unused(l.Contents(), JiraIssues) && Unused(l.Contents(), JiraIssueTypes)
    modifies l
    ensures forall c :: c in l.classes ==> c in old(l.classes) || fresh(c)
    ensures l.Valid()
    ensures l.Contents()
            == old(l.Contents()) + [Whole(JiraIssues, t.issues, Clean, "item"), IssueTypesEntry(t.issueTypes)]
  {
    RecordWhole(l, JiraIssues, t.issues, Clean, "item");
    FoldIssueTypes(t.issueTypes, l);
  }

  function StatusesEntry(statuses: Counts): Entry {
    Entry(JiraStatuses, true, |statuses|, Positive([Finding(Clean, |statuses|, "text")]))
  }

  method FoldStatusesAndPriorities(t: IssueTally, l: Ledger)
    requires l.Valid() && Unused(l.Contents(), JiraStatuses) && Unused(l.Contents(), JiraPriorities)
    modifies l
    ensures forall c :: c in l.classes ==> c in old(l.classes) || fresh(c)
    ensures l.Valid()
    ensures l.Contents() == old(l.Contents()) + [StatusesEntry(t.statuses), PrioritiesEntry(t.priorities)]
  {
    Record(l, JiraStatuses, true, |t.statuses|, [Finding(Clean, |t.statuses|, "text")]);
    FoldPriorities(t.priorities, l);
  }

  method FoldIssueTypes(issueTypes: Counts, l: Ledger)
    requires l.Valid() && Unused(l.Contents(), JiraIssueTypes)
    modifies l
    ensures forall c :: c in l.classes ==> c in old(l.classes) || fresh(c)
    ensures l.Valid() && l.Contents() == old(l.Contents()) + [IssueTypesEntry(issueTypes)]
  {
    var n := SumClasses(Ones(issueTypes), KindClass);
    Record(l, JiraIssueTypes, true, |issueTypes|, [
      Finding(Clean, n[0], "seeded"),
      Finding(Approximated, n[1], "admin"),
      Finding(Approximated, n[2], "coerced")]);
  }

  method FoldPriorities(priorities: Counts, l: Ledger)
    requires l.Valid() && Unused(l.Contents(), JiraPriorities)
    modifies l
    ensures forall c :: c in l.classes ==> c in old(l.classes) || fresh(c)
    ensures l.Valid() && l.Contents() == old(l.Contents()) + [PrioritiesEntry(priorities)]
  {
    var n := SumClasses(Ones(priorities), PriorityClass);
    Record(l, JiraPriorities, true, |priorities|, [
      Finding(Clean, n[0], "listed"),
      Finding(Approximated, n[1], "manual")]);
  }

  method FoldCustomFields(fieldTypes: Counts, fieldValues: nat, l: Ledger)
    requires l.Valid() && Unused(l.Contents(), JiraCustomFields) && Unused(l.Contents(), JiraFieldValues)
    modifies l
    ensures forall c :: c in l.classes ==> c in old(l.classes) || fresh(c)
    ensures l.Valid() && l.Contents() == old(l.Contents()) + FieldEntries(fieldTypes, fieldValues)
  {
    FieldClasses(fieldTypes);
    var total := SumCounts(fieldTypes);
    var n := SumClasses(fieldTypes, FieldClass);
    Record(l, JiraCustomFields, false, total, [
      Finding(Clean, n[0], "direct"),
      Finding(Approximated, n[1], "retyped"),
      Finding(Unmappable, n[3], "none")]);
    RecordWhole(l, JiraFieldValues, fieldValues, Approximated, "value");
  }

  lemma FieldClasses(fieldTypes: Counts)
    ensures forall ft :: ft in fieldTypes ==> FieldClass(ft) < 4 && FieldClass(ft) != 2
  {
    forall ft | ft in fieldTypes ensures FieldClass(ft) < 4 && FieldClass(ft) != 2 { FieldClassRange(ft); }
  }

  lemma FieldClassRange(fieldType: string)
    ensures FieldClass(fieldType) in {0, 1, 3}
  {
  }

  /** The table knows three of the four verdicts, so the three findings are the whole class. */
  lemma {:induction false} FieldsPartition(fieldTypes: Counts)
    ensures Sum(fieldTypes) ==
              SumWhere(fieldTypes, FieldClass, 0) + SumWhere(fieldTypes, FieldClass, 1)
              + SumWhere(fieldTypes, FieldClass, 3)
  {
    FieldClasses(fieldTypes);
    ClassesPartition(fieldTypes, FieldClass);
    assert Where(fieldTypes, FieldClass, 2) == map[];
  }

  method FoldComments(t: ActivityTally, attachments: nat, l: Ledger)
    requires l.Valid() && Unused(l.Contents(), JiraComments) && Unused(l.Contents(), JiraActivity)
    requires Unused(l.Contents(), JiraAttachments)
    modifies l
    ensures forall c :: c in l.classes ==> c in old(l.classes) || fresh(c)
    ensures l.Valid() && l.Contents() == old(l.Contents()) + CommentEntries(t, attachments)
  {
    var findings := [Finding(Clean, t.comments - t.restricted, "open"), Finding(Unmappable, t.restricted, "hidden")];
    assert findings == CommentFindings(t);
    Record(l, JiraComments, false, t.comments, findings);
    var other := if t.actions >= t.comments then t.actions - t.comments else 0;
    RecordTwo(l, Share(JiraActivity, other, Unmappable, "audit"), Share(JiraAttachments, attachments, Clean, "file"));
  }

  method FoldPeople(t: Counters, l: Ledger)
    requires l.Valid() && Unused(l.Contents(), JiraUsers) && Unused(l.Contents(), JiraGroups)
    requires Unused(l.Contents(), JiraMemberships)
    modifies l
    ensures forall c :: c in l.classes ==> c in old(l.classes) || fresh(c)
    ensures l.Valid() && l.Contents() == old(l.Contents()) + PeopleEntries(t)
  {
    RecordWhole(l, JiraUsers, t.users, Approximated, "email");
    RecordWhole(l, JiraGroups, t.groups, Approximated, "team");
    RecordWhole(l, JiraMemberships, t.memberships, Approximated, "member");
  }

  method FoldRemainder(t: Tally, claimed: nat, rows: int, l: Ledger)
    requires claimed == Claimed(t)
    requires l.Valid() && Unused(l.Contents(), JiraLinks) && Unused(l.Contents(), JiraWorklogs)
    requires Unused(l.Contents(), JiraLookups) && Unused(l.Contents(), JiraOther)
    modifies l
    ensures forall c :: c in l.classes ==> c in old(l.classes) || fresh(c)
    ensures l.Valid() && l.Contents() == old(l.Contents()) + RemainderEntries(t, rows)
  {
    RecordTwo(l, Share(JiraLinks, t.counted.links, Unmappable, "link"),
              Share(JiraWorklogs, t.counted.worklogs, Unmappable, "time"));
    RecordTwo(l, Share(JiraLookups, t.lookups.rows, Clean, "lookup"),
              Share(JiraOther, rows - claimed, Unmappable, "other"));
  }

  method FoldFilters(qs: seq<Q.Query>, l: Ledger)
    requires l.Valid() && Unused(l.Contents(), JiraFilters)
    modifies l
    ensures forall c :: c in l.classes ==> c in old(l.classes) || fresh(c)
    ensures l.Valid() && l.Contents() == old(l.Contents()) + FilterEntries(qs)
  {
    var expressible, partially, not := 0, 0, 0;
    for i := 0 to |qs|
      invariant expressible == VerdictsIn(qs[..i], Q.Expressible)
      invariant partially == VerdictsIn(qs[..i], Q.Partial)
      invariant not == VerdictsIn(qs[..i], Q.NotExpressible)
    {
      assert qs[..i + 1][..i] == qs[..i];
      match qs[i].verdict {
        case Expressible => expressible := expressible + 1;
        case Partial => partially := partially + 1;
        case NotExpressible => not := not + 1;
      }
    }
    assert qs[..|qs|] == qs;
    Record(l, JiraFilters, false, |qs|, [
      Finding(Clean, expressible, "maps"),
      Finding(Approximated, partially, "narrows"),
      Finding(Unmappable, not, "none")]);
  }

  // ----- The ledger always closes --------------------------------------------------------------------------

  lemma {:induction false} VerdictsPartition(qs: seq<Q.Query>)
    ensures VerdictsIn(qs, Q.Expressible) + VerdictsIn(qs, Q.Partial) + VerdictsIn(qs, Q.NotExpressible) == |qs|
  {
    if qs != [] { VerdictsPartition(qs[..|qs| - 1]); }
  }

  lemma {:induction false} CoercedAtMost(ps: seq<Project>)
    ensures CoercedIn(ps) <= |ps|
  {
    if ps != [] { CoercedAtMost(ps[..|ps| - 1]); }
  }

  lemma ProjectsClose(ps: seq<Project>)
    ensures AllReconciled(ProjectEntries(ps)) && RowsObserved(ProjectEntries(ps)) == |ps|
  {
    CoercedAtMost(ps);
    var e := ProjectEntries(ps)[0];
    Closes2(e, Finding(Clean, |ps| - CoercedIn(ps), "key"),
            Finding(Approximated, CoercedIn(ps), "coerced"));
    RowsOfThree(e, e, e);
    assert ProjectEntries(ps) == [e];
  }

  lemma IssueTypesClose(issueTypes: Counts)
    ensures Reconciled(IssueTypesEntry(issueTypes))
  {
    var m := Ones(issueTypes);
    ClassesPartition(m, KindClass);
    OnesSum(issueTypes);
    assert Where(m, KindClass, 3) == map[];
    Closes3(IssueTypesEntry(issueTypes),
            Finding(Clean, SumWhere(m, KindClass, 0), "seeded"),
            Finding(Approximated, SumWhere(m, KindClass, 1), "admin"),
            Finding(Approximated, SumWhere(m, KindClass, 2), "coerced"));
  }

  lemma PrioritiesClose(priorities: Counts)
    ensures Reconciled(PrioritiesEntry(priorities))
  {
    var m := Ones(priorities);
    ClassesPartition(m, PriorityClass);
    OnesSum(priorities);
    assert Where(m, PriorityClass, 2) == map[] && Where(m, PriorityClass, 3) == map[];
    Closes2(PrioritiesEntry(priorities),
            Finding(Clean, SumWhere(m, PriorityClass, 0), "listed"),
            Finding(Approximated, SumWhere(m, PriorityClass, 1), "manual"));
  }

  lemma IssuesClose(t: IssueTally)
    ensures AllReconciled(IssueEntries(t)) && RowsObserved(IssueEntries(t)) == t.issues
  {
    var es := IssueEntries(t);
    WholeCloses(JiraIssues, t.issues, Clean, "item");
    IssueTypesClose(t.issueTypes);
    Closes1(es[2], Finding(Clean, |t.statuses|, "text"));
    PrioritiesClose(t.priorities);
    RowsOfFour(es[0], es[1], es[2], es[3]);
  }

  lemma {:induction false} FieldsClose(fieldTypes: Counts, fieldValues: nat)
    ensures AllReconciled(FieldEntries(fieldTypes, fieldValues))
    ensures RowsObserved(FieldEntries(fieldTypes, fieldValues)) == Sum(fieldTypes) + fieldValues
  {
    var es := FieldEntries(fieldTypes, fieldValues);
    FieldsPartition(fieldTypes);
    Closes3(es[0],
            Finding(Clean, SumWhere(fieldTypes, FieldClass, 0), "direct"),
            Finding(Approximated, SumWhere(fieldTypes, FieldClass, 1), "retyped"),
            Finding(Unmappable, SumWhere(fieldTypes, FieldClass, 3), "none"));
    WholeCloses(JiraFieldValues, fieldValues, Approximated, "value");
    RowsOfThree(es[0], es[1], es[1]);
  }

  lemma CommentsClose(t: ActivityTally, attachments: nat)
    requires t.restricted <= t.comments <= t.actions
    ensures AllReconciled(CommentEntries(t, attachments))
    ensures RowsObserved(CommentEntries(t, attachments)) == t.actions + attachments
  {
    var es := CommentEntries(t, attachments);
    Closes2(es[0], Finding(Clean, t.comments - t.restricted, "open"),
            Finding(Unmappable, t.restricted, "hidden"));
    WholeCloses(JiraActivity, t.actions - t.comments, Unmappable, "audit");
    WholeCloses(JiraAttachments, attachments, Clean, "file");
    AllOfThree(es[0], es[1], es[2]);
    RowsOfThree(es[0], es[1], es[2]);
  }

  lemma PeopleClose(t: Counters)
    ensures AllReconciled(PeopleEntries(t)) && RowsObserved(PeopleEntries(t)) == t.users + t.groups + t.memberships
  {
    var es := PeopleEntries(t);
    WholeCloses(JiraUsers, t.users, Approximated, "email");
    WholeCloses(JiraGroups, t.groups, Approximated, "team");
    WholeCloses(JiraMemberships, t.memberships, Approximated, "member");
    RowsOfThree(es[0], es[1], es[2]);
  }

  lemma LastClose(links: nat, worklogs: nat, lookups: nat, other: int)
    ensures AllReconciled(LastEntries(links, worklogs, lookups, other)) <==> other >= 0
    ensures RowsObserved(LastEntries(links, worklogs, lookups, other)) == links + worklogs + lookups + other
  {
    var es := LastEntries(links, worklogs, lookups, other);
    WholeCloses(JiraLinks, links, Unmappable, "link");
    WholeCloses(JiraWorklogs, worklogs, Unmappable, "time");
    WholeCloses(JiraLookups, lookups, Clean, "lookup");
    WholeClosesExactly(JiraOther, other, Unmappable, "other");
    AllOfFour(es[0], es[1], es[2], es[3]);
    RowsOfFour(es[0], es[1], es[2], es[3]);
  }

  /** The remainder closes exactly when it is not negative. */
  lemma RemainderCloses(t: Tally, rows: int)
    ensures AllReconciled(RemainderEntries(t, rows)) <==> Claimed(t) <= rows
    ensures RowsObserved(RemainderEntries(t, rows))
            == t.counted.links + t.counted.worklogs + t.lookups.rows + (rows - Claimed(t))
  {
    LastClose(t.counted.links, t.counted.worklogs, t.lookups.rows, rows - Claimed(t));
  }

  lemma FiltersClose(qs: seq<Q.Query>)
    ensures AllReconciled(FilterEntries(qs)) && RowsObserved(FilterEntries(qs)) == |qs|
  {
    VerdictsPartition(qs);
    var e := FilterEntries(qs)[0];
    Closes3(e, Finding(Clean, VerdictsIn(qs, Q.Expressible), "maps"),
            Finding(Approximated, VerdictsIn(qs, Q.Partial), "narrows"),
            Finding(Unmappable, VerdictsIn(qs, Q.NotExpressible), "none"));
    RowsOfThree(e, e, e);
    assert FilterEntries(qs) == [e];
  }

  /** Whatever was tallied, the Jira classes close and account for every row the parser counted,
      exactly when no row was claimed twice. */
  lemma JiraLedgerCloses(t: Tally, rows: int)
    requires Sane(t)
    ensures AllReconciled(JiraEntries(t, rows)) <==> Claimed(t) <= rows
    ensures RowsObserved(JiraEntries(t, rows)) == rows
  {
    JiraOrder(t, rows);
    ProjectsClose(t.projects);
    IssuesClose(t.issue);
    FieldsClose(t.fieldTypes, t.counted.fieldValues);
    CommentsClose(t.activity, t.counted.attachments);
    PeopleClose(t.counted);
    RemainderCloses(t, rows);
    FiltersClose(t.filters);
    var a := ProjectEntries(t.projects);
    var b := a + IssueEntries(t.issue);
    var c := b + FieldEntries(t.fieldTypes, t.counted.fieldValues);
    var d := c + CommentEntries(t.activity, t.counted.attachments);
    var e := d + PeopleEntries(t.counted);
    var f := e + RemainderEntries(t, rows);
    RowsConcat(a, IssueEntries(t.issue));
    RowsConcat(b, FieldEntries(t.fieldTypes, t.counted.fieldValues));
    RowsConcat(c, CommentEntries(t.activity, t.counted.attachments));
    RowsConcat(d, PeopleEntries(t.counted));
    RowsConcat(e, RemainderEntries(t, rows));
    RowsConcat(f, FilterEntries(t.filters));
  }
}
