/**
  The whole assessment, internal/assess/run.go with the two halves: scan, tally, fold, and
  then check the ledger's own arithmetic.

  The check never fails.  Whatever the two token streams are, broken or not, alone or
  together, the folded ledger reconciles and accounts for every row the parsers counted.
 */
module Assess {
  import opened AssessLedger
  import opened Census
  import X = Xml
  import JE = JiraEntities
  import JA = JiraAssess
  import CE = ConfluenceEntities
  import CS = ConfluenceScan
  import CA = ConfluenceAssess

  /** A token stream, and whether it breaks where the tokens run out. */
  datatype Stream = Stream(tokens: seq<X.Token>, faulty: bool)

  datatype Input = Absent | Given(stream: Stream)

  datatype Result =
    | Assessed(entries: seq<Entry>, rows: nat)
    | NotAJiraExport
    | JiraHandlerFailed
    | NotAConfluenceExport
    | Unreconciled

  /** What a run is set up with: the entities each half wants delivered, where a handler would
      fail, and the decoder that turns a body into tokens. */
  datatype Setup = Setup(jira: JE.Handlers, confluence: CS.Handlers, decode: CA.Decode)

  /** The set-up of the real run: everything the collectors classify, and handlers that never fail. */
  function Standard(decode: CA.Decode): Setup {
    Setup(JE.Handlers(JA.WANTED, (_: JE.Row) => false), CS.Handlers(CA.WANTED, (_: CE.Object) => false), decode)
  }

  function JiraScan(p: Setup, s: Stream): JE.Outcome { JE.ScanExport(p.jira, s.tokens, s.faulty) }

  function ConfluenceScan(p: Setup, s: Stream): CS.Outcome { CS.ScanExport(p.confluence, s.tokens, s.faulty) }

  /** What the Jira parser makes of a stream. */
  ghost predicate JiraScansTo(p: Setup, s: Stream, o: JE.Outcome) { o == JiraScan(p, s) }

  ghost predicate ConfluenceScansTo(p: Setup, s: Stream, o: CS.Outcome) { o == ConfluenceScan(p, s) }

  /** How far a half got with its stream. */
  datatype Read = Through | NotAnExport | HandlerFailed

  /** A stream whose first element is not an export's fails the run, and so does a failing Jira handler. */
  function ReadOf(o: JE.Outcome): Read {
    if !o.Scanned? then NotAnExport else if o.scan.stopped then HandlerFailed else Through
  }

  function JiraRead(p: Setup, i: Input): Read { if i.Absent? then Through else ReadOf(JiraScan(p, i.stream)) }

  /** The stream is there and its first element is not an export's.  A failing Confluence handler
      ends the scan like a fault, and the run goes on. */
  predicate BadConfluence(p: Setup, i: Input) { i.Given? && !ConfluenceScan(p, i.stream).Scanned? }

  /** These classes, for this many rows, are what the Jira half makes of its input: as many rows as
      the parser counted, and the delivered rows tallied, resolved and folded. */
  ghost predicate JiraReport(p: Setup, i: Input, rows: nat, es: seq<Entry>) {
    if i.Absent? then rows == 0 && es == []
    else forall o :: JiraScansTo(p, i.stream, o) ==> JiraReportOf(o, rows, es)
  }

  ghost predicate JiraReportOf(o: JE.Outcome, rows: nat, es: seq<Entry>) {
    && ReadOf(o).Through? && rows == o.scan.rows
    && exists t :: ResolvedFrom(JA.OnRows(JA.EMPTY, o.scan.delivered), t) && es == JA.JiraEntries(t, rows)
  }

  ghost predicate ConfluenceReport(p: Setup, i: Input, total: nat, es: seq<Entry>) {
    if i.Absent? then total == 0 && es == []
    else forall o :: ConfluenceScansTo(p, i.stream, o) ==> ConfluenceReportOf(p, o, total, es)
  }

  ghost predicate ConfluenceReportOf(p: Setup, o: CS.Outcome, total: nat, es: seq<Entry>) {
    && o.Scanned? && total == o.scan.total
    && es == CA.ConfluenceEntries(CA.OnObjects(CA.EMPTY, p.decode, o.scan.delivered),
                                  CA.MacrosAfter(map[], p.decode, o.scan.delivered), total)
  }

  /** The whole report: both halves, every class with its findings put in report order. */
  ghost predicate IsReport(p: Setup, jira: Input, confluence: Input, rows: nat, es: seq<Entry>) {
    exists r: nat, a: seq<Entry>, t: nat, b: seq<Entry> ::
      JiraReport(p, jira, r, a) && ConfluenceReport(p, confluence, t, b) && rows == r + t && AllNormalised(a + b, es)
  }

  /** `t` is the tally with type, status and priority ids traded for the names the lookups gave
      them; trading an id loses no issue. */
  ghost predicate ResolvedFrom(before: JA.Tally, t: JA.Tally) {
    && t == before.(issue := t.issue)
    && t.issue.issues == before.issue.issues && t.issue.issueKeys == before.issue.issueKeys
    && NamedFrom(before.issue.issueTypes, before.lookups.typeNames, t.issue.issueTypes)
    && NamedFrom(before.issue.statuses, before.lookups.statusNames, t.issue.statuses)
    && NamedFrom(before.issue.priorities, before.lookups.priorityNames, t.issue.priorities)
  }

  ghost predicate NamedFrom(byID: Counts, names: JA.Names, byName: Counts) {
    Sum(byName) == Sum(byID) && JA.Renamed(byID, names, byName)
  }

  ghost predicate AllNormalised(before: seq<Entry>, after: seq<Entry>) {
    |after| == |before| && forall i :: 0 <= i < |before| ==> after[i] == Normalised(before[i])
  }

  /** The step of the fold that records a class. */
  function Step(name: Title): nat {
    match name
    case JiraProjects => 0
    case JiraIssues | JiraIssueTypes | JiraStatuses | JiraPriorities => 1
    case JiraCustomFields | JiraFieldValues => 2
    case JiraComments | JiraActivity | JiraAttachments => 3
    case JiraUsers | JiraGroups | JiraMemberships => 4
    case JiraLinks | JiraWorklogs | JiraLookups | JiraOther => 5
    case JiraFilters => 6
    case ConfluenceSpaces => 7
    case ConfluencePages => 8
    case ConfluenceBlogs | ConfluenceComments | ConfluenceAttachments | ConfluenceLabels => 9
    case ConfluenceMacros => 10
    case ConfluenceUsers | ConfluenceGroups | ConfluenceMemberships => 11
    case ConfluenceBodies | ConfluenceOther => 12
  }

  ghost predicate Before(es: seq<Entry>, step: nat) { forall e :: e in es ==> Step(e.name) < step }

  ghost predicate At(es: seq<Entry>, step: nat) { forall e :: e in es ==> Step(e.name) == step }

  lemma NextStep(done: seq<Entry>, es: seq<Entry>, step: nat)
    requires Before(done, step) && At(es, step)
    ensures Before(done + es, step + 1)
  {
  }

  /** A class no step so far records is not there yet. */
  lemma NotYet(es: seq<Entry>, step: nat, name: Title)
    requires Before(es, step) && step <= Step(name)
    ensures Unused(es, name)
  {
  }

  lemma ProjectStep(t: JA.Tally)
    ensures At(JA.ProjectEntries(t.projects), 0)
  {
  }

  lemma IssueStep(t: JA.Tally)
    ensures At(JA.IssueEntries(t.issue), 1)
  {
  }

  lemma FieldStep(t: JA.Tally)
    ensures At(JA.FieldEntries(t.fieldTypes, t.counted.fieldValues), 2)
  {
  }

  lemma ActivityStep(t: JA.Tally)
    ensures At(JA.CommentEntries(t.activity, t.counted.attachments), 3)
  {
  }

  lemma JiraPeopleStep(t: JA.Tally)
    ensures At(JA.PeopleEntries(t.counted), 4)
  {
  }

  lemma JiraRestSteps(t: JA.Tally, rows: int)
    ensures At(JA.RemainderEntries(t, rows), 5) && At(JA.FilterEntries(t.filters), 6)
  {
  }

  lemma SpaceStep(t: CA.Tally)
    ensures At(CA.SpaceEntries(t.spaces), 7)
  {
  }

  lemma PageAndMacroSteps(t: CA.Tally, macros: Counts)
    ensures At([CA.PageEntry(t.pages)], 8) && At([CA.MacroEntry(macros)], 10)
  {
  }

  lemma ContentSteps(t: CA.Tally)
    ensures At(CA.ContentEntries(t.counted), 9)
  {
  }

  lemma ConfluencePeopleStep(t: CA.Tally)
    ensures At(CA.PeopleEntries(t.counted), 11)
  {
  }

  // ----- Rows are not claimed twice ------------------------------------------------------------------------

  /** Every row delivered from any stream was counted first. */
  lemma JiraDeliveriesCounted(p: Setup, s: Stream)
    requires JiraScan(p, s).Scanned?
    ensures |JiraScan(p, s).scan.delivered| <= JiraScan(p, s).scan.rows
    decreases |s.tokens|
  {
    if s.tokens[0].Start? {
      assert Sum(JE.EMPTY.entities) == 0;
      JE.AnyStreamIsAccounted(p.jira, s.tokens[1..], s.faulty, JE.EMPTY);
    } else {
      JiraDeliveriesCounted(p, Stream(s.tokens[1..], s.faulty));
    }
  }

  lemma ConfluenceDeliveriesCounted(p: Setup, s: Stream)
    requires ConfluenceScan(p, s).Scanned?
    ensures |ConfluenceScan(p, s).scan.delivered| <= ConfluenceScan(p, s).scan.total
    decreases |s.tokens|
  {
    if s.tokens[0].Start? {
      assert Sum(CS.EMPTY.objects) == 0;
      CS.AnyStreamIsAccounted(p.confluence, s.tokens[1..], s.faulty, CS.EMPTY);
    } else {
      ConfluenceDeliveriesCounted(p, Stream(s.tokens[1..], s.faulty));
    }
  }

  /** The real run's handlers never fail, so a stream that is an export is always read through. */
  lemma StandardReadsThrough(decode: CA.Decode, i: Input)
    ensures !JiraRead(Standard(decode), i).HandlerFailed?
  {
    if i.Given? && JiraScan(Standard(decode), i.stream).Scanned? { NeverStops(Standard(decode), i.stream); }
  }

  lemma NeverStops(p: Setup, s: Stream)
    requires forall row :: !p.jira.fails(row)
    requires JiraScan(p, s).Scanned?
    ensures !JiraScan(p, s).scan.stopped
    decreases |s.tokens|
  {
    if s.tokens[0].Start? {
      JE.StopsAtAFailure(p.jira, s.tokens[1..], s.faulty, JE.EMPTY);
    } else {
      NeverStops(p, Stream(s.tokens[1..], s.faulty));
    }
  }

  // ----- What is folded always closes ---------------------------------------------------------------------

  /** Whatever the Jira stream holds, broken or not: every class closes, and the row-based classes
      account for exactly the rows the parser counted. */
  lemma {:induction false} JiraReportCloses(p: Setup, i: Input, rows: nat, es: seq<Entry>)
    requires JiraReport(p, i, rows, es)
    ensures AllReconciled(es) && RowsObserved(es) == rows
  {
    if i.Given? {
      var o := JiraScan(p, i.stream);
      assert JiraScansTo(p, i.stream, o);
      JiraDeliveriesCounted(p, i.stream);
      JiraReportOfCloses(o, rows, es);
    }
  }

  lemma {:induction false} JiraReportOfCloses(o: JE.Outcome, rows: nat, es: seq<Entry>)
    requires JiraReportOf(o, rows, es) && |o.scan.delivered| <= o.scan.rows
    ensures AllReconciled(es) && RowsObserved(es) == rows
  {
    var t :| ResolvedFrom(JA.OnRows(JA.EMPTY, o.scan.delivered), t) && es == JA.JiraEntries(t, rows);
    JA.CollectedOnce(JA.EMPTY, o.scan.delivered);
    JA.JiraLedgerCloses(t, rows);
  }

  lemma {:induction false} ConfluenceReportCloses(p: Setup, i: Input, total: nat, es: seq<Entry>)
    requires ConfluenceReport(p, i, total, es)
    ensures AllReconciled(es) && RowsObserved(es) == total
  {
    if i.Given? {
      var o := ConfluenceScan(p, i.stream);
      assert ConfluenceScansTo(p, i.stream, o);
      ConfluenceDeliveriesCounted(p, i.stream);
      ConfluenceReportOfCloses(p, o, total, es);
    }
  }

  lemma {:induction false} ConfluenceReportOfCloses(p: Setup, o: CS.Outcome, total: nat, es: seq<Entry>)
    requires ConfluenceReportOf(p, o, total, es) && |o.scan.delivered| <= o.scan.total
    ensures AllReconciled(es) && RowsObserved(es) == total
  {
    var t := CA.OnObjects(CA.EMPTY, p.decode, o.scan.delivered);
    CA.CollectedOnce(CA.EMPTY, p.decode, o.scan.delivered);
    CA.ConfluenceLedgerCloses(t, CA.MacrosAfter(map[], p.decode, o.scan.delivered), total);
  }

  // ----- The two halves ------------------------------------------------------------------------------------

  /** Replaces ids by the names the lookups gave them. */
  method ResolveAll(t: JA.Tally) returns (resolved: JA.Tally)
    ensures ResolvedFrom(t, resolved)
  {
    var types := JA.Resolve(t.issue.issueTypes, t.lookups.typeNames);
    var statuses := JA.Resolve(t.issue.statuses, t.lookups.statusNames);
    var priorities := JA.Resolve(t.issue.priorities, t.lookups.priorityNames);
    resolved := t.(issue := t.issue.(issueTypes := types, statuses := statuses, priorities := priorities));
  }

  method CountClaimed(t: JA.Tally) returns (claimed: nat)
    ensures claimed == JA.Claimed(t)
  {
    var fields := SumCounts(t.fieldTypes);
    claimed := |t.projects| + t.issue.issues + t.activity.actions + JA.CountedIn(t.counted) + fields
               + |t.filters| + t.lookups.rows;
  }

  /** Folds every Jira class, in report order. */
  method FoldJira(t: JA.Tally, rows: nat, l: Ledger)
    requires l.Valid() && l.Contents() == []
    modifies l
    ensures forall c :: c in l.classes ==> c in old(l.classes) || fresh(c)
    ensures l.Valid() && l.Contents() == JA.JiraEntries(t, rows) && Before(l.Contents(), 7)
  {
    JA.JiraOrder(t, rows);
    FoldJiraHead(t, l);
    FoldJiraTail(t, rows, l, l.Contents());
  }

  method FoldJiraHead(t: JA.Tally, l: Ledger)
    requires l.Valid() && l.Contents() == []
    modifies l
    ensures forall c :: c in l.classes ==> c in old(l.classes) || fresh(c)
    ensures l.Valid() && Before(l.Contents(), 3)
    ensures l.Contents() == JA.ProjectEntries(t.projects) + JA.IssueEntries(t.issue)
                            + JA.FieldEntries(t.fieldTypes, t.counted.fieldValues)
  {
    ProjectStep(t);
    NotYet(l.Contents(), 0, JiraProjects);
    JA.FoldProjects(t.projects, l);
    assert l.Contents() == JA.ProjectEntries(t.projects);
    FoldJiraIssues(t, l, l.Contents());
  }

  method FoldJiraTail(t: JA.Tally, rows: nat, l: Ledger, ghost done: seq<Entry>)
    requires l.Valid() && l.Contents() == done && Before(done, 3)
    modifies l
    ensures forall c :: c in l.classes ==> c in old(l.classes) || fresh(c)
    ensures l.Valid() && Before(l.Contents(), 7)
    ensures l.Contents() == done + JA.CommentEntries(t.activity, t.counted.attachments) + JA.PeopleEntries(t.counted)
                            + JA.RemainderEntries(t, rows) + JA.FilterEntries(t.filters)
  {
    var claimed := CountClaimed(t);
    FoldJiraActivity(t, l, done);
    FoldJiraRest(t, claimed, rows, l,
      done + JA.CommentEntries(t.activity, t.counted.attachments) + JA.PeopleEntries(t.counted));
  }

  method FoldJiraIssues(t: JA.Tally, l: Ledger, ghost done: seq<Entry>)
    requires l.Valid() && l.Contents() == done && Before(done, 1)
    modifies l
    ensures forall c :: c in l.classes ==> c in old(l.classes) || fresh(c)
    ensures l.Valid()
    ensures l.Contents() == done + JA.IssueEntries(t.issue) + JA.FieldEntries(t.fieldTypes, t.counted.fieldValues)
    ensures Before(l.Contents(), 3)
  {
    IssueStep(t);
    FieldStep(t);
    JA.FoldIssues(t.issue, l);
    NextStep(done, JA.IssueEntries(t.issue), 1);
    JA.FoldCustomFields(t.fieldTypes, t.counted.fieldValues, l);
  }

  method FoldJiraActivity(t: JA.Tally, l: Ledger, ghost done: seq<Entry>)
    requires l.Valid() && l.Contents() == done && Before(done, 3)
    modifies l
    ensures forall c :: c in l.classes ==> c in old(l.classes) || fresh(c)
    ensures l.Valid()
    ensures l.Contents() == done + JA.CommentEntries(t.activity, t.counted.attachments) + JA.PeopleEntries(t.counted)
    ensures Before(l.Contents(), 5)
  {
    ActivityStep(t);
    JiraPeopleStep(t);
    JA.FoldComments(t.activity, t.counted.attachments, l);
    NextStep(done, JA.CommentEntries(t.activity, t.counted.attachments), 3);
    JA.FoldPeople(t.counted, l);
  }

  method FoldJiraRest(t: JA.Tally, claimed: nat, rows: nat, l: Ledger, ghost done: seq<Entry>)
    requires l.Valid() && l.Contents() == done && Before(done, 5) && claimed == JA.Claimed(t)
    modifies l
    ensures forall c :: c in l.classes ==> c in old(l.classes) || fresh(c)
    ensures l.Valid()
    ensures l.Contents() == done + JA.RemainderEntries(t, rows) + JA.FilterEntries(t.filters)
    ensures Before(l.Contents(), 7)
  {
    JiraRestSteps(t, rows);
    JA.FoldRemainder(t, claimed, rows, l);
    NextStep(done, JA.RemainderEntries(t, rows), 5);
    JA.FoldFilters(t.filters, l);
  }

  /** Folds every Confluence class after whatever Jira classes are there. */
  method FoldConfluence(t: CA.Tally, macros: Counts, total: nat, l: Ledger)
    requires l.Valid() && Before(l.Contents(), 7)
    modifies l
    ensures forall c :: c in l.classes ==> c in old(l.classes) || fresh(c)
    ensures l.Valid() && l.Contents() == old(l.Contents()) + CA.ConfluenceEntries(t, macros, total)
  {
    ghost var before := l.Contents();
    SpaceStep(t);
    CA.FoldSpaces(t.spaces, l);
    ghost var done := before + CA.SpaceEntries(t.spaces);
    FoldConfluenceContent(t, macros, l, done);
    done := done + ([CA.PageEntry(t.pages)] + CA.ContentEntries(t.counted) + [CA.MacroEntry(macros)]);
    FoldConfluenceRest(t, total, l, done);
    CA.ConfluenceOrder(t, macros, total);
    Regroup(before, CA.SpaceEntries(t.spaces), [CA.PageEntry(t.pages)], CA.ContentEntries(t.counted),
            [CA.MacroEntry(macros)], CA.PeopleEntries(t.counted), CA.RemainderEntries(t, total));
  }

  lemma Regroup<T>(a: seq<T>, b: seq<T>, c: seq<T>, d: seq<T>, e: seq<T>, f: seq<T>, g: seq<T>)
    ensures (a + b) + (c + d + e) + (f + g) == a + (b + c + d + e + f + g)
  {
  }

  method FoldConfluenceContent(t: CA.Tally, macros: Counts, l: Ledger, ghost done: seq<Entry>)
    requires l.Valid() && l.Contents() == done && Before(done, 8)
    modifies l
    ensures forall c :: c in l.classes ==> c in old(l.classes) || fresh(c)
    ensures l.Valid() && Before(l.Contents(), 11)
    ensures l.Contents()
            == done + ([CA.PageEntry(t.pages)] + CA.ContentEntries(t.counted) + [CA.MacroEntry(macros)])
  {
    PageAndMacroSteps(t, macros);
    ContentSteps(t);
    ghost var pages, content := [CA.PageEntry(t.pages)], CA.ContentEntries(t.counted);
    CA.FoldPages(t.pages, l);
    NextStep(done, pages, 8);
    FoldContent(t.counted, l);
    NextStep(done + pages, content, 9);
    FoldMacros(macros, l, done + pages + content);
    assert done + pages + content + [CA.MacroEntry(macros)] == done + (pages + content + [CA.MacroEntry(macros)]);
  }

  method FoldContent(t: CA.Counters, l: Ledger)
    requires l.Valid() && Before(l.Contents(), 9)
    modifies l
    ensures forall c :: c in l.classes ==> c in old(l.classes) || fresh(c)
    ensures l.Valid() && l.Contents() == old(l.Contents()) + CA.ContentEntries(t)
  {
    CA.FoldContent(t, l);
  }

  method FoldMacros(macros: Counts, l: Ledger, ghost done: seq<Entry>)
    requires l.Valid() && l.Contents() == done && Before(done, 10) && At([CA.MacroEntry(macros)], 10)
    modifies l
    ensures forall c :: c in l.classes ==> c in old(l.classes) || fresh(c)
    ensures l.Valid() && l.Contents() == done + [CA.MacroEntry(macros)] && Before(l.Contents(), 11)
  {
    CA.FoldMacros(macros, l);
    NextStep(done, [CA.MacroEntry(macros)], 10);
  }

  method FoldConfluenceRest(t: CA.Tally, total: nat, l: Ledger, ghost done: seq<Entry>)
    requires l.Valid() && l.Contents() == done && Before(done, 11)
    modifies l
    ensures forall c :: c in l.classes ==> c in old(l.classes) || fresh(c)
    ensures l.Valid() && l.Contents() == done + (CA.PeopleEntries(t.counted) + CA.RemainderEntries(t, total))
  {
    FoldPeople(t, l, done);
    FoldRemainder(t, total, l);
    Associates(done, CA.PeopleEntries(t.counted), CA.RemainderEntries(t, total));
  }

  method FoldRemainder(t: CA.Tally, total: nat, l: Ledger)
    requires l.Valid() && Before(l.Contents(), 12)
    modifies l
    ensures forall c :: c in l.classes ==> c in old(l.classes) || fresh(c)
    ensures l.Valid() && l.Contents() == old(l.Contents()) + CA.RemainderEntries(t, total)
  {
    CA.FoldRemainder(t, total, l);
  }

  lemma Associates<T>(a: seq<T>, b: seq<T>, c: seq<T>)
    ensures (a + b) + c == a + (b + c)
  {
  }

  method FoldPeople(t: CA.Tally, l: Ledger, ghost done: seq<Entry>)
    requires l.Valid() && l.Contents() == done && Before(done, 11)
    modifies l
    ensures forall c :: c in l.classes ==> c in old(l.classes) || fresh(c)
    ensures l.Valid() && l.Contents() == done + CA.PeopleEntries(t.counted) && Before(l.Contents(), 12)
  {
    ConfluencePeopleStep(t);
    CA.FoldPeople(t.counted, l);
    NextStep(done, CA.PeopleEntries(t.counted), 11);
  }

  /** Scans a Jira stream and tallies what it delivers. */
  method CollectJira(p: Setup, s: Stream) returns (read: Read, rows: nat, t: JA.Tally)
    ensures read == ReadOf(JiraScan(p, s))
    ensures read.Through? ==> t == JA.OnRows(JA.EMPTY, JiraScan(p, s).scan.delivered)
    ensures read.Through? ==> rows == JiraScan(p, s).scan.rows
  {
    var scanner := new JE.Scanner(p.jira);
    var dec := new X.Decoder(s.tokens, s.faulty);
    var isExport := scanner.ScanStream(dec);
    rows, t := scanner.rows, JA.EMPTY;
    if !isExport {
      return NotAnExport, rows, t;
    }
    if scanner.stopped {
      return HandlerFailed, rows, t;
    }
    var c := new JA.Collector();
    c.HandleAll(scanner.delivered);
    return Through, rows, JA.Tally(c.projects, c.fieldTypes, c.filters, c.issue, c.activity, c.counted, c.lookups);
  }

  method AssessJira(p: Setup, i: Input, l: Ledger) returns (read: Read, rows: nat)
    requires l.Valid() && l.Contents() == []
    modifies l
    ensures forall c :: c in l.classes ==> c in old(l.classes) || fresh(c)
    ensures l.Valid() && read == JiraRead(p, i)
    ensures read.Through? ==> JiraReport(p, i, rows, l.Contents()) && Before(l.Contents(), 7)
  {
    read, rows := Through, 0;
    if i.Given? {
      var t: JA.Tally;
      read, rows, t := CollectJira(p, i.stream);
      if read.Through? {
        var resolved := ResolveAll(t);
        FoldJira(resolved, rows, l);
        assert JiraReportOf(JiraScan(p, i.stream), rows, l.Contents());
      }
    }
  }

  /** Scans a Confluence stream and tallies what it delivers. */
  method CollectConfluence(p: Setup, s: Stream) returns (isExport: bool, total: nat, t: CA.Tally, macros: Counts)
    ensures isExport == ConfluenceScan(p, s).Scanned?
    ensures isExport ==> t == CA.OnObjects(CA.EMPTY, p.decode, ConfluenceScan(p, s).scan.delivered)
    ensures isExport ==> macros == CA.MacrosAfter(map[], p.decode, ConfluenceScan(p, s).scan.delivered)
    ensures isExport ==> total == ConfluenceScan(p, s).scan.total
  {
    var scanner := new CS.Scanner(p.confluence);
    var dec := new X.Decoder(s.tokens, s.faulty);
    isExport := scanner.ScanStream(dec);
    total, t, macros := scanner.total, CA.EMPTY, map[];
    if isExport {
      var c := new CA.Collector(p.decode);
      c.HandleAll(scanner.delivered);
      t, macros := CA.Tally(c.spaces, c.pages, c.counted, c.bodies), c.macros.macros;
    }
  }

  method AssessConfluence(p: Setup, i: Input, l: Ledger) returns (isExport: bool, total: nat, ghost part: seq<Entry>)
    requires l.Valid() && Before(l.Contents(), 7)
    modifies l
    ensures forall c :: c in l.classes ==> c in old(l.classes) || fresh(c)
    ensures l.Valid() && isExport == !BadConfluence(p, i)
    ensures isExport ==> ConfluenceReport(p, i, total, part) && l.Contents() == old(l.Contents()) + part
  {
    isExport, total, part := true, 0, [];
    if i.Given? {
      var t: CA.Tally, macros: Counts;
      isExport, total, t, macros := CollectConfluence(p, i.stream);
      if isExport {
        FoldConfluence(t, macros, total, l);
        part := CA.ConfluenceEntries(t, macros, total);
        assert ConfluenceReportOf(p, ConfluenceScan(p, i.stream), total, part);
      }
    }
  }

  // ----- The run ----------------------------------------------------------------------------------------------

  /** Both halves close, so the two together do. */
  lemma {:induction false} HalvesClose(p: Setup, jira: Input, confluence: Input, rows: nat, a: seq<Entry>,
                                       total: nat, b: seq<Entry>)
    requires JiraReport(p, jira, rows, a) && ConfluenceReport(p, confluence, total, b)
    ensures AllReconciled(a + b) && RowsObserved(a + b) == rows + total
  {
    JiraReportCloses(p, jira, rows, a);
    ConfluenceReportCloses(p, confluence, total, b);
    RowsConcat(a, b);
  }

  lemma HalvesReport(p: Setup, jira: Input, confluence: Input, rows: nat, a: seq<Entry>, total: nat, b: seq<Entry>,
                     es: seq<Entry>)
    requires JiraReport(p, jira, rows, a) && ConfluenceReport(p, confluence, total, b) && AllNormalised(a + b, es)
    ensures IsReport(p, jira, confluence, rows + total, es)
  {
  }

  /** The ledger's classes, if it passes its own checks. */
  method Checked(l: Ledger, rows: nat) returns (r: Result)
    requires l.Valid() && AllReconciled(l.Contents()) && RowsObserved(l.Contents()) == rows
    modifies l.classes
    ensures r.Assessed? && r.rows == rows && AllReconciled(r.entries) && RowsObserved(r.entries) == rows
    ensures AllNormalised(old(l.Contents()), r.entries)
  {
    var closes := Closes(l, rows);
    if !closes {
      return Unreconciled;
    }
    r := Assessed(l.Contents(), rows);
  }

  /** The Confluence half after the Jira half, and the checks. */
  method AddConfluence(p: Setup, ghost jira: Input, confluence: Input, rows: nat, l: Ledger) returns (r: Result)
    requires l.Valid() && Before(l.Contents(), 7) && JiraReport(p, jira, rows, l.Contents())
    modifies l, l.classes
    ensures if BadConfluence(p, confluence) then r.NotAConfluenceExport?
            else r.Assessed? && AllReconciled(r.entries) && RowsObserved(r.entries) == r.rows
                 && IsReport(p, jira, confluence, r.rows, r.entries)
  {
    ghost var jiraPart := l.Contents();
    var isExport, total, part := AssessConfluence(p, confluence, l);
    if !isExport {
      return NotAConfluenceExport;
    }
    HalvesClose(p, jira, confluence, rows, jiraPart, total, part);
    forall k | 0 <= k < |l.classes| ensures fresh(l.classes[k]) || l.classes[k] in old(l.classes) {
      assert l.classes[k] in l.classes;
    }
    r := Checked(l, rows + total);
    HalvesReport(p, jira, confluence, rows, jiraPart, total, part, r.entries);
  }

  /** Assesses the given streams.  The only failures are streams that are not exports and handlers
      that fail on a Jira row; the assessment's own arithmetic never is one. */
  method RunReaders(p: Setup, jira: Input, confluence: Input) returns (r: Result)
    ensures !r.Unreconciled?
    ensures r.NotAJiraExport? <==> JiraRead(p, jira).NotAnExport?
    ensures r.JiraHandlerFailed? <==> JiraRead(p, jira).HandlerFailed?
    ensures r.NotAConfluenceExport? <==> JiraRead(p, jira).Through? && BadConfluence(p, confluence)
    ensures r.Assessed? ==> AllReconciled(r.entries) && RowsObserved(r.entries) == r.rows
    ensures r.Assessed? ==> IsReport(p, jira, confluence, r.rows, r.entries)
  {
    var l := new Ledger();
    var read, rows := AssessJira(p, jira, l);
    match read {
      case NotAnExport => r := NotAJiraExport;
      case HandlerFailed => r := JiraHandlerFailed;
      case Through =>
        forall k | 0 <= k < |l.classes| ensures fresh(l.classes[k]) {
          assert l.classes[k] in l.classes;
        }
        r := AddConfluence(p, jira, confluence, rows, l);
    }
  }

  /** Both checks, in the order the run makes them. */
  method Closes(l: Ledger, rows: nat) returns (ok: bool)
    requires l.Valid()
    modifies l.classes
    ensures l.Valid() && l.classes == old(l.classes)
    ensures ok <==> old(AllReconciled(l.Contents()) && RowsObserved(l.Contents()) == rows)
    ensures ok ==> AllReconciled(l.Contents()) && RowsObserved(l.Contents()) == rows
    ensures ok ==> AllNormalised(old(l.Contents()), l.Contents())
  {
    ghost var before := l.Contents();
    var fine := l.Reconcile();
    if !fine {
      return false;
    }
    NormalisedRows(before, l.Contents());
    ok := l.ReconcileRows(rows);
  }

  /** Putting findings in report order changes no count. */
  lemma {:induction false} NormalisedRows(before: seq<Entry>, after: seq<Entry>)
    requires AllReconciled(before) && AllNormalised(before, after)
    ensures AllReconciled(after) && RowsObserved(after) == RowsObserved(before)
    decreases |before|
  {
    if before != [] {
      var n := |before| - 1;
      assert before[n] in before;
      NormalisedStaysReconciled(before[n]);
      NormalisedRows(before[..n], after[..n]);
      assert after == after[..n] + [after[n]];
    }
  }
}
