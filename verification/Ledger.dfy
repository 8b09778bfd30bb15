/**
  The reconciling ledger of internal/assess/ledger.go.

  A class says how many entities were observed and partitions them into findings; the
  ledger refuses to be reported unless every partition closes.
 */
module AssessLedger {
  import opened Sorting

  /** The four buckets; anything else is carried as found and refused by Reconcile. */
  datatype Verdict = Clean | Approximated | Preserved | Unmappable | Unknown(name: string)

  datatype Finding = Finding(verdict: Verdict, count: int, reason: string)

  /** The classes an assessment reports. */
  datatype Title =
    | JiraProjects | JiraIssues | JiraIssueTypes | JiraStatuses | JiraPriorities | JiraCustomFields
    | JiraFieldValues | JiraComments | JiraActivity | JiraAttachments | JiraUsers | JiraGroups
    | JiraMemberships | JiraLinks | JiraWorklogs | JiraLookups | JiraOther | JiraFilters
    | ConfluenceSpaces | ConfluencePages | ConfluenceBlogs | ConfluenceComments | ConfluenceAttachments
    | ConfluenceLabels | ConfluenceMacros | ConfluenceUsers | ConfluenceGroups | ConfluenceMemberships
    | ConfluenceBodies | ConfluenceOther

  /** A class's contents. */
  datatype Entry = Entry(name: Title, derived: bool, observed: int, findings: seq<Finding>)

  function Rank(v: Verdict): nat {
    match v case Clean => 0 case Approximated => 1 case Preserved => 2 case Unmappable => 3 case Unknown(_) => 4
  }

  predicate IsBucket(v: Verdict) { !v.Unknown? }

  function CountAll(fs: seq<Finding>): int {
    if fs == [] then 0 else CountAll(fs[..|fs| - 1]) + fs[|fs| - 1].count
  }

  function CountIn(v: Verdict, fs: seq<Finding>): int {
    if fs == [] then 0
    else CountIn(v, fs[..|fs| - 1]) + (if fs[|fs| - 1].verdict == v then fs[|fs| - 1].count else 0)
  }

  /** Add ignores counts that are not positive. */
  function WithFinding(fs: seq<Finding>, v: Verdict, count: int, reason: string): seq<Finding> {
    if count <= 0 then fs else fs + [Finding(v, count, reason)]
  }

  ghost predicate FindingOk(f: Finding) { IsBucket(f.verdict) && f.count >= 0 && f.reason != "" }

  /** The class closes: its findings are proper and add up to what was observed. */
  ghost predicate Reconciled(e: Entry) {
    e.observed >= 0 && (forall f :: f in e.findings ==> FindingOk(f)) && CountAll(e.findings) == e.observed
  }

  /** By fidelity, larger groups first, then by reason. */
  predicate InReportOrder(a: Finding, b: Finding) {
    if a.verdict != b.verdict then Rank(a.verdict) <= Rank(b.verdict)
    else if a.count != b.count then a.count > b.count
    else AtMost(a.reason, b.reason)
  }

  function Normalised(e: Entry): Entry { e.(findings := Sorted(e.findings, InReportOrder)) }

  class Class {
    const name: Title
    var observed: int
    var findings: seq<Finding>
    var derived: bool

    function Contents(): Entry
      reads this
    {
      Entry(name, derived, observed, findings)
    }

    constructor (name: Title)
      ensures Contents() == Entry(name, false, 0, [])
    {
      this.name := name;
      observed, findings, derived := 0, [], false;
    }

    method Add(v: Verdict, count: int, reason: string)
      modifies this
      ensures Contents() == old(Contents()).(findings := WithFinding(old(findings), v, count, reason))
    {
      if count <= 0 {
        return;
      }
      findings := findings + [Finding(v, count, reason)];
    }

    method Classified() returns (total: int)
      ensures total == CountAll(findings)
    {
      total := 0;
      for i := 0 to |findings|
        invariant total == CountAll(findings[..i])
      {
        assert findings[..i + 1][..i] == findings[..i];
        total := total + findings[i].count;
      }
      assert findings[..|findings|] == findings;
    }

    method CountBy(v: Verdict) returns (total: int)
      ensures total == CountIn(v, findings)
    {
      total := 0;
      for i := 0 to |findings|
        invariant total == CountIn(v, findings[..i])
      {
        assert findings[..i + 1][..i] == findings[..i];
        if findings[i].verdict == v {
          total := total + findings[i].count;
        }
      }
      assert findings[..|findings|] == findings;
    }

    /** Succeeds exactly when the class closes, and then only reorders its findings. */
    method Reconcile() returns (ok: bool)
      modifies this
      ensures ok <==> old(Reconciled(Contents()))
      ensures Contents() == if ok then Normalised(old(Contents())) else old(Contents())
    {
      if observed < 0 {
        return false;
      }
      for i := 0 to |findings|
        invariant forall j :: 0 <= j < i ==> FindingOk(findings[j])
      {
        var f := findings[i];
        if !IsBucket(f.verdict) || f.count < 0 || f.reason == "" {
          assert f in findings && !FindingOk(f);
          return false;
        }
      }
      var got := Classified();
      if got != observed {
        return false;
      }
      findings := Sorted(findings, InReportOrder);
      return true;
    }
  }

  // ----- The ledger -----------------------------------------------------------------------------

  function Observed(es: seq<Entry>): int {
    if es == [] then 0 else Observed(es[..|es| - 1]) + es[|es| - 1].observed
  }

  /** What the row-based classes account for. */
  function RowsObserved(es: seq<Entry>): int {
    if es == [] then 0
    else RowsObserved(es[..|es| - 1]) + (if es[|es| - 1].derived then 0 else es[|es| - 1].observed)
  }

  function InBucket(v: Verdict, es: seq<Entry>): int {
    if es == [] then 0 else InBucket(v, es[..|es| - 1]) + CountIn(v, es[|es| - 1].findings)
  }

  ghost predicate AllReconciled(es: seq<Entry>) { forall e :: e in es ==> Reconciled(e) }

  ghost predicate Unused(es: seq<Entry>, name: Title) { forall e :: e in es ==> e.name != name }

  class Ledger {
    var classes: seq<Class>

    ghost predicate Valid()
      reads this
    {
      forall i, j :: 0 <= i < j < |classes| ==> classes[i] != classes[j] && classes[i].name != classes[j].name
    }

    function Contents(): (es: seq<Entry>)
      reads this, classes
      ensures |es| == |classes| && forall i :: 0 <= i < |classes| ==> es[i] == classes[i].Contents()
    {
      seq(|classes|, i requires 0 <= i < |classes| reads this, classes => classes[i].Contents())
    }

    constructor ()
      ensures Valid() && classes == [] && Contents() == []
    {
      classes := [];
    }

    /** The class of that name, created at the end if there is none. */
    method ClassNamed(name: Title) returns (c: Class)
      requires Valid()
      modifies this
      ensures Valid() && c in classes && c.name == name
      ensures if old(Unused(Contents(), name))
              then fresh(c) && classes == old(classes) + [c] && c.Contents() == Entry(name, false, 0, [])
              else classes == old(classes)
    {
      for i := 0 to |classes|
        invariant forall j :: 0 <= j < i ==> classes[j].name != name
      {
        if classes[i].name == name {
          assert classes[i].Contents() in Contents();
          return classes[i];
        }
      }
      c := new Class(name);
      classes := classes + [c];
    }

    method Total() returns (total: int)
      ensures total == Observed(Contents())
    {
      total := 0;
      for i := 0 to |classes|
        invariant total == Observed(Contents()[..i])
      {
        assert Contents()[..i + 1][..i] == Contents()[..i];
        total := total + classes[i].observed;
      }
      assert Contents()[..|classes|] == Contents();
    }

    method RowTotal() returns (total: int)
      ensures total == RowsObserved(Contents())
    {
      total := 0;
      for i := 0 to |classes|
        invariant total == RowsObserved(Contents()[..i])
      {
        assert Contents()[..i + 1][..i] == Contents()[..i];
        if !classes[i].derived {
          total := total + classes[i].observed;
        }
      }
      assert Contents()[..|classes|] == Contents();
    }

    method TotalBy(v: Verdict) returns (total: int)
      ensures total == InBucket(v, Contents())
    {
      total := 0;
      for i := 0 to |classes|
        invariant total == InBucket(v, Contents()[..i])
      {
        assert Contents()[..i + 1][..i] == Contents()[..i];
        var n := classes[i].CountBy(v);
        total := total + n;
      }
      assert Contents()[..|classes|] == Contents();
    }

    /** The check a remainder class cannot satisfy vacuously. */
    method ReconcileRows(parsedRows: int) returns (ok: bool)
      ensures ok <==> RowsObserved(Contents()) == parsedRows
    {
      var got := RowTotal();
      return got == parsedRows;
    }

    /** Succeeds exactly when every class closes; the classes before the first that does not are
        normalised either way. */
    method Reconcile() returns (ok: bool)
      requires Valid()
      modifies classes
      ensures Valid() && classes == old(classes)
      ensures ok <==> old(AllReconciled(Contents()))
      ensures ok ==> forall i :: 0 <= i < |classes| ==> Contents()[i] == Normalised(old(Contents())[i])
    {
      ghost var before := Contents();
      for i := 0 to |classes|
        invariant Valid() && classes == old(classes)
        invariant forall j :: 0 <= j < i ==> Reconciled(before[j]) && classes[j].Contents() == Normalised(before[j])
        invariant forall j :: i <= j < |classes| ==> classes[j].Contents() == before[j]
      {
        var fine := classes[i].Reconcile();
        if !fine {
          assert before[i] in before;
          return false;
        }
      }
      return true;
    }
  }

  // ----- Recording a class ----------------------------------------------------------------------------

  /** The findings Add lets through. */
  function Positive(fs: seq<Finding>): seq<Finding> {
    if fs == [] then []
    else WithFinding(Positive(fs[..|fs| - 1]), fs[|fs| - 1].verdict, fs[|fs| - 1].count, fs[|fs| - 1].reason)
  }

  /** How every class is filled: look it up, say what was observed, add each finding. */
  method Record(l: Ledger, name: Title, derived: bool, observed: int, fs: seq<Finding>)
    requires l.Valid() && Unused(l.Contents(), name)
    modifies l
    ensures l.Valid() && l.Contents() == old(l.Contents()) + [Entry(name, derived, observed, Positive(fs))]
    ensures old(l.classes) <= l.classes && forall c :: c in l.classes && c !in old(l.classes) ==> fresh(c)
  {
    var cl := l.ClassNamed(name);
    cl.derived := derived;
    cl.observed := observed;
    for i := 0 to |fs|
      invariant cl.Contents() == Entry(name, derived, observed, Positive(fs[..i]))
      invariant l.classes == old(l.classes) + [cl] && l.Valid()
      invariant forall j :: 0 <= j < |old(l.classes)| ==> l.classes[j].Contents() == old(l.Contents())[j]
    {
      assert fs[..i + 1][..i] == fs[..i];
      cl.Add(fs[i].verdict, fs[i].count, fs[i].reason);
    }
    assert fs[..|fs|] == fs;
  }

  /** Dropping empty findings loses nothing. */
  lemma {:induction false} PositiveKeepsCount(fs: seq<Finding>)
    requires forall f :: f in fs ==> FindingOk(f)
    ensures CountAll(Positive(fs)) == CountAll(fs) && forall f :: f in Positive(fs) ==> FindingOk(f)
  {
    if fs != [] {
      assert FindingOk(fs[|fs| - 1]) by { assert fs[|fs| - 1] in fs; }
      PositiveKeepsCount(fs[..|fs| - 1]);
    }
  }

  lemma {:induction false} RecordedReconciles(e: Entry, fs: seq<Finding>)
    requires e.findings == Positive(fs) && (forall f :: f in fs ==> FindingOk(f)) && CountAll(fs) == e.observed
    ensures Reconciled(e)
  {
    PositiveKeepsCount(fs);
    CountNonNegative(fs);
  }

  lemma {:induction false} CountNonNegative(fs: seq<Finding>)
    requires forall f :: f in fs ==> FindingOk(f)
    ensures CountAll(fs) >= 0
  {
    if fs != [] {
      assert FindingOk(fs[|fs| - 1]) by { assert fs[|fs| - 1] in fs; }
      CountNonNegative(fs[..|fs| - 1]);
    }
  }

  function Flat(ls: seq<seq<Entry>>): seq<Entry> {
    if ls == [] then [] else Flat(ls[..|ls| - 1]) + ls[|ls| - 1]
  }

  lemma FlatOfThree(a: seq<Entry>, b: seq<Entry>, c: seq<Entry>)
    ensures Flat([a, b, c]) == a + b + c
  {
    assert [a][..0] == [] && [a, b][..1] == [a] && [a, b, c][..2] == [a, b];
    assert Flat([a]) == a;
  }

  lemma FlatOfSix(a: seq<Entry>, b: seq<Entry>, c: seq<Entry>, d: seq<Entry>, e: seq<Entry>, f: seq<Entry>)
    ensures Flat([a, b, c, d, e, f]) == a + b + c + d + e + f
  {
    FlatOfThree(a, b, c);
    assert [a, b, c, d][..3] == [a, b, c] && [a, b, c, d, e][..4] == [a, b, c, d];
    assert [a, b, c, d, e, f][..5] == [a, b, c, d, e];
    assert Flat([a, b, c, d]) == a + b + c + d;
  }

  lemma FlatOfSeven(a: seq<Entry>, b: seq<Entry>, c: seq<Entry>, d: seq<Entry>, e: seq<Entry>, f: seq<Entry>,
                    g: seq<Entry>)
    ensures Flat([a, b, c, d, e, f, g]) == a + b + c + d + e + f + g
  {
    FlatOfSix(a, b, c, d, e, f);
    assert [a, b, c, d, e, f, g][..6] == [a, b, c, d, e, f];
  }

  /** A class whose rows all land in one bucket. */
  function Whole(name: Title, count: int, v: Verdict, reason: string): Entry {
    Entry(name, false, count, Positive([Finding(v, count, reason)]))
  }

  /** Fills such a class. */
  method RecordWhole(l: Ledger, name: Title, count: int, v: Verdict, reason: string)
    requires l.Valid() && Unused(l.Contents(), name)
    modifies l
    ensures l.Valid() && l.Contents() == old(l.Contents()) + [Whole(name, count, v, reason)]
    ensures forall c :: c in l.classes ==> c in old(l.classes) || fresh(c)
  {
    Record(l, name, false, count, [Finding(v, count, reason)]);
  }

  /** A class of that size, verdict and reason: what a fold knows before recording it. */
  datatype Share = Share(name: Title, count: int, verdict: Verdict, reason: string)

  function WholeOf(s: Share): Entry { Whole(s.name, s.count, s.verdict, s.reason) }

  /** Two in a row. */
  method RecordTwo(l: Ledger, a: Share, b: Share)
    requires l.Valid() && Unused(l.Contents(), a.name) && Unused(l.Contents(), b.name) && a.name != b.name
    modifies l
    ensures l.Valid() && l.Contents() == old(l.Contents()) + [WholeOf(a), WholeOf(b)]
    ensures forall c :: c in l.classes ==> c in old(l.classes) || fresh(c)
  {
    RecordWhole(l, a.name, a.count, a.verdict, a.reason);
    RecordWhole(l, b.name, b.count, b.verdict, b.reason);
  }

  lemma CountsAdd(a: Finding, b: Finding, c: Finding)
    ensures CountAll([a]) == a.count
    ensures CountAll([a, b]) == a.count + b.count
    ensures CountAll([a, b, c]) == a.count + b.count + c.count
  {
    assert [a][..0] == [] && [a, b][..1] == [a] && [a, b, c][..2] == [a, b];
  }

  lemma Closes1(e: Entry, a: Finding)
    requires e.findings == Positive([a]) && FindingOk(a) && a.count == e.observed
    ensures Reconciled(e)
  {
    CountsAdd(a, a, a);
    RecordedReconciles(e, [a]);
  }

  lemma Closes2(e: Entry, a: Finding, b: Finding)
    requires e.findings == Positive([a, b]) && FindingOk(a) && FindingOk(b) && a.count + b.count == e.observed
    ensures Reconciled(e)
  {
    CountsAdd(a, b, b);
    RecordedReconciles(e, [a, b]);
  }

  lemma Closes3(e: Entry, a: Finding, b: Finding, c: Finding)
    requires e.findings == Positive([a, b, c]) && FindingOk(a) && FindingOk(b) && FindingOk(c)
    requires a.count + b.count + c.count == e.observed
    ensures Reconciled(e)
  {
    CountsAdd(a, b, c);
    RecordedReconciles(e, [a, b, c]);
  }

  lemma WholeCloses(name: Title, count: int, v: Verdict, reason: string)
    requires count >= 0 && IsBucket(v) && reason != ""
    ensures Reconciled(Whole(name, count, v, reason))
  {
    Closes1(Whole(name, count, v, reason), Finding(v, count, reason));
  }

  /** A remainder is refused exactly when it is negative. */
  lemma WholeClosesExactly(name: Title, count: int, v: Verdict, reason: string)
    requires IsBucket(v) && reason != ""
    ensures Reconciled(Whole(name, count, v, reason)) <==> count >= 0
  {
    if count >= 0 { WholeCloses(name, count, v, reason); }
  }

  lemma AllOfThree(a: Entry, b: Entry, c: Entry)
    ensures AllReconciled([a, b, c]) <==> Reconciled(a) && Reconciled(b) && Reconciled(c)
  {
    var es := [a, b, c];
    assert es[0] in es && es[1] in es && es[2] in es;
  }

  lemma AllOfFour(a: Entry, b: Entry, c: Entry, d: Entry)
    ensures AllReconciled([a, b, c, d]) <==> Reconciled(a) && Reconciled(b) && Reconciled(c) && Reconciled(d)
  {
    var es := [a, b, c, d];
    assert es[0] in es && es[1] in es && es[2] in es && es[3] in es;
  }

  lemma {:induction false} RowsConcat(a: seq<Entry>, b: seq<Entry>)
    ensures RowsObserved(a + b) == RowsObserved(a) + RowsObserved(b)
  {
    if b == [] {
      assert a + b == a;
    } else {
      assert (a + b)[..|a + b| - 1] == a + b[..|b| - 1];
      RowsConcat(a, b[..|b| - 1]);
    }
  }

  lemma RowsOfThree(a: Entry, b: Entry, c: Entry)
    ensures RowsObserved([a]) == OwnRows(a)
    ensures RowsObserved([a, b]) == OwnRows(a) + OwnRows(b)
    ensures RowsObserved([a, b, c]) == OwnRows(a) + OwnRows(b) + OwnRows(c)
  {
    assert [a][..0] == [] && [a, b][..1] == [a] && [a, b, c][..2] == [a, b];
  }

  /** What a class contributes to the row arithmetic. */
  function OwnRows(e: Entry): int { if e.derived then 0 else e.observed }

  lemma RowsOfFour(a: Entry, b: Entry, c: Entry, d: Entry)
    ensures RowsObserved([a, b, c, d]) == OwnRows(a) + OwnRows(b) + OwnRows(c) + OwnRows(d)
  {
    assert [a, b, c, d][..3] == [a, b, c];
    RowsOfThree(a, b, c);
  }

  // ----- What reconciliation buys ------------------------------------------------------------------

  lemma {:induction false} CountAllConcat(a: seq<Finding>, b: seq<Finding>)
    ensures CountAll(a + b) == CountAll(a) + CountAll(b)
  {
    if b == [] {
      assert a + b == a;
    } else {
      assert (a + b)[..|a + b| - 1] == a + b[..|b| - 1];
      CountAllConcat(a, b[..|b| - 1]);
    }
  }

  lemma {:induction false} BucketsPartition(fs: seq<Finding>)
    requires forall f :: f in fs ==> FindingOk(f)
    ensures CountAll(fs)
            == CountIn(Clean, fs) + CountIn(Approximated, fs) + CountIn(Preserved, fs) + CountIn(Unmappable, fs)
  {
    if fs != [] {
      assert FindingOk(fs[|fs| - 1]) by { assert fs[|fs| - 1] in fs; }
      BucketsPartition(fs[..|fs| - 1]);
    }
  }

  /** In a reconciled ledger the four bucket totals add up to everything observed. */
  lemma {:induction false} BucketTotalsClose(es: seq<Entry>)
    requires AllReconciled(es)
    ensures Observed(es) ==
              InBucket(Clean, es) + InBucket(Approximated, es) + InBucket(Preserved, es) + InBucket(Unmappable, es)
  {
    if es != [] {
      assert es[|es| - 1] in es;
      BucketTotalsClose(es[..|es| - 1]);
      BucketsPartition(es[|es| - 1].findings);
    }
  }

  lemma AtMostTransitive(a: string, b: string, c: string)
    requires AtMost(a, b) && AtMost(b, c)
    ensures AtMost(a, c)
  {
    StringsAreOrdered({a, b, c});
  }

  /** Total on proper findings; two different unknown verdicts would break transitivity. */
  lemma ReportOrderIsTotal(fs: set<Finding>)
    requires forall f :: f in fs ==> FindingOk(f)
    ensures TotalOn(fs, InReportOrder)
  {
    forall a, b | a in fs && b in fs ensures InReportOrder(a, b) || InReportOrder(b, a) {
      LessTrichotomy(a.reason, b.reason);
    }
    forall a, b, c | a in fs && b in fs && c in fs && InReportOrder(a, b) && InReportOrder(b, c)
      ensures InReportOrder(a, c)
    {
      if a.verdict == b.verdict == c.verdict && a.count == b.count == c.count {
        AtMostTransitive(a.reason, b.reason, c.reason);
      }
    }
  }

  /** Two findings tie only when they are the same, so the report order is deterministic. */
  lemma ReportOrderIsStrict(a: Finding, b: Finding)
    requires IsBucket(a.verdict) && IsBucket(b.verdict) && InReportOrder(a, b) && InReportOrder(b, a)
    ensures a == b
  {
    LessTrichotomy(a.reason, b.reason);
  }

  lemma {:induction false} CountInserted(f: Finding, fs: seq<Finding>)
    ensures CountAll(Insert(f, fs, InReportOrder)) == CountAll(fs) + f.count
    ensures forall g :: g in Insert(f, fs, InReportOrder) <==> g == f || g in fs
  {
    if fs == [] || InReportOrder(f, fs[0]) {
      CountAllConcat([f], fs);
      assert [f][..0] == [];
      if fs == [] { assert [f] + fs == [f]; }
    } else {
      CountInserted(f, fs[1..]);
      CountAllConcat([fs[0]], Insert(f, fs[1..], InReportOrder));
      CountAllConcat([fs[0]], fs[1..]);
      assert fs == [fs[0]] + fs[1..];
    }
  }

  lemma {:induction false} CountSorted(fs: seq<Finding>)
    ensures CountAll(Sorted(fs, InReportOrder)) == CountAll(fs)
    ensures forall g :: g in Sorted(fs, InReportOrder) <==> g in fs
  {
    if fs != [] {
      CountSorted(fs[1..]);
      CountInserted(fs[0], Sorted(fs[1..], InReportOrder));
      CountAllConcat([fs[0]], fs[1..]);
      assert fs == [fs[0]] + fs[1..] && [fs[0]][..0] == [];
    }
  }

  /** Normalising a class reorders it and nothing else: it stays reconciled and is in report order. */
  lemma NormalisedStaysReconciled(e: Entry)
    requires Reconciled(e)
    ensures Reconciled(Normalised(e)) && SortedBy(Normalised(e).findings, InReportOrder)
    ensures multiset(Normalised(e).findings) == multiset(e.findings)
  {
    CountSorted(e.findings);
    ReportOrderIsTotal(Elems(e.findings));
    SortedIsSorted(e.findings, InReportOrder);
  }
}
