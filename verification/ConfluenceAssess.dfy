/**
  The Confluence half of the assessment, internal/assess/confluence_assess.go: objects are
  tallied, bodies censused and merged, and the tallies folded into ledger classes.

  `decode` stands for the decoder that turns a body into tokens.
 */
module ConfluenceAssess {
  import opened Text
  import opened Census
  import opened Mapping
  import opened AssessLedger
  import B = BodyScan
  import C = ConfluenceEntities

  type Decode = string -> seq<B.Token>

  datatype Space = Space(key: string, name: string)

  datatype Pages = Pages(all: nat, live: nat)

  /** Object classes of which only the number matters. */
  datatype Counters = Counters(
    blogPosts: nat, comments: nat, attachments: nat, users: nat, groups: nat, memberships: nat, labels: nat)

  datatype Bodies = Bodies(all: nat, escapes: nat, truncated: nat)

  datatype Tally = Tally(spaces: seq<Space>, pages: Pages, counted: Counters, bodies: Bodies)

  const EMPTY := Tally([], Pages(0, 0), Counters(0, 0, 0, 0, 0, 0, 0), Bodies(0, 0, 0))

  datatype Kind =
    | Spaces | PageObjects | BlogPosts | BodyContents | Comments | Attachments | Users | Groups | Memberships | Labels
    | Unhandled
  {
    /** Only counted. */
    predicate IsCounter() {
      BlogPosts? || Comments? || Attachments? || Users? || Groups? || Memberships? || Labels?
    }
  }

  const HANDLERS: seq<Handler<Kind>> := [
    On("space", Spaces), On("page", PageObjects), On("blogpost", BlogPosts), On("bodycontent",
    BodyContents), On("comment", Comments), On("attachment", Attachments), On("confluenceuserimpl",
    Users), On("internalgroup", Groups), On("hibernatemembership", Memberships), On("labelling", Labels)]

  const WANTED := Registered(HANDLERS)

  function KindOf(cls: string): Kind { HandlerOf(HANDLERS, ToLower(cls), Unhandled) }

  /** strings.Count: occurrences that do not overlap. */
  function Occurrences(s: string, part: string): nat
    requires part != ""
    decreases |s|
  {
    if |s| < |part| then 0
    else if part <= s then 1 + Occurrences(s[|part|..], part)
    else Occurrences(s[1..], part)
  }

  function OnPage(t: Pages, o: C.Object): Pages {
    Pages(t.all + 1, t.live + (if C.Prop(o, "contentStatus") == "current" then 1 else 0))
  }

  function OnCounter(t: Counters, kind: Kind): Counters
    requires kind.IsCounter()
  {
    match kind
    case BlogPosts => t.(blogPosts := t.blogPosts + 1)
    case Comments => t.(comments := t.comments + 1)
    case Attachments => t.(attachments := t.attachments + 1)
    case Users => t.(users := t.users + 1)
    case Groups => t.(groups := t.groups + 1)
    case Memberships => t.(memberships := t.memberships + 1)
    case Labels => t.(labels := t.labels + 1)
  }

  function OnBody(t: Bodies, decode: Decode, o: C.Object): Bodies {
    var body := C.Prop(o, "body");
    Bodies(t.all + 1, t.escapes + Occurrences(body, "]] >"),
           t.truncated + (if B.Scan(decode(body)).truncated then 1 else 0))
  }

  /** What one delivered object adds to the tally. */
  function OnObject(t: Tally, decode: Decode, o: C.Object): Tally { OnKind(t, decode, KindOf(o.cls), o) }

  function OnKind(t: Tally, decode: Decode, kind: Kind, o: C.Object): Tally {
    if kind.IsCounter() then t.(counted := OnCounter(t.counted, kind))
    else match kind
      case Spaces => t.(spaces := t.spaces + [Space(C.Prop(o, "key"), C.Prop(o, "name"))])
      case PageObjects => t.(pages := OnPage(t.pages, o))
      case BodyContents => t.(bodies := OnBody(t.bodies, decode, o))
      case Unhandled => t
  }

  function OnObjects(t: Tally, decode: Decode, os: seq<C.Object>): Tally {
    if os == [] then t else OnObject(OnObjects(t, decode, os[..|os| - 1]), decode, os[|os| - 1])
  }

  predicate HasBody(o: C.Object) { KindOf(o.cls).BodyContents? }

  /** The macros of the body this object carries, by name. */
  function MacrosOf(decode: Decode, o: C.Object): Counts {
    if HasBody(o) then B.Scan(decode(C.Prop(o, "body"))).macros else map[]
  }

  /** What one delivered object adds to the macros counted over all bodies. */
  ghost function OnMacros(m: Counts, decode: Decode, o: C.Object): Counts {
    if HasBody(o) then B.Merged(m, MacrosOf(decode, o)) else m
  }

  ghost function MacrosAfter(m: Counts, decode: Decode, os: seq<C.Object>): Counts {
    if os == [] then m else OnMacros(MacrosAfter(m, decode, os[..|os| - 1]), decode, os[|os| - 1])
  }

  /** Macros in the bodies of these objects. */
  ghost function MacrosIn(decode: Decode, os: seq<C.Object>): nat {
    if os == [] then 0 else MacrosIn(decode, os[..|os| - 1]) + Sum(MacrosOf(decode, os[|os| - 1]))
  }

  /** ... of one name. */
  ghost function MacrosNamed(decode: Decode, os: seq<C.Object>, name: string): nat {
    if os == [] then 0 else MacrosNamed(decode, os[..|os| - 1], name) + Get(MacrosOf(decode, os[|os| - 1]), name)
  }

  ghost function MacroNames(decode: Decode, os: seq<C.Object>): set<string> {
    if os == [] then {} else MacroNames(decode, os[..|os| - 1]) + MacrosOf(decode, os[|os| - 1]).Keys
  }

  ghost predicate AddsUp(before: Counts, found: Counts, after: Counts) {
    && after.Keys == before.Keys + found.Keys
    && forall name :: Get(after, name) == Get(before, name) + Get(found, name)
  }

  lemma {:induction false} OneBodyIsExact(m: Counts, decode: Decode, o: C.Object)
    ensures Sum(OnMacros(m, decode, o)) == Sum(m) + Sum(MacrosOf(decode, o))
    ensures |m.Keys + MacrosOf(decode, o).Keys| <= B.CAP.names
            ==> AddsUp(m, MacrosOf(decode, o), OnMacros(m, decode, o))
  {
    if HasBody(o) { B.MergeIsExact(m, MacrosOf(decode, o)); }
  }

  /** However many names there are, the macros counted over all bodies are the bodies' macros, none
      lost and none twice. */
  lemma {:induction false} MacrosTotal(m: Counts, decode: Decode, os: seq<C.Object>)
    ensures Sum(MacrosAfter(m, decode, os)) == Sum(m) + MacrosIn(decode, os)
  {
    if os != [] {
      MacrosTotal(m, decode, os[..|os| - 1]);
      OneBodyIsExact(MacrosAfter(m, decode, os[..|os| - 1]), decode, os[|os| - 1]);
    }
  }

  /** While the names fit under the cap, each name's count is the sum of its counts in the bodies. */
  lemma {:induction false} MacrosByName(m: Counts, decode: Decode, os: seq<C.Object>)
    requires |m.Keys + MacroNames(decode, os)| <= B.CAP.names
    ensures MacrosAfter(m, decode, os).Keys == m.Keys + MacroNames(decode, os)
    ensures forall name :: Get(MacrosAfter(m, decode, os), name) == Get(m, name) + MacrosNamed(decode, os, name)
  {
    if os != [] {
      var init, o := os[..|os| - 1], os[|os| - 1];
      FitsSmaller(m.Keys + MacroNames(decode, init), m.Keys + MacroNames(decode, os));
      MacrosByName(m, decode, init);
      var before := MacrosAfter(m, decode, init);
      assert before.Keys + MacrosOf(decode, o).Keys == m.Keys + MacroNames(decode, os);
      OneBodyIsExact(before, decode, o);
      assert AddsUp(before, MacrosOf(decode, o), MacrosAfter(m, decode, os));
    }
  }

  function CountedIn(t: Counters): nat {
    t.blogPosts + t.comments + t.attachments + t.users + t.groups + t.memberships + t.labels
  }

  function Claimed(t: Tally): nat { |t.spaces| + t.pages.all + CountedIn(t.counted) + t.bodies.all }

  ghost predicate Sane(t: Tally) { t.pages.live <= t.pages.all }

  lemma CounterCountsOnce(t: Counters, kind: Kind)
    requires kind.IsCounter()
    ensures CountedIn(OnCounter(t, kind)) == CountedIn(t) + 1
  {
  }

  lemma KindClaimedOnce(t: Tally, decode: Decode, kind: Kind, o: C.Object)
    requires Sane(t)
    ensures Sane(OnKind(t, decode, kind, o))
    ensures Claimed(OnKind(t, decode, kind, o)) == Claimed(t) + (if kind.Unhandled? then 0 else 1)
  {
    if kind.IsCounter() { CounterCountsOnce(t.counted, kind); }
  }

  lemma WantedAreHandled(cls: string)
    ensures ToLower(cls) in WANTED <==> !KindOf(cls).Unhandled?
  {
    RegisteredAreHandled(HANDLERS, ToLower(cls), Unhandled);
  }

  predicate Claims(o: C.Object) { !KindOf(o.cls).Unhandled? }

  lemma ObjectClaimedOnce(t: Tally, decode: Decode, o: C.Object)
    requires Sane(t)
    ensures Sane(OnObject(t, decode, o)) && Claimed(OnObject(t, decode, o)) == Claimed(t) + (if Claims(o) then 1 else 0)
  {
    KindClaimedOnce(t, decode, KindOf(o.cls), o);
  }

  ghost function ClaimsIn(os: seq<C.Object>): nat {
    if os == [] then 0 else ClaimsIn(os[..|os| - 1]) + (if Claims(os[|os| - 1]) then 1 else 0)
  }

  lemma {:induction false} ClaimsAtMost(os: seq<C.Object>)
    ensures ClaimsIn(os) <= |os|
  {
    if os != [] { ClaimsAtMost(os[..|os| - 1]); }
  }

  /** Every delivered object lands in one class or, at most, in the remainder. */
  lemma {:induction false} ObjectsClaimedOnce(t: Tally, decode: Decode, os: seq<C.Object>)
    requires Sane(t)
    ensures Sane(OnObjects(t, decode, os)) && Claimed(OnObjects(t, decode, os)) == Claimed(t) + ClaimsIn(os)
  {
    if os != [] {
      ObjectsClaimedOnce(t, decode, os[..|os| - 1]);
      ObjectClaimedOnce(OnObjects(t, decode, os[..|os| - 1]), decode, os[|os| - 1]);
    }
  }

  lemma {:induction false} CollectedOnce(t: Tally, decode: Decode, os: seq<C.Object>)
    requires t == EMPTY
    ensures Sane(OnObjects(t, decode, os)) && Claimed(OnObjects(t, decode, os)) <= |os|
  {
    NothingClaimed(t);
    ObjectsClaimedOnce(t, decode, os);
    ClaimsAtMost(os);
  }

  lemma NothingClaimed(t: Tally)
    requires t == EMPTY
    ensures Sane(t) && Claimed(t) == 0
  {
  }

  class Collector {
    const decode: Decode
    const macros: B.BodyCensus
    var spaces: seq<Space>
    var pages: Pages
    var counted: Counters
    var bodies: Bodies

    ghost function Contents(): Tally
      reads this
    {
      Tally(spaces, pages, counted, bodies)
    }

    constructor (decode: Decode)
      ensures this.decode == decode && fresh(macros)
      ensures Contents() == EMPTY && macros.Contents() == B.EMPTY
    {
      this.decode := decode;
      macros := new B.BodyCensus();
      spaces, pages := [], Pages(0, 0);
      counted, bodies := Counters(0, 0, 0, 0, 0, 0, 0), Bodies(0, 0, 0);
    }

    /** Censuses one body and merges the census; the body itself is not kept. */
    method HandleBody(o: C.Object)
      requires HasBody(o)
      modifies this`bodies, macros
      ensures bodies == OnBody(old(bodies), decode, o)
      ensures macros.macros == B.Merged(old(macros.macros), MacrosOf(decode, o))
    {
      var body := C.Prop(o, "body");
      var truncated := B.Accumulate(macros, decode(body));
      bodies := bodies.(all := bodies.all + 1, escapes := bodies.escapes + Occurrences(body, "]] >"));
      if truncated {
        bodies := bodies.(truncated := bodies.truncated + 1);
      }
    }

    method Handle(o: C.Object)
      modifies this, macros
      ensures Contents() == OnObject(old(Contents()), decode, o)
      ensures macros.macros == OnMacros(old(macros.macros), decode, o)
    {
      var kind := KindOf(o.cls);
      if kind.IsCounter() {
        counted := OnCounter(counted, kind);
      } else {
        match kind {
          case Spaces => spaces := spaces + [Space(C.Prop(o, "key"), C.Prop(o, "name"))];
          case PageObjects => pages := OnPage(pages, o);
          case BodyContents => HandleBody(o);
          case Unhandled =>
        }
      }
    }

    method HandleAll(os: seq<C.Object>)
      modifies this, macros
      ensures Contents() == OnObjects(old(Contents()), decode, os)
      ensures macros.macros == MacrosAfter(old(macros.macros), decode, os)
    {
      for i := 0 to |os|
        invariant Contents() == OnObjects(old(Contents()), decode, os[..i])
        invariant macros.macros == MacrosAfter(old(macros.macros), decode, os[..i])
      {
        assert os[..i + 1][..i] == os[..i];
        Handle(os[i]);
      }
      assert os[..|os|] == os;
    }
  }

  // ----- Folding into the ledger ------------------------------------------------------------------------

  function MacroClass(name: string): nat { Rank(MacroVerdict(name)) }

  function CoercedIn(ss: seq<Space>): nat {
    if ss == [] then 0 else CoercedIn(ss[..|ss| - 1]) + (if KeyChanges(ss[|ss| - 1].key) then 1 else 0)
  }

  function SpaceFindings(ss: seq<Space>): seq<Finding> {
    [Finding(Clean, |ss| - CoercedIn(ss), "key"), Finding(Approximated, CoercedIn(ss), "coerced")]
  }

  function SpaceEntries(ss: seq<Space>): seq<Entry> {
    [Entry(ConfluenceSpaces, false, |ss|, Positive(SpaceFindings(ss)))]
  }

  function PageEntry(t: Pages): Entry {
    Entry(ConfluencePages, false, t.all, Positive([
      Finding(Clean, t.live, "live"),
      Finding(Approximated, if t.all >= t.live then t.all - t.live else 0, "old")]))
  }

  function ContentEntries(t: Counters): seq<Entry> {
    [Whole(ConfluenceBlogs, t.blogPosts, Approximated, "blog"),
     Whole(ConfluenceComments, t.comments, Clean, "note"),
     Whole(ConfluenceAttachments, t.attachments, Clean, "file"),
     Whole(ConfluenceLabels, t.labels, Clean, "tag")]
  }

  ghost function MacroEntry(macros: Counts): Entry {
    Entry(ConfluenceMacros, true, Sum(macros), Positive([
      Finding(Clean, SumWhere(macros, MacroClass, 0), "node"),
      Finding(Approximated, SumWhere(macros, MacroClass, 1), "near"),
      Finding(Preserved, SumWhere(macros, MacroClass, 2), "kept")]))
  }

  function PeopleEntries(t: Counters): seq<Entry> {
    [Whole(ConfluenceUsers, t.users, Approximated, "email"),
     Whole(ConfluenceGroups, t.groups, Approximated, "team"),
     Whole(ConfluenceMemberships, t.memberships, Approximated, "member")]
  }

  function RemainderEntries(t: Tally, total: int): seq<Entry> {
    [Whole(ConfluenceBodies, t.bodies.all, Clean, "body"),
     Whole(ConfluenceOther, total - Claimed(t), Unmappable, "other")]
  }

  /** All Confluence classes, in report order. */
  ghost function ConfluenceEntries(t: Tally, macros: Counts, total: int): seq<Entry> {
    Flat([SpaceEntries(t.spaces), [PageEntry(t.pages)], ContentEntries(t.counted), [MacroEntry(macros)],
          PeopleEntries(t.counted), RemainderEntries(t, total)])
  }

  lemma ConfluenceOrder(t: Tally, macros: Counts, total: int)
    ensures ConfluenceEntries(t, macros, total)
      == SpaceEntries(t.spaces) + [PageEntry(t.pages)] + ContentEntries(t.counted) + [MacroEntry(macros)]
         + PeopleEntries(t.counted) + RemainderEntries(t, total)
  {
    FlatOfSix(SpaceEntries(t.spaces), [PageEntry(t.pages)], ContentEntries(t.counted), [MacroEntry(macros)],
      PeopleEntries(t.counted), RemainderEntries(t, total));
  }

  method CountCoerced(ss: seq<Space>) returns (coerced: nat)
    ensures coerced == CoercedIn(ss)
  {
    coerced := 0;
    for i := 0 to |ss|
      invariant coerced == CoercedIn(ss[..i])
    {
      assert ss[..i + 1][..i] == ss[..i];
      if KeyChanges(ss[i].key) {
        coerced := coerced + 1;
      }
    }
    assert ss[..|ss|] == ss;
  }

  method FoldSpaces(ss: seq<Space>, l: Ledger)
    requires l.Valid() && Unused(l.Contents(), ConfluenceSpaces)
    modifies l
    ensures forall c :: c in l.classes ==> c in old(l.classes) || fresh(c)
    ensures l.Valid() && l.Contents() == old(l.Contents()) + SpaceEntries(ss)
  {
    var coerced := CountCoerced(ss);
    var findings := [Finding(Clean, |ss| - coerced, "key"), Finding(Approximated, coerced, "coerced")];
    assert findings == SpaceFindings(ss);
    Record(l, ConfluenceSpaces, false, |ss|, findings);
  }

  method FoldPages(t: Pages, l: Ledger)
    requires l.Valid() && Unused(l.Contents(), ConfluencePages)
    modifies l
    ensures forall c :: c in l.classes ==> c in old(l.classes) || fresh(c)
    ensures l.Valid() && l.Contents() == old(l.Contents()) + [PageEntry(t)]
  {
    Record(l, ConfluencePages, false, t.all, [
      Finding(Clean, t.live, "live"),
      Finding(Approximated, if t.all >= t.live then t.all - t.live else 0, "old")]);
  }

  method FoldContent(t: Counters, l: Ledger)
    requires l.Valid() && Unused(l.Contents(), ConfluenceBlogs) && Unused(l.Contents(), ConfluenceComments)
    requires Unused(l.Contents(), ConfluenceAttachments) && Unused(l.Contents(), ConfluenceLabels)
    modifies l
    ensures forall c :: c in l.classes ==> c in old(l.classes) || fresh(c)
    ensures l.Valid() && l.Contents() == old(l.Contents()) + ContentEntries(t)
  {
    RecordTwo(l, Share(ConfluenceBlogs, t.blogPosts, Approximated, "blog"),
              Share(ConfluenceComments, t.comments, Clean, "note"));
    RecordTwo(l, Share(ConfluenceAttachments, t.attachments, Clean, "file"),
              Share(ConfluenceLabels, t.labels, Clean, "tag"));
  }

  method FoldMacros(macros: Counts, l: Ledger)
    requires l.Valid() && Unused(l.Contents(), ConfluenceMacros)
    modifies l
    ensures forall c :: c in l.classes ==> c in old(l.classes) || fresh(c)
    ensures l.Valid() && l.Contents() == old(l.Contents()) + [MacroEntry(macros)]
  {
    MacroClasses(macros);
    var total := SumCounts(macros);
    var n := SumClasses(macros, MacroClass);
    Record(l, ConfluenceMacros, true, total, [
      Finding(Clean, n[0], "node"),
      Finding(Approximated, n[1], "near"),
      Finding(Preserved, n[2], "kept")]);
  }

  method FoldPeople(t: Counters, l: Ledger)
    requires l.Valid() && Unused(l.Contents(), ConfluenceUsers) && Unused(l.Contents(), ConfluenceGroups)
    requires Unused(l.Contents(), ConfluenceMemberships)
    modifies l
    ensures forall c :: c in l.classes ==> c in old(l.classes) || fresh(c)
    ensures l.Valid() && l.Contents() == old(l.Contents()) + PeopleEntries(t)
  {
    RecordWhole(l, ConfluenceUsers, t.users, Approximated, "email");
    RecordWhole(l, ConfluenceGroups, t.groups, Approximated, "team");
    RecordWhole(l, ConfluenceMemberships, t.memberships, Approximated, "member");
  }

  method FoldRemainder(t: Tally, total: int, l: Ledger)
    requires l.Valid() && Unused(l.Contents(), ConfluenceBodies) && Unused(l.Contents(), ConfluenceOther)
    modifies l
    ensures forall c :: c in l.classes ==> c in old(l.classes) || fresh(c)
    ensures l.Valid() && l.Contents() == old(l.Contents()) + RemainderEntries(t, total)
  {
    RecordWhole(l, ConfluenceBodies, t.bodies.all, Clean, "body");
    var remaining := total - Claimed(t);
    RecordWhole(l, ConfluenceOther, remaining, Unmappable, "other");
  }

  // ----- The ledger always closes --------------------------------------------------------------------------

  lemma MacroClassRange(name: string)
    ensures MacroClass(name) in {0, 1, 2}
  {
  }

  lemma MacroClasses(macros: Counts)
    ensures forall name :: name in macros ==> MacroClass(name) < 4 && MacroClass(name) != 3
  {
    forall name | name in macros ensures MacroClass(name) < 4 && MacroClass(name) != 3 { MacroClassRange(name); }
  }

  lemma {:induction false} CoercedAtMost(ss: seq<Space>)
    ensures CoercedIn(ss) <= |ss|
  {
    if ss != [] { CoercedAtMost(ss[..|ss| - 1]); }
  }

  lemma SpacesClose(ss: seq<Space>)
    ensures AllReconciled(SpaceEntries(ss)) && RowsObserved(SpaceEntries(ss)) == |ss|
  {
    CoercedAtMost(ss);
    var e := SpaceEntries(ss)[0];
    Closes2(e, Finding(Clean, |ss| - CoercedIn(ss), "key"),
            Finding(Approximated, CoercedIn(ss), "coerced"));
    RowsOfThree(e, e, e);
    assert SpaceEntries(ss) == [e];
  }

  lemma PagesClose(t: Pages)
    requires t.live <= t.all
    ensures AllReconciled([PageEntry(t)]) && RowsObserved([PageEntry(t)]) == t.all
  {
    Closes2(PageEntry(t), Finding(Clean, t.live, "live"),
            Finding(Approximated, t.all - t.live, "old"));
    RowsOfThree(PageEntry(t), PageEntry(t), PageEntry(t));
  }

  lemma ContentCloses(t: Counters)
    ensures AllReconciled(ContentEntries(t))
    ensures RowsObserved(ContentEntries(t)) == t.blogPosts + t.comments + t.attachments + t.labels
  {
    var es := ContentEntries(t);
    WholeCloses(ConfluenceBlogs, t.blogPosts, Approximated, "blog");
    WholeCloses(ConfluenceComments, t.comments, Clean, "note");
    WholeCloses(ConfluenceAttachments, t.attachments, Clean, "file");
    WholeCloses(ConfluenceLabels, t.labels, Clean, "tag");
    RowsOfFour(es[0], es[1], es[2], es[3]);
  }

  /** The table knows three of the four verdicts, so the three findings are the whole class. */
  lemma MacrosClose(macros: Counts)
    ensures AllReconciled([MacroEntry(macros)]) && RowsObserved([MacroEntry(macros)]) == 0
  {
    MacroClasses(macros);
    ClassesPartition(macros, MacroClass);
    assert Where(macros, MacroClass, 3) == map[];
    Closes3(MacroEntry(macros),
            Finding(Clean, SumWhere(macros, MacroClass, 0), "node"),
            Finding(Approximated, SumWhere(macros, MacroClass, 1), "near"),
            Finding(Preserved, SumWhere(macros, MacroClass, 2), "kept"));
    RowsOfThree(MacroEntry(macros), MacroEntry(macros), MacroEntry(macros));
  }

  lemma PeopleClose(t: Counters)
    ensures AllReconciled(PeopleEntries(t)) && RowsObserved(PeopleEntries(t)) == t.users + t.groups + t.memberships
  {
    var es := PeopleEntries(t);
    WholeCloses(ConfluenceUsers, t.users, Approximated, "email");
    WholeCloses(ConfluenceGroups, t.groups, Approximated, "team");
    WholeCloses(ConfluenceMemberships, t.memberships, Approximated, "member");
    RowsOfThree(es[0], es[1], es[2]);
  }

  /** The remainder closes exactly when it is not negative. */
  lemma RemainderCloses(t: Tally, total: int)
    ensures AllReconciled(RemainderEntries(t, total)) <==> Claimed(t) <= total
    ensures RowsObserved(RemainderEntries(t, total)) == t.bodies.all + (total - Claimed(t))
  {
    var es := RemainderEntries(t, total);
    WholeCloses(ConfluenceBodies, t.bodies.all, Clean, "body");
    if Claimed(t) <= total {
      WholeCloses(ConfluenceOther, total - Claimed(t), Unmappable, "other");
    } else {
      assert es[1] in es && es[1].observed < 0;
    }
    RowsOfThree(es[0], es[1], es[1]);
  }

  /** Whatever was tallied, the Confluence classes close and account for every object the parser
      counted, exactly when no object was claimed twice. */
  lemma ConfluenceLedgerCloses(t: Tally, macros: Counts, total: int)
    requires Sane(t)
    ensures AllReconciled(ConfluenceEntries(t, macros, total)) <==> Claimed(t) <= total
    ensures RowsObserved(ConfluenceEntries(t, macros, total)) == total
  {
    ConfluenceOrder(t, macros, total);
    SpacesClose(t.spaces);
    PagesClose(t.pages);
    ContentCloses(t.counted);
    MacrosClose(macros);
    PeopleClose(t.counted);
    RemainderCloses(t, total);
    var a := SpaceEntries(t.spaces);
    var b := a + [PageEntry(t.pages)];
    var c := b + ContentEntries(t.counted);
    var d := c + [MacroEntry(macros)];
    var e := d + PeopleEntries(t.counted);
    RowsConcat(a, [PageEntry(t.pages)]);
    RowsConcat(b, ContentEntries(t.counted));
    RowsConcat(c, [MacroEntry(macros)]);
    RowsConcat(d, PeopleEntries(t.counted));
    RowsConcat(e, RemainderEntries(t, total));
  }
}
