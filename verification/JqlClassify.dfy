/**
  The JQL classifier of internal/assess/jql/classify.go: how much of a JQL query a
  saved view's filter document could express.
 */
module JqlClassify {
  import opened Text
  import opened JqlLex
  import opened JqlSplit

  datatype Option<T> = None | Some(value: T)

  datatype Expressibility = Expressible | Partial | NotExpressible

  /** field and operator are "" when the clause is not a comparison; filterField is "" when nothing maps. */
  datatype Clause = Clause(field: string, operator: string, verdict: Expressibility, filterField: string)

  /** Reasons about the query's shape rather than its fields. */
  datatype Finding =
    | CrossFieldOR | UnnegatableNot | Grouping | ManySortKeys(n: nat) | UnsortableKey(key: string) | NoText

  datatype Query = Query(clauses: seq<Clause>, structural: seq<Finding>, verdict: Expressibility)

  datatype Mapping = Mapping(filterField: string, verdict: Expressibility)

  function Rank(e: Expressibility): nat {
    match e case Expressible => 0 case Partial => 1 case NotExpressible => 2
  }

  function Worse(a: Expressibility, b: Expressibility): Expressibility { if Rank(b) > Rank(a) then b else a }

  // ----- The vocabulary --------------------------------------------------------------

  function FieldMapping(field: string): Option<Mapping> {
    match field
    case "project" => Some(Mapping("space_ids", Expressible))
    case "status" => Some(Mapping("statuses", Expressible))
    case "priority" => Some(Mapping("priorities", Partial))
    case "assignee" => Some(Mapping("assignees", Expressible))
    case "issuetype" => Some(Mapping("kinds", Partial))
    case "type" => Some(Mapping("kinds", Partial))
    case "sprint" => Some(Mapping("sprint_ids", Partial))
    case "summary" => Some(Mapping("text", Partial))
    case "text" => Some(Mapping("text", Partial))
    case "description" => Some(Mapping("text", Partial))
    case "comment" => Some(Mapping("text", Partial))
    case _ => None
  }

  /** The filter column of a JQL date field; "" where the product has none. */
  function DateColumn(field: string): Option<string> {
    match field
    case "created" => Some("created_at")
    case "createddate" => Some("created_at")
    case "updated" => Some("updated_at")
    case "updateddate" => Some("updated_at")
    case "duedate" => Some("due_at")
    case "due" => Some("due_at")
    case "resolved" => Some("resolved_at")
    case "resolutiondate" => Some("resolved_at")
    case "lastviewed" => Some("")
    case "worklogdate" => Some("")
    case _ => None
  }

  /** Half-open ranges: >= and < land exactly, > <= and = only nearly. */
  function DateBound(norm: string): Option<Expressibility> {
    match norm
    case ">=" => Some(Expressible)
    case "<" => Some(Expressible)
    case ">" => Some(Partial)
    case "<=" => Some(Partial)
    case "=" => Some(Partial)
    case _ => None
  }

  predicate IsHistoryOperator(norm: string) { norm in {"was", "changed", "wasnot", "wasin", "wasnotin"} }

  predicate IsNegatingOperator(norm: string) { norm in {"!=", "!~", "notin", "isnot"} }

  predicate IsOrderingOperator(norm: string) { norm in {">", "<", ">=", "<="} }

  predicate IsNegatable(filterField: string) {
    filterField in {"space_ids", "statuses", "priorities", "assignees", "kinds", "sprint_ids"}
  }

  predicate IsSortable(key: string) {
    key in {"updated", "updateddate", "created", "createddate", "duedate", "due", "resolved", "resolutiondate",
            "priority", "summary"}
  }

  function Norm(operator: string): string { ToLower(DropBlanks(operator)) }

  // ----- One clause ------------------------------------------------------------------

  predicate IsWordOperator(w: string) { w in {"in", "is", "not", "was", "changed"} }

  /** Field and operator, the operator possibly of two words. */
  function ReadTriple(ts: seq<Token>): Option<(string, string)> {
    if |ts| < 2 then None
    else
      var field := ToLower(TrimQuotes(ts[0].text));
      var first := ToLower(ts[1].text);
      if ts[1].kind.Operator? then Some((field, ts[1].text))
      else if !IsWordOperator(first) then None
      else if |ts| > 2 && ts[2].kind.Word? && IsWordOperator(ToLower(ts[2].text)) then
        Some((field, first + " " + ToLower(ts[2].text)))
      else Some((field, first))
  }

  predicate IsCall(t: Token) { !t.quoted && '(' in t.text }

  function CallName(t: Token): string { ToLower(UpTo(t.text, '(')) }

  predicate AllDigits(s: string) { s != "" && forall i :: 0 <= i < |s| ==> '0' <= s[i] <= '9' }

  /** A sign, digits, and a unit out of w, d, h and m: the unit, or None. */
  function RelativeUnit(v: string): Option<char> {
    if |v| >= 3 && v[0] in "+-" && AllDigits(v[1..|v| - 1]) && v[|v| - 1] in "wdhm" then Some(v[|v| - 1]) else None
  }

  function ClassifyDateValue(ts: seq<Token>): Expressibility {
    if ts == [] then NotExpressible
    else
      var raw := ts[|ts| - 1];
      if IsCall(raw) then (if CallName(raw) == "now" then Expressible else NotExpressible)
      else match RelativeUnit(TrimQuotes(raw.text))
        case Some(unit) => if unit in "dw" then Expressible else NotExpressible
        case None => Partial
  }

  function ClassifyDateClause(c: Clause, column: string, ts: seq<Token>): Clause {
    if column == "" then c
    else
      var c := c.(filterField := column);
      var norm := Norm(c.operator);
      if IsHistoryOperator(norm) || norm == "is" || norm == "isnot" || IsNegatingOperator(norm) then c
      else match DateBound(norm)
        case None => c
        case Some(bound) =>
          var value := ClassifyDateValue(ts);
          if Rank(value) > Rank(bound) then c.(verdict := value)
          else if value == Partial && bound == Expressible then c.(verdict := Partial)
          else c.(verdict := bound)
  }

  /** The verdict of the first function operand, if there is one. */
  function FunctionVerdict(ts: seq<Token>, m: Mapping): Option<Expressibility> {
    if ts == [] then None
    else if !IsCall(ts[0]) || CallName(ts[0]) == "" then FunctionVerdict(ts[1..], m)
    else if CallName(ts[0]) == "currentuser" && m.filterField == "assignees" then Some(Expressible)
    else Some(NotExpressible)
  }

  /** What a negating operator leaves of a clause; None for the other operators. */
  function NegationVerdict(operator: string, filterField: string): Option<Expressibility> {
    var norm := Norm(operator);
    if !IsNegatingOperator(norm) then None
    else if norm == "!~" then Some(NotExpressible)
    else if norm == "isnot" then Some(if filterField == "assignees" then Expressible else NotExpressible)
    else Some(if IsNegatable(filterField) then Expressible else NotExpressible)
  }

  function HasPrefix(s: string, prefix: string): bool { prefix <= s }

  predicate IsCustomFieldName(ts: seq<Token>) { ts != [] && ts[0].quoted && ' ' in ts[0].text }

  function ClassifyField(c: Clause, field: string, ts: seq<Token>): Clause {
    if HasPrefix(field, "cf[") || IsCustomFieldName(ts) || FieldMapping(field).None? then c
    else
      var m := FieldMapping(field).value;
      var mapped := c.(filterField := m.filterField,
                       verdict := match FunctionVerdict(ts, m) case Some(v) => v case None => m.verdict);
      match NegationVerdict(c.operator, m.filterField)
      case Some(neg) => if Rank(neg) > Rank(mapped.verdict) then mapped.(verdict := neg) else mapped
      case None => mapped
  }

  function ClassifyClause(ts: seq<Token>): Clause {
    match ReadTriple(ts)
    case None => Clause("", "", NotExpressible, "")
    case Some((field, op)) =>
      var c := Clause(field, op, NotExpressible, "");
      if DateColumn(field).Some? then ClassifyDateClause(c, DateColumn(field).value, ts)
      else if IsHistoryOperator(Norm(op)) || IsOrderingOperator(Norm(op)) then c
      else ClassifyField(c, field, ts)
  }

  // ----- What a clause's verdict is made of ---------------------------------------------

  /** A date clause is as bad as the worst of its operator and its value, and not expressible
      when it has no column or no bound. */
  lemma DateVerdictIsWorst(ts: seq<Token>)
    requires ReadTriple(ts).Some? && DateColumn(ReadTriple(ts).value.0).Some?
    ensures var (field, op) := ReadTriple(ts).value;
            var column, bound := DateColumn(field).value, DateBound(Norm(op));
            ClassifyClause(ts).verdict ==
              if column == "" || bound.None? then NotExpressible else Worse(bound.value, ClassifyDateValue(ts))
  {
    var norm := Norm(ReadTriple(ts).value.1);
    if DateBound(norm).Some? {
      assert norm in {">=", "<", ">", "<=", "="};
    }
  }

  lemma {:induction false} CallVerdicts(ts: seq<Token>, m: Mapping)
    ensures FunctionVerdict(ts, m).Some? ==>
              FunctionVerdict(ts, m).value == NotExpressible ||
              (FunctionVerdict(ts, m).value == Expressible && m.filterField == "assignees")
  {
    if ts != [] { CallVerdicts(ts[1..], m); }
  }

  lemma MappedFields(field: string)
    requires FieldMapping(field).Some?
    ensures DateColumn(field).None? && (|field| < 2 || field[0] != 'c' || field[1] != 'f')
    ensures FieldMapping(field).value.filterField == "assignees" ==> FieldMapping(field).value.verdict == Expressible
    ensures FieldMapping(field).value.verdict != NotExpressible
  {
  }

  /** The clause is on a field the filter has, and its operator is not of a class refused outright. */
  ghost predicate IsMappedComparison(ts: seq<Token>) {
    && ReadTriple(ts).Some?
    && FieldMapping(ReadTriple(ts).value.0).Some?
    && !IsCustomFieldName(ts)
    && !IsHistoryOperator(Norm(ReadTriple(ts).value.1))
    && !IsOrderingOperator(Norm(ReadTriple(ts).value.1))
  }

  function OrExpressible(v: Option<Expressibility>): Expressibility {
    match v case Some(e) => e case None => Expressible
  }

  /** On a mapped field, function operands and negation only ever narrow. */
  lemma {:induction false} FieldVerdictIsWorst(ts: seq<Token>)
    requires IsMappedComparison(ts)
    ensures var (field, op) := ReadTriple(ts).value;
            var m := FieldMapping(field).value;
            && ClassifyClause(ts).filterField == m.filterField
            && ClassifyClause(ts).verdict == Worse(
                 Worse(m.verdict, OrExpressible(FunctionVerdict(ts, m))),
                 OrExpressible(NegationVerdict(op, m.filterField)))
  {
    var (field, op) := ReadTriple(ts).value;
    MappedFields(field);
    CallVerdicts(ts, FieldMapping(field).value);
    assert ClassifyClause(ts) == ClassifyField(Clause(field, op, NotExpressible, ""), field, ts);
  }

  /** != and NOT IN survive exactly on the six membership fields, and nothing else stops them
      but a function operand. */
  lemma {:induction false} NegationSurvivesOnMembership(ts: seq<Token>)
    requires IsMappedComparison(ts)
    requires Norm(ReadTriple(ts).value.1) == "!=" || Norm(ReadTriple(ts).value.1) == "notin"
    ensures var m := FieldMapping(ReadTriple(ts).value.0).value;
            ClassifyClause(ts).verdict != NotExpressible <==>
              IsNegatable(m.filterField) && FunctionVerdict(ts, m) != Some(NotExpressible)
  {
    var (field, op) := ReadTriple(ts).value;
    MappedFields(field);
    FieldVerdictIsWorst(ts);
    PlainNegation(op, FieldMapping(field).value.filterField);
  }

  lemma PlainNegation(op: string, filterField: string)
    requires Norm(op) == "!=" || Norm(op) == "notin"
    ensures NegationVerdict(op, filterField) == Some(if IsNegatable(filterField) then Expressible else NotExpressible)
  {
    if Norm(op) == "!=" { assert Norm(op)[1] == '='; }
  }

  // ----- The whole query -----------------------------------------------------------------

  predicate OrderByAt(ts: seq<Token>, i: nat) {
    i + 1 < |ts| && !ts[i].quoted && EqualFold(ts[i].text, "ORDER") && EqualFold(ts[i + 1].text, "BY")
  }

  /** Where the filter ends and the sort begins. */
  ghost predicate BodyEnds(ts: seq<Token>, n: nat) {
    n <= |ts| && (n == |ts| || OrderByAt(ts, n)) && forall i :: 0 <= i < n ==> !OrderByAt(ts, i)
  }

  function BodyEnd(ts: seq<Token>, from: nat): nat
    requires from <= |ts|
    decreases |ts| - from
  {
    if from == |ts| || OrderByAt(ts, from) then from else BodyEnd(ts, from + 1)
  }

  function Body(ts: seq<Token>): seq<Token> {
    BodyEndIs(ts, 0);
    ts[..BodyEnd(ts, 0)]
  }

  function OrderBy(ts: seq<Token>): seq<Token> {
    BodyEndIs(ts, 0);
    if BodyEnd(ts, 0) == |ts| then [] else ts[BodyEnd(ts, 0) + 2..]
  }

  lemma {:induction false} BodyEndIs(ts: seq<Token>, from: nat)
    requires from <= |ts| && forall i :: 0 <= i < from ==> !OrderByAt(ts, i)
    ensures BodyEnds(ts, BodyEnd(ts, from))
    decreases |ts| - from
  {
    if from < |ts| && !OrderByAt(ts, from) { BodyEndIs(ts, from + 1); }
  }

  lemma {:induction false} BodyEndUnique(ts: seq<Token>, n: nat)
    requires BodyEnds(ts, n)
    ensures BodyEnd(ts, 0) == n
  {
    BodyEndIs(ts, 0);
  }

  predicate CrossFieldAt(gs: seq<Group>, cs: seq<Clause>, i: nat) {
    0 < i < |gs| && i < |cs| && gs[i].joinedByOR && cs[i - 1].field != cs[i].field
  }

  ghost predicate CrossesFields(gs: seq<Group>, cs: seq<Clause>) { exists i: nat :: CrossFieldAt(gs, cs, i) }

  predicate UnnegatableAt(gs: seq<Group>, cs: seq<Clause>, i: nat) {
    i < |gs| && gs[i].negated && !(i < |cs| && IsNegatable(cs[i].filterField))
  }

  ghost predicate NegatesUnnegatable(gs: seq<Group>, cs: seq<Clause>) { exists i: nat :: UnnegatableAt(gs, cs, i) }

  ghost predicate Groups(gs: seq<Group>) { exists i :: 0 <= i < |gs| && gs[i].grouped }

  ghost function Structural(gs: seq<Group>, cs: seq<Clause>): seq<Finding> {
    (if CrossesFields(gs, cs) then [CrossFieldOR] else [])
    + (if NegatesUnnegatable(gs, cs) then [UnnegatableNot] else [])
    + (if Groups(gs) then [Grouping] else [])
  }

  predicate IsSortWord(t: Token) { !t.kind.Comma? && ToLower(TrimQuotes(t.text)) !in {"asc", "desc", ""} }

  function SortKeys(ts: seq<Token>): seq<string> {
    if ts == [] then []
    else
      var last := ts[|ts| - 1];
      SortKeys(ts[..|ts| - 1]) + (if IsSortWord(last) then [ToLower(TrimQuotes(last.text))] else [])
  }

  function UnsortableKeys(keys: seq<string>): seq<Finding> {
    if keys == [] then []
    else
      var last := keys[|keys| - 1];
      UnsortableKeys(keys[..|keys| - 1]) + (if IsSortable(last) then [] else [UnsortableKey(last)])
  }

  function SortFindings(ts: seq<Token>): seq<Finding> {
    (if |SortKeys(ts)| > 1 then [ManySortKeys(|SortKeys(ts)|)] else []) + UnsortableKeys(SortKeys(ts))
  }

  lemma {:induction false} AllSortable(keys: seq<string>)
    ensures UnsortableKeys(keys) == [] <==> forall key :: key in keys ==> IsSortable(key)
  {
    if keys != [] {
      var init, last := keys[..|keys| - 1], keys[|keys| - 1];
      assert keys == init + [last];
      AllSortable(init);
    }
  }

  /** A sort survives exactly when it names at most one key and that key can be sorted by; any other
      makes the whole query inexpressible. */
  lemma SortSurvives(ts: seq<Token>)
    ensures SortFindings(OrderBy(ts)) == [] <==>
              |SortKeys(OrderBy(ts))| <= 1 && forall key :: key in SortKeys(OrderBy(ts)) ==> IsSortable(key)
    ensures SortFindings(OrderBy(ts)) != [] ==> Classified(ts).verdict == NotExpressible
    ensures SortFindings(OrderBy(ts)) == [] ==> Classified(ts).verdict == Classified(Body(ts)).verdict
  {
    AllSortable(SortKeys(OrderBy(ts)));
    BodyIsUnsorted(ts);
    NoOrderBy(Body(ts));
  }

  lemma BodyIsUnsorted(ts: seq<Token>)
    ensures Body(Body(ts)) == Body(ts)
  {
    BodyEndIs(ts, 0);
    var body := Body(ts);
    forall i | 0 <= i < |body| ensures !OrderByAt(body, i) {
      assert !OrderByAt(ts, i);
    }
    BodyEndUnique(body, |body|);
  }

  function ClausesOf(gs: seq<Group>): (cs: seq<Clause>)
    ensures |cs| == |gs|
  {
    seq(|gs|, i requires 0 <= i < |gs| => ClassifyClause(gs[i].tokens))
  }

  function WorstOf(cs: seq<Clause>): Expressibility {
    if cs == [] then Expressible else Worse(WorstOf(cs[..|cs| - 1]), cs[|cs| - 1].verdict)
  }

  function Overall(cs: seq<Clause>, structural: seq<Finding>): Expressibility {
    if cs == [] || structural != [] then NotExpressible else WorstOf(cs)
  }

  /** The classification of a token stream. */
  ghost function Classified(ts: seq<Token>): Query {
    var gs := SplitClauses(Body(ts));
    var cs := ClausesOf(gs);
    var structural := SortFindings(OrderBy(ts)) + Structural(gs, cs);
    Query(cs, structural, Overall(cs, structural))
  }

  method Classify(input: string) returns (q: Query)
    ensures q == if TrimSpace(input) == "" then Query([], [NoText], NotExpressible)
                 else Classified(LexTokens(TrimSpace(input)))
  {
    var raw := TrimSpace(input);
    if raw == "" {
      return Query([], [NoText], NotExpressible);
    }
    var tokens := Lex(raw);
    var body, orderBy := SplitOrderBy(tokens);
    var structural := ClassifyOrderBy(orderBy);
    var groups := Split(body);
    var clauses := ClassifyGroups(groups);
    var shape := StructuralFindings(groups, clauses);
    structural := structural + shape;
    var verdict := OverallVerdict(clauses, structural);
    return Query(clauses, structural, verdict);
  }

  method ClassifyGroups(groups: seq<Group>) returns (clauses: seq<Clause>)
    ensures clauses == ClausesOf(groups)
  {
    clauses := [];
    for i := 0 to |groups|
      invariant clauses == ClausesOf(groups)[..i]
    {
      clauses := clauses + [ClassifyClause(groups[i].tokens)];
    }
  }

  method SplitOrderBy(ts: seq<Token>) returns (body: seq<Token>, orderBy: seq<Token>)
    ensures body == Body(ts) && orderBy == OrderBy(ts)
  {
    var i := 0;
    while i + 1 < |ts|
      invariant i <= |ts| && forall j :: 0 <= j < i ==> !OrderByAt(ts, j)
    {
      if !ts[i].quoted && EqualFold(ts[i].text, "ORDER") && EqualFold(ts[i + 1].text, "BY") {
        BodyEndUnique(ts, i);
        return ts[..i], ts[i + 2..];
      }
      i := i + 1;
    }
    BodyEndUnique(ts, |ts|);
    return ts, [];
  }

  method ClassifyOrderBy(ts: seq<Token>) returns (out: seq<Finding>)
    ensures out == SortFindings(ts)
  {
    out := [];
    var keys := [];
    for i := 0 to |ts|
      invariant keys == SortKeys(ts[..i])
    {
      assert ts[..i + 1][..i] == ts[..i];
      if IsSortWord(ts[i]) {
        keys := keys + [ToLower(TrimQuotes(ts[i].text))];
      }
    }
    assert ts[..|ts|] == ts;
    if |keys| > 1 {
      out := [ManySortKeys(|keys|)];
    }
    ghost var head := out;
    for i := 0 to |keys|
      invariant out == head + UnsortableKeys(keys[..i])
    {
      assert keys[..i + 1][..i] == keys[..i];
      if !IsSortable(keys[i]) {
        out := out + [UnsortableKey(keys[i])];
      }
    }
    assert keys[..|keys|] == keys;
  }

  method CrossFieldOr(gs: seq<Group>, cs: seq<Clause>) returns (found: bool)
    ensures found <==> CrossesFields(gs, cs)
  {
    for i := 0 to |gs|
      invariant forall j: nat :: j < i ==> !CrossFieldAt(gs, cs, j)
    {
      if !gs[i].joinedByOR || i == 0 || i >= |cs| {
        continue;
      }
      if cs[i - 1].field != cs[i].field {
        assert CrossFieldAt(gs, cs, i);
        return true;
      }
    }
    return false;
  }

  method CountGrouped(gs: seq<Group>) returns (n: nat)
    ensures n > 0 <==> Groups(gs)
  {
    n := 0;
    for i := 0 to |gs|
      invariant n > 0 <==> exists j :: 0 <= j < i && gs[j].grouped
    {
      if gs[i].grouped {
        n := n + 1;
      }
    }
  }

  method StructuralFindings(gs: seq<Group>, cs: seq<Clause>) returns (out: seq<Finding>)
    ensures out == Structural(gs, cs)
  {
    out := [];
    var crosses := CrossFieldOr(gs, cs);
    if crosses {
      out := out + [CrossFieldOR];
    }
    ghost var head := out;
    for i := 0 to |gs|
      invariant out == head && forall j: nat :: j < i ==> !UnnegatableAt(gs, cs, j)
    {
      if !gs[i].negated || (i < |cs| && IsNegatable(cs[i].filterField)) {
        continue;
      }
      assert UnnegatableAt(gs, cs, i);
      out := out + [UnnegatableNot];
      break;
    }
    assert out == head + (if NegatesUnnegatable(gs, cs) then [UnnegatableNot] else []);
    var nested := CountGrouped(gs);
    if nested > 0 {
      out := out + [Grouping];
    }
  }

  method OverallVerdict(cs: seq<Clause>, structural: seq<Finding>) returns (worst: Expressibility)
    ensures worst == Overall(cs, structural)
  {
    worst := Expressible;
    for i := 0 to |cs|
      invariant worst == WorstOf(cs[..i])
    {
      assert cs[..i + 1][..i] == cs[..i];
      worst := Worse(worst, cs[i].verdict);
    }
    assert cs[..|cs|] == cs;
    if |structural| > 0 {
      worst := Worse(worst, NotExpressible);
    }
    if |cs| == 0 {
      return NotExpressible;
    }
  }

  // ----- Conjunctions and disjunctions ---------------------------------------------------

  predicate IsAnd(t: Token) { t.kind.Word? && IsConnective(t) && !IsOR(t) }

  predicate IsOr(t: Token) { t.kind.Word? && IsConnective(t) && IsOR(t) }

  lemma FoldedHead(a: string, b: string)
    requires EqualFold(a, b) && b != ""
    ensures |a| == |b| && |ToUpper(a)| == |a| && ToUpper(a)[0] == UpperRune(b[0])
  {
    assert LowerRune(a[0]) == ToLower(a)[0] == ToLower(b)[0] == LowerRune(b[0]);
  }

  lemma ConnectiveIsNoOrderBy(t: Token)
    requires IsConnective(t)
    ensures !EqualFold(t.text, "ORDER") && !EqualFold(t.text, "BY")
  {
    if EqualFold(t.text, "BY") { FoldedHead(t.text, "BY"); }
    if EqualFold(t.text, "ORDER") { FoldedHead(t.text, "ORDER"); }
  }

  /** The sort of first CONNECTIVE second is the sort of second. */
  lemma OrderByOfJoin(first: seq<Token>, c: Token, second: seq<Token>)
    requires IsConnective(c) && Body(first) == first
    ensures var all := first + [c] + second;
            Body(all) == first + [c] + Body(second) && OrderBy(all) == OrderBy(second)
  {
    var all := first + [c] + second;
    var n := BodyEnd(second, 0);
    BodyEndIs(second, 0);
    BodyEndIs(first, 0);
    assert BodyEnd(first, 0) == |first|;
    ConnectiveIsNoOrderBy(c);
    var m := |first| + 1 + n;
    forall i | 0 <= i < m ensures !OrderByAt(all, i) {
      if i < |first| {
        assert !OrderByAt(first, i);
      } else if i > |first| {
        assert !OrderByAt(second, i - |first| - 1);
      }
    }
    if n < |second| { assert OrderByAt(all, m); }
    BodyEndUnique(all, m);
    assert all[..m] == first + [c] + second[..n];
    if n < |second| { assert all[m + 2..] == second[n + 2..]; }
  }

  lemma {:induction false} WorstOfConcat(a: seq<Clause>, b: seq<Clause>)
    ensures WorstOf(a + b) == Worse(WorstOf(a), WorstOf(b))
  {
    if b == [] {
      assert a + b == a;
    } else {
      assert (a + b)[..|a + b| - 1] == a + b[..|b| - 1];
      WorstOfConcat(a, b[..|b| - 1]);
    }
  }

  lemma UnnegatableConcat(ga: seq<Group>, ca: seq<Clause>, gb: seq<Group>, cb: seq<Clause>)
    requires |ga| == |ca| && |gb| == |cb|
    ensures NegatesUnnegatable(ga + gb, ca + cb) <==> NegatesUnnegatable(ga, ca) || NegatesUnnegatable(gb, cb)
  {
    if i: nat :| UnnegatableAt(ga + gb, ca + cb, i) {
      if i < |ga| { assert UnnegatableAt(ga, ca, i); } else { assert UnnegatableAt(gb, cb, i - |ga|); }
    }
    if i: nat :| UnnegatableAt(ga, ca, i) { assert UnnegatableAt(ga + gb, ca + cb, i); }
    if i: nat :| UnnegatableAt(gb, cb, i) {
      var j := |ga| + i;
      assert UnnegatableAt(ga + gb, ca + cb, j);
    }
  }

  lemma GroupsConcat(ga: seq<Group>, gb: seq<Group>)
    ensures Groups(ga + gb) <==> Groups(ga) || Groups(gb)
  {
    if i :| 0 <= i < |ga| && ga[i].grouped { assert (ga + gb)[i].grouped; }
    if i :| 0 <= i < |gb| && gb[i].grouped { assert (ga + gb)[|ga| + i].grouped; }
  }

  /** Joining adds a cross-field OR at the seam only. */
  lemma CrossConcat(ga: seq<Group>, ca: seq<Clause>, gb: seq<Group>, cb: seq<Clause>)
    requires |ga| == |ca| > 0 && |gb| == |cb| > 0
    ensures CrossesFields(ga + gb, ca + cb) <==>
              CrossesFields(ga, ca) || CrossesFields(gb, cb)
              || (gb[0].joinedByOR && ca[|ca| - 1].field != cb[0].field)
  {
    var g, c := ga + gb, ca + cb;
    if i: nat :| CrossFieldAt(g, c, i) {
      if i < |ga| { assert CrossFieldAt(ga, ca, i); }
      if i > |ga| { assert CrossFieldAt(gb, cb, i - |ga|); }
    }
    if i: nat :| CrossFieldAt(ga, ca, i) { assert CrossFieldAt(g, c, i); }
    if i: nat :| CrossFieldAt(gb, cb, i) {
      var j := |ga| + i;
      assert CrossFieldAt(g, c, j);
    }
    if gb[0].joinedByOR && ca[|ca| - 1].field != cb[0].field { assert CrossFieldAt(g, c, |ga|); }
  }

  lemma ClausesOfConcat(ga: seq<Group>, gb: seq<Group>)
    ensures ClausesOf(ga + gb) == ClausesOf(ga) + ClausesOf(gb)
  {
  }

  /** The verdict of clauses joined at a seam, given the sort findings of the second part. */
  lemma JoinedVerdict(ga: seq<Group>, gb: seq<Group>, sort: seq<Finding>)
    requires ga != [] && gb != []
    ensures var ca, cb, all := ClausesOf(ga), ClausesOf(gb), ClausesOf(ga + gb);
            var seam := gb[0].joinedByOR && ca[|ca| - 1].field != cb[0].field;
            Overall(all, sort + Structural(ga + gb, all)) ==
              if seam then NotExpressible
              else Worse(Overall(ca, Structural(ga, ca)), Overall(cb, sort + Structural(gb, cb)))
  {
    var ca, cb := ClausesOf(ga), ClausesOf(gb);
    ClausesOfConcat(ga, gb);
    WorstOfConcat(ca, cb);
    UnnegatableConcat(ga, ca, gb, cb);
    GroupsConcat(ga, gb);
    CrossConcat(ga, ca, gb, cb);
  }

  lemma AndSplits(first: seq<Token>, and: Token, second: seq<Token>)
    requires IsAnd(and) && Detached(first) && Body(first) == first
    requires SplitClauses(first) != [] && SplitClauses(Body(second)) != []
    requires !SplitClauses(Body(second))[0].joinedByOR
    ensures var all := first + [and] + second;
      && SplitClauses(Body(all)) == SplitClauses(first) + SplitClauses(Body(second))
      && OrderBy(all) == OrderBy(second)
  {
    OrderByOfJoin(first, and, second);
    SplitAtConnective(first, and, Body(second));
  }

  ghost function VerdictOf(gs: seq<Group>, sort: seq<Finding>): Expressibility {
    Overall(ClausesOf(gs), sort + Structural(gs, ClausesOf(gs)))
  }

  lemma ClassifiedVerdict(ts: seq<Token>)
    ensures Classified(ts).verdict == VerdictOf(SplitClauses(Body(ts)), SortFindings(OrderBy(ts)))
  {
  }

  lemma UnsortedVerdict(ts: seq<Token>)
    requires Body(ts) == ts
    ensures var gs := SplitClauses(ts);
            Classified(ts).verdict == Overall(ClausesOf(gs), Structural(gs, ClausesOf(gs)))
  {
    NoOrderBy(ts);
    var structural := Structural(SplitClauses(ts), ClausesOf(SplitClauses(ts)));
    assert [] + structural == structural;
  }

  /** "first AND second" gets the worse of the two verdicts, structural findings and the sort included. */
  lemma AndIsWorse(first: seq<Token>, and: Token, second: seq<Token>)
    requires IsAnd(and) && Detached(first) && Body(first) == first
    requires SplitClauses(first) != [] && SplitClauses(Body(second)) != []
    requires !SplitClauses(Body(second))[0].joinedByOR
    ensures Classified(first + [and] + second).verdict
            == Worse(Classified(first).verdict, Classified(second).verdict)
  {
    AndSplits(first, and, second);
    ClassifiedVerdict(first + [and] + second);
    ClassifiedVerdict(second);
    UnsortedVerdict(first);
    JoinedVerdict(SplitClauses(first), SplitClauses(Body(second)), SortFindings(OrderBy(second)));
  }

  lemma NoOrderBy(ts: seq<Token>)
    requires Body(ts) == ts
    ensures OrderBy(ts) == [] && SortFindings(OrderBy(ts)) == []
  {
    BodyEndIs(ts, 0);
    assert |Body(ts)| == BodyEnd(ts, 0);
  }

  lemma OrSplits(first: seq<Token>, or: Token, second: seq<Token>)
    requires IsOr(or) && Detached(first) && Body(first) == first
    requires SplitClauses(first) != [] && Body(second) != [] && BeginsClause(Body(second)[0])
    ensures SplitClauses(Body(second)) != []
    ensures var all := first + [or] + second;
      && SplitClauses(Body(all)) == SplitClauses(first) + MarkFirst(SplitClauses(Body(second)), true)
      && OrderBy(all) == OrderBy(second)
  {
    OrderByOfJoin(first, or, second);
    SplitAtConnective(first, or, Body(second));
    OrMarksFirst(true, Body(second));
  }

  /** The verdict of clauses joined by an OR. */
  lemma MarkedVerdict(ga: seq<Group>, gb: seq<Group>, sort: seq<Finding>)
    requires ga != [] && gb != []
    ensures var ca, cb := ClausesOf(ga), ClausesOf(gb);
            VerdictOf(ga + MarkFirst(gb, true), sort) ==
              if ca[|ca| - 1].field != cb[0].field then NotExpressible
              else Worse(Overall(ca, Structural(ga, ca)), VerdictOf(gb, sort))
  {
    MarkChangesNoVerdict(gb, true);
    JoinedVerdict(ga, MarkFirst(gb, true), sort);
  }

  lemma OrVerdict(first: seq<Token>, or: Token, second: seq<Token>, ca: seq<Clause>, cb: seq<Clause>)
    requires IsOr(or) && Detached(first) && Body(first) == first
    requires SplitClauses(first) != [] && Body(second) != [] && BeginsClause(Body(second)[0])
    requires ca == ClausesOf(SplitClauses(first)) && cb == ClausesOf(SplitClauses(Body(second)))
    ensures ca != [] && cb != []
    ensures Classified(first + [or] + second).verdict ==
              if ca[|ca| - 1].field != cb[0].field then NotExpressible
              else Worse(Classified(first).verdict, Classified(second).verdict)
  {
    OrSplits(first, or, second);
    ClassifiedVerdict(first + [or] + second);
    ClassifiedVerdict(second);
    UnsortedVerdict(first);
    MarkedVerdict(SplitClauses(first), SplitClauses(Body(second)), SortFindings(OrderBy(second)));
  }

  lemma ClassifiedClauses(ts: seq<Token>)
    ensures Classified(ts).clauses == ClausesOf(SplitClauses(Body(ts)))
  {
  }

  /** "first OR second" too, unless the two clauses that meet are on different fields; then nothing survives. */
  lemma OrNeedsOneField(first: seq<Token>, or: Token, second: seq<Token>)
    requires IsOr(or) && Detached(first) && Body(first) == first
    requires SplitClauses(first) != [] && Body(second) != [] && BeginsClause(Body(second)[0])
    ensures Classified(first).clauses != [] && Classified(second).clauses != []
    ensures var last := Classified(first).clauses[|Classified(first).clauses| - 1];
            var next := Classified(second).clauses[0];
            Classified(first + [or] + second).verdict ==
              if last.field != next.field then NotExpressible
              else Worse(Classified(first).verdict, Classified(second).verdict)
  {
    ClassifiedClauses(first);
    ClassifiedClauses(second);
    OrVerdict(first, or, second, Classified(first).clauses, Classified(second).clauses);
  }

  /** How the first clause was reached says nothing about the clauses themselves. */
  lemma MarkChangesNoVerdict(gs: seq<Group>, flag: bool)
    requires gs != []
    ensures ClausesOf(MarkFirst(gs, flag)) == ClausesOf(gs)
    ensures Structural(MarkFirst(gs, flag), ClausesOf(gs)) == Structural(gs, ClausesOf(gs))
  {
    var cs, marked := ClausesOf(gs), MarkFirst(gs, flag);
    assert forall i: nat :: CrossFieldAt(marked, cs, i) <==> CrossFieldAt(gs, cs, i);
    assert forall i: nat :: UnnegatableAt(marked, cs, i) <==> UnnegatableAt(gs, cs, i);
    assert forall i :: 0 <= i < |gs| ==> marked[i].grouped == gs[i].grouped;
  }
}
