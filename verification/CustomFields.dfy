/**
  Custom fields on one form and one entity, internal/core/customfields/customfields.go: what is
  rendered, what may be written, and the order of the form.
 */
module CustomFields {
  import opened Sorting
  import opened Text

  type ID = nat

  datatype Option<T> = None | Some(value: T)

  datatype FieldType = TextField | NumberField | DateField | SingleSelect

  datatype Def = Def(id: ID, slug: string, name: string, fieldType: FieldType, options: seq<string>, archived: bool)

  /** The attachment of a field to the form. */
  datatype Scope = Scope(field: ID, required: bool)

  datatype Stored = Stored(slug: string, value: string)

  datatype Rendered = Rendered(
    slug: string, name: string, fieldType: FieldType, options: seq<string>, value: string, required: bool, legacy: bool)

  /** Definitions differ in id and in slug, a field is attached once, and a slug holds one value. */
  ghost predicate DistinctDefs(defs: seq<Def>) {
    forall i, j :: 0 <= i < j < |defs| ==> defs[i].id != defs[j].id && defs[i].slug != defs[j].slug
  }

  ghost predicate DistinctScopes(scopes: seq<Scope>) {
    forall i, j :: 0 <= i < j < |scopes| ==> scopes[i].field != scopes[j].field
  }

  ghost predicate DistinctStored(stored: seq<Stored>) {
    forall i, j :: 0 <= i < j < |stored| ==> stored[i].slug != stored[j].slug
  }

  // ----- Rendering ---------------------------------------------------------------------------------

  /** The maps the renderer builds: of entries with one key the last counts. */
  function DefsByID(defs: seq<Def>): map<ID, Def> {
    if defs == [] then map[] else DefsByID(defs[..|defs| - 1])[defs[|defs| - 1].id := defs[|defs| - 1]]
  }

  function DefsBySlug(defs: seq<Def>): map<string, Def> {
    if defs == [] then map[] else DefsBySlug(defs[..|defs| - 1])[defs[|defs| - 1].slug := defs[|defs| - 1]]
  }

  function ValuesOf(stored: seq<Stored>): map<string, string> {
    if stored == [] then map[]
    else ValuesOf(stored[..|stored| - 1])[stored[|stored| - 1].slug := stored[|stored| - 1].value]
  }

  function OnForm(byID: map<ID, Def>, values: map<string, string>, scopes: seq<Scope>): seq<Rendered> {
    if scopes == [] then []
    else
      var sc := scopes[|scopes| - 1];
      OnForm(byID, values, scopes[..|scopes| - 1])
      + (if sc.field in byID then [FormField(byID[sc.field], sc, values)] else [])
  }

  function FormField(d: Def, sc: Scope, values: map<string, string>): Rendered {
    Rendered(d.slug, d.name, d.fieldType, d.options,
             if d.slug in values then values[d.slug] else "", sc.required, false)
  }

  function FormSlugs(byID: map<ID, Def>, scopes: seq<Scope>): set<string> {
    set sc | sc in scopes && sc.field in byID :: byID[sc.field].slug
  }

  function LegacyField(bySlug: map<string, Def>, v: Stored): Rendered {
    if v.slug in bySlug
    then Rendered(v.slug, bySlug[v.slug].name, bySlug[v.slug].fieldType, bySlug[v.slug].options, v.value, false, true)
    else Rendered(v.slug, v.slug, TextField, [], v.value, false, true)
  }

  function Legacy(bySlug: map<string, Def>, onForm: set<string>, stored: seq<Stored>): seq<Rendered> {
    if stored == [] then []
    else
      var v := stored[|stored| - 1];
      Legacy(bySlug, onForm, stored[..|stored| - 1]) + (if v.slug in onForm then [] else [LegacyField(bySlug, v)])
  }

  /** First the fields of the form, in its order, then every stored value the form cannot write. */
  function Composed(defs: seq<Def>, scopes: seq<Scope>, stored: seq<Stored>): seq<Rendered> {
    OnForm(DefsByID(defs), ValuesOf(stored), scopes)
    + Legacy(DefsBySlug(defs), FormSlugs(DefsByID(defs), scopes), stored)
  }

  method IndexDefs(defs: seq<Def>) returns (byID: map<ID, Def>, bySlug: map<string, Def>)
    ensures byID == DefsByID(defs) && bySlug == DefsBySlug(defs)
  {
    byID, bySlug := map[], map[];
    for i := 0 to |defs|
      invariant byID == DefsByID(defs[..i]) && bySlug == DefsBySlug(defs[..i])
    {
      assert defs[..i + 1][..i] == defs[..i];
      byID := byID[defs[i].id := defs[i]];
      bySlug := bySlug[defs[i].slug := defs[i]];
    }
    assert defs[..|defs|] == defs;
  }

  method IndexValues(stored: seq<Stored>) returns (values: map<string, string>)
    ensures values == ValuesOf(stored)
  {
    values := map[];
    for i := 0 to |stored|
      invariant values == ValuesOf(stored[..i])
    {
      assert stored[..i + 1][..i] == stored[..i];
      values := values[stored[i].slug := stored[i].value];
    }
    assert stored[..|stored|] == stored;
  }

  method ComposeForm(byID: map<ID, Def>, values: map<string, string>, scopes: seq<Scope>)
    returns (out: seq<Rendered>, onForm: set<string>)
    ensures out == OnForm(byID, values, scopes) && onForm == FormSlugs(byID, scopes)
  {
    out, onForm := [], {};
    for i := 0 to |scopes|
      invariant out == OnForm(byID, values, scopes[..i]) && onForm == FormSlugs(byID, scopes[..i])
    {
      assert scopes[..i + 1] == scopes[..i] + [scopes[i]];
      var sc := scopes[i];
      if sc.field !in byID {
        continue;
      }
      onForm := onForm + {byID[sc.field].slug};
      out := out + [FormField(byID[sc.field], sc, values)];
    }
    assert scopes[..|scopes|] == scopes;
  }

  /** `defs` are the organization's active definitions. */
  method ComposeRendered(defs: seq<Def>, scopes: seq<Scope>, stored: seq<Stored>) returns (out: seq<Rendered>)
    ensures out == Composed(defs, scopes, stored)
  {
    var byID, bySlug := IndexDefs(defs);
    var values := IndexValues(stored);
    var onForm: set<string>;
    out, onForm := ComposeForm(byID, values, scopes);
    ghost var fields := out;
    for i := 0 to |stored|
      invariant out == fields + Legacy(bySlug, onForm, stored[..i])
    {
      assert stored[..i + 1][..i] == stored[..i];
      if stored[i].slug in onForm {
        continue;
      }
      out := out + [LegacyField(bySlug, stored[i])];
    }
    assert stored[..|stored|] == stored;
  }

  // ----- Writing -----------------------------------------------------------------------------------

  datatype Refusal = UndefinedField | FieldArchived | FieldNotInScope | ValueRequired | InvalidValue | EntityNotFound

  datatype Result = Done | Refused(why: Refusal)

  function FindSlug(defs: seq<Def>, slug: string): (d: Option<Def>)
    ensures d.Some? ==> d.value in defs && d.value.slug == slug
    ensures d.None? ==> forall i :: 0 <= i < |defs| ==> defs[i].slug != slug
  {
    if defs == [] then None else if defs[0].slug == slug then Some(defs[0]) else FindSlug(defs[1..], slug)
  }

  function FindScope(scopes: seq<Scope>, field: ID): (sc: Option<Scope>)
    ensures sc.Some? ==> sc.value in scopes && sc.value.field == field
    ensures sc.None? ==> forall i :: 0 <= i < |scopes| ==> scopes[i].field != field
  {
    if scopes == [] then None else if scopes[0].field == field then Some(scopes[0]) else FindScope(scopes[1..], field)
  }

  datatype Target = Target(def: Def, scope: Scope) | ReadOnly(why: Refusal)

  /** The definition and attachment a write goes through; `defs` are all the organization's. */
  function WritableField(defs: seq<Def>, scopes: seq<Scope>, slug: string): Target {
    var d := FindSlug(defs, slug);
    if d.None? then ReadOnly(UndefinedField)
    else if d.value.archived then ReadOnly(FieldArchived)
    else
      var sc := FindScope(scopes, d.value.id);
      if sc.None? then ReadOnly(FieldNotInScope) else Target(d.value, sc.value)
  }

  /** How numbers and dates are written. */
  datatype Syntax = Syntax(isNumber: string -> bool, isDate: string -> bool)

  predicate ValidValue(d: Def, value: string, syntax: Syntax) {
    match d.fieldType
    case NumberField => syntax.isNumber(value)
    case DateField => syntax.isDate(value)
    case SingleSelect => value in d.options
    case TextField => true
  }

  /** The active ones, in order. */
  function Active(defs: seq<Def>): seq<Def> {
    if defs == [] then []
    else Active(defs[..|defs| - 1]) + (if defs[|defs| - 1].archived then [] else [defs[|defs| - 1]])
  }

  /** The stored values as a listing. */
  ghost predicate Lists(stored: seq<Stored>, values: map<string, string>) {
    && DistinctStored(stored)
    && (forall v :: v in stored ==> v.slug in values && values[v.slug] == v.value)
    && (forall slug :: slug in values ==> Stored(slug, values[slug]) in stored)
  }

  /** One form and one entity's values under it. */
  class FieldService {
    const defs: seq<Def>
    const syntax: Syntax
    var scopes: seq<Scope>
    var values: map<string, string>

    ghost predicate Valid()
      reads this
    {
      DistinctDefs(defs) && DistinctScopes(scopes)
    }

    constructor (defs: seq<Def>, syntax: Syntax, scopes: seq<Scope>, values: map<string, string>)
      requires DistinctDefs(defs) && DistinctScopes(scopes)
      ensures Valid() && this.defs == defs && this.syntax == syntax && this.scopes == scopes && this.values == values
    {
      this.defs, this.syntax, this.scopes, this.values := defs, syntax, scopes, values;
    }

    /** `here` is whether the entity is in the space the request named; the statement checks it, and a
        delete that matches nothing is no error. */
    method SetValue(slug: string, value: string, here: bool) returns (r: Result)
      requires Valid()
      modifies this`values
      ensures Valid()
      ensures r == WriteResult(defs, scopes, slug, TrimSpace(value), here, syntax)
      ensures values == WrittenValues(old(values), r, slug, TrimSpace(value), here)
    {
      var target := WritableField(defs, scopes, slug);
      if target.ReadOnly? {
        return Refused(target.why);
      }
      var trimmed := TrimSpace(value);
      if trimmed == "" {
        if target.scope.required {
          return Refused(ValueRequired);
        }
        if here {
          values := values - {slug};
        }
        return Done;
      }
      if !ValidValue(target.def, trimmed, syntax) {
        return Refused(InvalidValue);
      }
      if !here {
        return Refused(EntityNotFound);
      }
      values := values[slug := trimmed];
      r := Done;
    }

    /** Accepts exactly a rearrangement of the form, and then changes nothing but the order. */
    method ReorderForm(fields: seq<ID>) returns (accepted: bool)
      requires Valid()
      modifies this`scopes
      ensures Valid()
      ensures accepted <==> multiset(fields) == multiset(FieldsOf(old(scopes)))
      ensures accepted ==> FieldsOf(scopes) == fields && multiset(scopes) == multiset(old(scopes))
      ensures !accepted ==> scopes == old(scopes)
    {
      accepted := IsRearrangement(scopes, fields);
      if accepted {
        scopes := Rearranged(scopes, fields);
      }
    }
  }

  /** Strikes each named field off the form's: one not there, or named twice, is not on the list. */
  method IsRearrangement(scopes: seq<Scope>, fields: seq<ID>) returns (ok: bool)
    requires DistinctScopes(scopes)
    ensures ok <==> multiset(fields) == multiset(FieldsOf(scopes))
  {
    if |fields| != |scopes| {
      SameMultisetSameLength(fields, FieldsOf(scopes));
      return false;
    }
    var attached := set sc | sc in scopes :: sc.field;
    AttachedAreFields(scopes, attached);
    for i := 0 to |fields|
      invariant multiset(attached) + multiset(fields[..i]) == multiset(FieldsOf(scopes))
    {
      assert fields[..i + 1] == fields[..i] + [fields[i]];
      if fields[i] !in attached {
        NotARearrangement(fields, i, attached, FieldsOf(scopes));
        return false;
      }
      attached := attached - {fields[i]};
    }
    assert fields[..|fields|] == fields;
    NothingLeft(fields, attached, FieldsOf(scopes));
    ok := true;
  }

  function WriteResult(defs: seq<Def>, scopes: seq<Scope>, slug: string, value: string, here: bool, syntax: Syntax)
    : Result
  {
    var target := WritableField(defs, scopes, slug);
    if target.ReadOnly? then Refused(target.why)
    else if value == "" then (if target.scope.required then Refused(ValueRequired) else Done)
    else if !ValidValue(target.def, value, syntax) then Refused(InvalidValue)
    else if !here then Refused(EntityNotFound)
    else Done
  }

  function WrittenValues(values: map<string, string>, r: Result, slug: string, value: string, here: bool)
    : map<string, string>
  {
    if r.Refused? || !here then values else if value == "" then values - {slug} else values[slug := value]
  }

  // ----- The order of the form -----------------------------------------------------------------------

  function FieldsOf(scopes: seq<Scope>): (ids: seq<ID>)
    ensures |ids| == |scopes| && forall i :: 0 <= i < |scopes| ==> ids[i] == scopes[i].field
  {
    if scopes == [] then [] else FieldsOf(scopes[..|scopes| - 1]) + [scopes[|scopes| - 1].field]
  }

  function ScopeFor(scopes: seq<Scope>, field: ID): Scope {
    var sc := FindScope(scopes, field);
    if sc.Some? then sc.value else Scope(field, false)
  }

  /** The attachments in the order of their fields. */
  function Rearranged(scopes: seq<Scope>, fields: seq<ID>): (r: seq<Scope>)
    requires DistinctScopes(scopes) && multiset(fields) == multiset(FieldsOf(scopes))
    ensures FieldsOf(r) == fields && multiset(r) == multiset(scopes) && DistinctScopes(r)
  {
    var r := seq(|fields|, i requires 0 <= i < |fields| => ScopeFor(scopes, fields[i]));
    RearrangedIsAPermutation(scopes, fields, r);
    r
  }

  lemma SameMultisetSameLength<T>(s: seq<T>, t: seq<T>)
    ensures multiset(s) == multiset(t) ==> |s| == |t|
  {
    assert |multiset(s)| == |s| && |multiset(t)| == |t|;
  }

  lemma {:induction false} DifferentIsASet<T>(s: seq<T>)
    requires Different(s)
    ensures multiset(s) == multiset(set x | x in s)
  {
    if s != [] {
      var n := |s| - 1;
      DifferentIsASet(s[..n]);
      assert s == s[..n] + [s[n]];
      assert s[n] !in s[..n];
      assert (set x | x in s) == (set x | x in s[..n]) + {s[n]};
    }
  }

  lemma SameElementsDifferent<T>(s: seq<T>, t: seq<T>)
    requires Different(s) && Different(t) && forall x :: x in s <==> x in t
    ensures multiset(s) == multiset(t)
  {
    DifferentIsASet(s);
    DifferentIsASet(t);
    assert (set x | x in s) == (set x | x in t);
  }

  lemma {:induction false} AttachedAreFields(scopes: seq<Scope>, attached: set<ID>)
    requires DistinctScopes(scopes) && attached == set sc | sc in scopes :: sc.field
    ensures multiset(attached) == multiset(FieldsOf(scopes))
    ensures attached == set id | id in FieldsOf(scopes)
  {
    var ids := FieldsOf(scopes);
    forall id ensures id in attached <==> id in ids {
      if id in attached {
        var sc :| sc in scopes && sc.field == id;
        var k :| 0 <= k < |scopes| && scopes[k] == sc;
        assert ids[k] == id;
      }
      if id in ids {
        var k :| 0 <= k < |ids| && ids[k] == id;
        assert scopes[k] in scopes && scopes[k].field == id;
      }
    }
    DifferentIsASet(ids);
    assert attached == set id | id in ids;
  }

  lemma NotARearrangement(fields: seq<ID>, i: nat, attached: set<ID>, all: seq<ID>)
    requires i < |fields| && fields[i] !in attached
    requires multiset(attached) + multiset(fields[..i]) == multiset(all)
    ensures multiset(fields) != multiset(all)
  {
    assert fields == fields[..i] + [fields[i]] + fields[i + 1..];
    assert multiset(fields)[fields[i]] > multiset(fields[..i])[fields[i]];
  }

  lemma NothingLeft(fields: seq<ID>, attached: set<ID>, all: seq<ID>)
    requires multiset(attached) + multiset(fields) == multiset(all) && |fields| == |all|
    ensures multiset(fields) == multiset(all)
  {
    assert |multiset(attached)| + |multiset(fields)| == |multiset(all)|;
    assert |multiset(attached)| == |attached|;
    assert |multiset(fields)| == |fields| && |multiset(all)| == |all|;
    assert attached == {};
  }

  lemma {:induction false} RearrangedIsAPermutation(scopes: seq<Scope>, fields: seq<ID>, r: seq<Scope>)
    requires DistinctScopes(scopes) && multiset(fields) == multiset(FieldsOf(scopes))
    requires |r| == |fields| && forall i :: 0 <= i < |r| ==> r[i] == ScopeFor(scopes, fields[i])
    ensures FieldsOf(r) == fields && multiset(r) == multiset(scopes) && DistinctScopes(r)
  {
    FieldsDiffer(scopes, fields);
    forall i | 0 <= i < |r| ensures r[i].field == fields[i] && r[i] in scopes { ScopeForIs(scopes, fields, i); }
    forall sc ensures sc in r <==> sc in scopes {
      if sc in scopes {
        var i := PlaceOf(scopes, fields, sc);
        assert r[i] in scopes && r[i].field == sc.field;
      }
    }
    assert FieldsOf(r) == fields;
    SameElementsDifferent(r, scopes);
  }

  lemma {:induction false} FieldsDiffer(scopes: seq<Scope>, fields: seq<ID>)
    requires DistinctScopes(scopes) && multiset(fields) == multiset(FieldsOf(scopes))
    ensures Different(fields)
  {
    PermutedStaysDifferent(FieldsOf(scopes), fields);
  }

  lemma {:induction false} ScopeForIs(scopes: seq<Scope>, fields: seq<ID>, i: nat)
    requires i < |fields| && multiset(fields) == multiset(FieldsOf(scopes))
    ensures ScopeFor(scopes, fields[i]) in scopes && ScopeFor(scopes, fields[i]).field == fields[i]
  {
    assert fields[i] in multiset(FieldsOf(scopes));
    var k :| 0 <= k < |scopes| && FieldsOf(scopes)[k] == fields[i];
    assert scopes[k].field == fields[i];
  }

  lemma PlaceOf(scopes: seq<Scope>, fields: seq<ID>, sc: Scope) returns (i: nat)
    requires sc in scopes && multiset(fields) == multiset(FieldsOf(scopes))
    ensures i < |fields| && fields[i] == sc.field
  {
    var k :| 0 <= k < |scopes| && scopes[k] == sc;
    assert FieldsOf(scopes)[k] in multiset(fields);
    i :| 0 <= i < |fields| && fields[i] == sc.field;
  }

  // ----- Rendering loses nothing and agrees with writing -----------------------------------------------

  ghost predicate DistinctSlugs(rs: seq<Rendered>) {
    forall i, j :: 0 <= i < j < |rs| ==> rs[i].slug != rs[j].slug
  }

  lemma {:induction false} ActiveMembers(defs: seq<Def>)
    requires DistinctDefs(defs)
    ensures DistinctDefs(Active(defs)) && forall d :: d in Active(defs) <==> d in defs && !d.archived
  {
    if defs != [] {
      var n := |defs| - 1;
      ActiveMembers(defs[..n]);
      assert defs == defs[..n] + [defs[n]];
      forall i | 0 <= i < |Active(defs[..n])|
        ensures Active(defs[..n])[i].id != defs[n].id && Active(defs[..n])[i].slug != defs[n].slug
      {
        assert Active(defs[..n])[i] in defs[..n];
      }
    }
  }

  lemma {:induction false} IndexIsFaithful(defs: seq<Def>)
    requires DistinctDefs(defs)
    ensures forall d :: d in defs ==> d.id in DefsByID(defs) && DefsByID(defs)[d.id] == d
    ensures forall d :: d in defs ==> d.slug in DefsBySlug(defs) && DefsBySlug(defs)[d.slug] == d
    ensures forall id :: id in DefsByID(defs) ==> DefsByID(defs)[id] in defs && DefsByID(defs)[id].id == id
    ensures forall slug :: slug in DefsBySlug(defs) ==>
              DefsBySlug(defs)[slug] in defs && DefsBySlug(defs)[slug].slug == slug
  {
    if defs != [] {
      var n := |defs| - 1;
      IndexIsFaithful(defs[..n]);
      assert defs == defs[..n] + [defs[n]];
    }
  }

  lemma {:induction false} ValuesAreStored(stored: seq<Stored>)
    requires DistinctStored(stored)
    ensures forall v :: v in stored ==> v.slug in ValuesOf(stored) && ValuesOf(stored)[v.slug] == v.value
    ensures forall slug :: slug in ValuesOf(stored) ==> Stored(slug, ValuesOf(stored)[slug]) in stored
  {
    if stored != [] {
      var n := |stored| - 1;
      ValuesAreStored(stored[..n]);
      assert stored == stored[..n] + [stored[n]];
    }
  }

  /** `byID` holds these definitions under their ids, with slugs that differ. */
  ghost predicate GoodIndex(byID: map<ID, Def>) {
    && (forall id :: id in byID ==> byID[id].id == id)
    && (forall id, other :: id in byID && other in byID && byID[id].slug == byID[other].slug ==> id == other)
  }

  lemma {:induction false} FormFields(byID: map<ID, Def>, values: map<string, string>, scopes: seq<Scope>)
    requires GoodIndex(byID) && DistinctScopes(scopes)
    ensures DistinctSlugs(OnForm(byID, values, scopes))
    ensures forall r :: r in OnForm(byID, values, scopes) <==>
              exists sc :: sc in scopes && sc.field in byID && r == FormField(byID[sc.field], sc, values)
  {
    if scopes != [] {
      var n := |scopes| - 1;
      FormFields(byID, values, scopes[..n]);
      assert scopes == scopes[..n] + [scopes[n]];
      var before := OnForm(byID, values, scopes[..n]);
      if scopes[n].field in byID {
        forall i | 0 <= i < |before| ensures before[i].slug != byID[scopes[n].field].slug {
          assert before[i] in before;
          var sc :| sc in scopes[..n] && sc.field in byID && before[i] == FormField(byID[sc.field], sc, values);
          assert sc.field != scopes[n].field;
        }
      }
      forall r ensures r in OnForm(byID, values, scopes) <==>
          exists sc :: sc in scopes && sc.field in byID && r == FormField(byID[sc.field], sc, values) {
        if r in before {
          var sc :| sc in scopes[..n] && sc.field in byID && r == FormField(byID[sc.field], sc, values);
          assert sc in scopes;
        }
        if sc :| sc in scopes && sc.field in byID && r == FormField(byID[sc.field], sc, values) {
          assert sc in scopes[..n] || sc == scopes[n];
        }
      }
    }
  }

  lemma {:induction false} LegacyFields(bySlug: map<string, Def>, onForm: set<string>, stored: seq<Stored>)
    requires DistinctStored(stored)
    ensures DistinctSlugs(Legacy(bySlug, onForm, stored))
    ensures forall r :: r in Legacy(bySlug, onForm, stored) <==>
              exists v :: v in stored && v.slug !in onForm && r == LegacyField(bySlug, v)
  {
    if stored != [] {
      var n := |stored| - 1;
      LegacyFields(bySlug, onForm, stored[..n]);
      assert stored == stored[..n] + [stored[n]];
      var before := Legacy(bySlug, onForm, stored[..n]);
      forall i | 0 <= i < |before| ensures before[i].slug != stored[n].slug {
        assert before[i] in before;
        var v :| v in stored[..n] && v.slug !in onForm && before[i] == LegacyField(bySlug, v);
      }
      forall r ensures r in Legacy(bySlug, onForm, stored) <==>
          exists v :: v in stored && v.slug !in onForm && r == LegacyField(bySlug, v) {
        if r in before {
          var v :| v in stored[..n] && v.slug !in onForm && r == LegacyField(bySlug, v);
          assert v in stored;
        }
        if v :| v in stored && v.slug !in onForm && r == LegacyField(bySlug, v) {
          assert v in stored[..n] || v == stored[n];
        }
      }
    }
  }

  /** What a slug's field is rendered as: a form field if there is an active definition attached, else a
      legacy field if there is a stored value, else not at all. */
  ghost predicate RendersAs(defs: seq<Def>, scopes: seq<Scope>, stored: seq<Stored>, r: Rendered) {
    var target := WritableField(defs, scopes, r.slug);
    var values := ValuesOf(stored);
    if target.Target? then r == FormField(target.def, target.scope, values)
    else r.legacy && !r.required && Stored(r.slug, r.value) in stored
         && match FindSlug(defs, r.slug)
            case Some(d) => (!d.archived ==> r.name == d.name && r.fieldType == d.fieldType && r.options == d.options)
                            && (d.archived ==> r.name == r.slug && r.fieldType == TextField && r.options == [])
            case None => r.name == r.slug && r.fieldType == TextField && r.options == []
  }

  lemma {:induction false} GoodActiveIndex(defs: seq<Def>)
    requires DistinctDefs(defs)
    ensures GoodIndex(DefsByID(Active(defs)))
  {
    ActiveMembers(defs);
    IndexIsFaithful(Active(defs));
  }

  /** A slug is on the form exactly when a write to it would be accepted. */
  lemma {:induction false} OnFormIsWritable(defs: seq<Def>, scopes: seq<Scope>, slug: string)
    requires DistinctDefs(defs) && DistinctScopes(scopes)
    ensures slug in FormSlugs(DefsByID(Active(defs)), scopes) <==> WritableField(defs, scopes, slug).Target?
    ensures forall sc ::
              sc in scopes && sc.field in DefsByID(Active(defs)) && DefsByID(Active(defs))[sc.field].slug == slug ==>
              WritableField(defs, scopes, slug) == Target(DefsByID(Active(defs))[sc.field], sc)
  {
    var byID := DefsByID(Active(defs));
    ActiveMembers(defs);
    IndexIsFaithful(Active(defs));
    forall sc | sc in scopes && sc.field in byID && byID[sc.field].slug == slug
      ensures WritableField(defs, scopes, slug) == Target(byID[sc.field], sc)
    {
      assert byID[sc.field] in defs && !byID[sc.field].archived;
      var found := FindSlug(defs, slug);
      assert found == Some(byID[sc.field]);
      assert FindScope(scopes, sc.field) == Some(sc);
    }
    var target := WritableField(defs, scopes, slug);
    if target.Target? {
      assert target.def in Active(defs);
      assert target.scope in scopes && byID[target.scope.field] == target.def;
    }
  }

  /** Nothing is dropped, nothing is shown twice, and nothing is made up: with all the organization's
      definitions, the rendering has one field per slug; every stored value is there; every writable
      slug is there; and each field is what RendersAs says. */
  lemma {:induction false} RenderingIsComplete(defs: seq<Def>, scopes: seq<Scope>, stored: seq<Stored>)
    requires DistinctDefs(defs) && DistinctScopes(scopes) && DistinctStored(stored)
    ensures DistinctSlugs(Composed(Active(defs), scopes, stored))
    ensures forall r :: r in Composed(Active(defs), scopes, stored) ==> RendersAs(defs, scopes, stored, r)
  {
    var byID, bySlug, values := DefsByID(Active(defs)), DefsBySlug(Active(defs)), ValuesOf(stored);
    var onForm := FormSlugs(byID, scopes);
    var fields, legacy := OnForm(byID, values, scopes), Legacy(bySlug, onForm, stored);
    ActiveMembers(defs);
    IndexIsFaithful(Active(defs));
    GoodActiveIndex(defs);
    FormFields(byID, values, scopes);
    LegacyFields(bySlug, onForm, stored);
    forall r | r in fields ensures r.slug in onForm && RendersAs(defs, scopes, stored, r) {
      var sc :| sc in scopes && sc.field in byID && r == FormField(byID[sc.field], sc, values);
      OnFormIsWritable(defs, scopes, r.slug);
    }
    forall r | r in legacy ensures r.slug !in onForm && RendersAs(defs, scopes, stored, r) {
      var v :| v in stored && v.slug !in onForm && r == LegacyField(bySlug, v);
      OnFormIsWritable(defs, scopes, r.slug);
      LegacyRendersAs(defs, stored, v);
    }
    forall i, j | 0 <= i < |fields| && 0 <= j < |legacy| ensures fields[i].slug != legacy[j].slug {
      assert fields[i] in fields && legacy[j] in legacy;
    }
  }

  lemma {:induction false} LegacyRendersAs(defs: seq<Def>, stored: seq<Stored>, v: Stored)
    requires DistinctDefs(defs) && v in stored
    ensures var bySlug := DefsBySlug(Active(defs));
            var r := LegacyField(bySlug, v);
      && r.legacy && !r.required && Stored(r.slug, r.value) in stored
      && match FindSlug(defs, r.slug)
         case Some(d) => (!d.archived ==> r.name == d.name && r.fieldType == d.fieldType && r.options == d.options)
                         && (d.archived ==> r.name == r.slug && r.fieldType == TextField && r.options == [])
         case None => r.name == r.slug && r.fieldType == TextField && r.options == []
  {
    ActiveMembers(defs);
    IndexIsFaithful(Active(defs));
    var found := FindSlug(defs, v.slug);
    if found.Some? && !found.value.archived { assert found.value in Active(defs); }
  }

  /** Some field shows this value for this slug. */
  ghost predicate Shows(out: seq<Rendered>, slug: string, value: string) {
    exists r :: r in out && r.slug == slug && r.value == value
  }

  lemma {:induction false} FormShows(defs: seq<Def>, scopes: seq<Scope>, stored: seq<Stored>, slug: string)
    requires DistinctDefs(defs) && DistinctScopes(scopes) && WritableField(defs, scopes, slug).Target?
    ensures var values := ValuesOf(stored);
            Shows(OnForm(DefsByID(Active(defs)), values, scopes), slug, if slug in values then values[slug] else "")
  {
    var byID, values := DefsByID(Active(defs)), ValuesOf(stored);
    OnFormIsWritable(defs, scopes, slug);
    GoodActiveIndex(defs);
    FormFields(byID, values, scopes);
    var sc :| sc in scopes && sc.field in byID && byID[sc.field].slug == slug;
    assert FormField(byID[sc.field], sc, values) in OnForm(byID, values, scopes);
  }

  /** Every stored value is shown, and so is every slug that can be written. */
  lemma {:induction false} EveryValueAppears(defs: seq<Def>, scopes: seq<Scope>, stored: seq<Stored>, slug: string)
    requires DistinctDefs(defs) && DistinctScopes(scopes) && DistinctStored(stored)
    ensures var out, values := Composed(Active(defs), scopes, stored), ValuesOf(stored);
      && (slug in values ==> Shows(out, slug, values[slug]))
      && (slug !in values && WritableField(defs, scopes, slug).Target? ==> Shows(out, slug, ""))
  {
    var byID, bySlug, values := DefsByID(Active(defs)), DefsBySlug(Active(defs)), ValuesOf(stored);
    var onForm := FormSlugs(byID, scopes);
    var fields, legacy := OnForm(byID, values, scopes), Legacy(bySlug, onForm, stored);
    OnFormIsWritable(defs, scopes, slug);
    ValuesAreStored(stored);
    LegacyFields(bySlug, onForm, stored);
    if slug in onForm {
      FormShows(defs, scopes, stored, slug);
      var r :| r in fields && r.slug == slug && r.value == if slug in values then values[slug] else "";
      assert r in fields + legacy;
    } else if slug in values {
      var r := LegacyField(bySlug, Stored(slug, values[slug]));
      assert r in legacy;
      assert r in fields + legacy;
    }
  }

  /** A rendered field is shown as legacy exactly when a write to it would be refused as read-only. */
  lemma {:induction false} LegacyIsReadOnly(defs: seq<Def>, scopes: seq<Scope>, stored: seq<Stored>, r: Rendered)
    requires DistinctDefs(defs) && DistinctScopes(scopes) && DistinctStored(stored)
    requires r in Composed(Active(defs), scopes, stored)
    ensures r.legacy <==> WritableField(defs, scopes, r.slug).ReadOnly?
  {
    RenderingIsComplete(defs, scopes, stored);
  }

  /** The slugs of the form: the attached fields whose definition is active, in the form's order. */
  function FormOrder(defs: seq<Def>, scopes: seq<Scope>): seq<string> {
    if scopes == [] then []
    else
      var d := FindID(defs, scopes[|scopes| - 1].field);
      FormOrder(defs, scopes[..|scopes| - 1]) + (if d.Some? && !d.value.archived then [d.value.slug] else [])
  }

  function FindID(defs: seq<Def>, id: ID): (d: Option<Def>)
    ensures d.Some? ==> d.value in defs && d.value.id == id
    ensures d.None? ==> forall i :: 0 <= i < |defs| ==> defs[i].id != id
  {
    if defs == [] then None else if defs[0].id == id then Some(defs[0]) else FindID(defs[1..], id)
  }

  function SlugsOf(rs: seq<Rendered>): (slugs: seq<string>)
    ensures |slugs| == |rs| && forall i :: 0 <= i < |rs| ==> slugs[i] == rs[i].slug
  {
    if rs == [] then [] else SlugsOf(rs[..|rs| - 1]) + [rs[|rs| - 1].slug]
  }

  lemma {:induction false} ActiveByID(defs: seq<Def>, id: ID)
    requires DistinctDefs(defs)
    ensures var byID, d := DefsByID(Active(defs)), FindID(defs, id);
      && (id in byID <==> d.Some? && !d.value.archived)
      && (id in byID ==> byID[id] == d.value)
  {
    ActiveMembers(defs);
    IndexIsFaithful(Active(defs));
    var d := FindID(defs, id);
    if d.Some? && !d.value.archived { assert d.value in Active(defs); }
  }

  lemma {:induction false} SlugsConcat(a: seq<Rendered>, r: Rendered)
    ensures SlugsOf(a + [r]) == SlugsOf(a) + [r.slug]
  {
    assert (a + [r])[..|a|] == a;
  }

  lemma {:induction false} FieldsInFormOrder(defs: seq<Def>, scopes: seq<Scope>, values: map<string, string>)
    requires DistinctDefs(defs)
    ensures SlugsOf(OnForm(DefsByID(Active(defs)), values, scopes)) == FormOrder(defs, scopes)
    ensures forall r :: r in OnForm(DefsByID(Active(defs)), values, scopes) ==> !r.legacy
  {
    if scopes != [] {
      var n := |scopes| - 1;
      FieldsInFormOrder(defs, scopes[..n], values);
      ActiveByID(defs, scopes[n].field);
      if scopes[n].field in DefsByID(Active(defs)) {
        SlugsConcat(OnForm(DefsByID(Active(defs)), values, scopes[..n]),
                    FormField(DefsByID(Active(defs))[scopes[n].field], scopes[n], values));
      }
    }
  }

  /** The writable fields come first, in the form's order, and only legacy ones follow. */
  lemma {:induction false} FormComesFirst(defs: seq<Def>, scopes: seq<Scope>, stored: seq<Stored>)
    requires DistinctDefs(defs) && DistinctStored(stored)
    ensures var out, k := Composed(Active(defs), scopes, stored), |FormOrder(defs, scopes)|;
      && k <= |out| && SlugsOf(out[..k]) == FormOrder(defs, scopes)
      && forall i :: 0 <= i < |out| ==> (out[i].legacy <==> i >= k)
  {
    var byID, bySlug, values := DefsByID(Active(defs)), DefsBySlug(Active(defs)), ValuesOf(stored);
    var onForm := FormSlugs(byID, scopes);
    var fields, legacy := OnForm(byID, values, scopes), Legacy(bySlug, onForm, stored);
    FieldsInFormOrder(defs, scopes, values);
    LegacyFields(bySlug, onForm, stored);
    var out: seq<Rendered> := fields + legacy;
    assert out[..|fields|] == fields;
    forall i | 0 <= i < |out| ensures out[i].legacy <==> i >= |fields| {
      if i < |fields| { assert out[i] in fields; } else { assert out[i] in legacy; }
    }
  }

  // ----- Writing, seen through rendering ----------------------------------------------------------------

  /** An entity outside the space that the request named contributes no values to what is read. */
  function Readable(values: map<string, string>, here: bool): map<string, string> {
    if here then values else map[]
  }

  /** After a write that succeeds the field shows the trimmed value, or nothing if it was cleared; no
      other stored value changes, and a refused write changes none.  A write addressed at an entity
      outside the space changes nothing, whether it succeeds or not, and no value shows there. */
  lemma {:induction false} WriteThenRender(defs: seq<Def>, scopes: seq<Scope>, syntax: Syntax, slug: string,
                                           value: string, here: bool, before: map<string, string>,
                                           stored: seq<Stored>)
    requires DistinctDefs(defs) && DistinctScopes(scopes)
    requires var r := WriteResult(defs, scopes, slug, value, here, syntax);
             Lists(stored, Readable(WrittenValues(before, r, slug, value, here), here))
    ensures var r := WriteResult(defs, scopes, slug, value, here, syntax);
            var out := Composed(Active(defs), scopes, stored);
      && (r.Done? ==> Shows(out, slug, value))
      && (here ==> forall other :: other in before && (other != slug || r.Refused?)
                                   ==> Shows(out, other, before[other]))
      && (!here ==> WrittenValues(before, r, slug, value, here) == before && forall f :: f in out ==> f.value == "")
  {
    var values := WrittenValues(before, WriteResult(defs, scopes, slug, value, here, syntax), slug, value, here);
    ListedValues(stored, Readable(values, here));
    EveryValueAppears(defs, scopes, stored, slug);
    if here {
      EveryValueShows(defs, scopes, stored);
      assert ValuesOf(stored) == values;
      assert forall other :: other in before && (other != slug || values == before) ==>
               other in ValuesOf(stored) && ValuesOf(stored)[other] == before[other];
    } else {
      NothingStoredShowsNothing(defs, scopes, stored);
    }
  }

  lemma {:induction false} EveryValueShows(defs: seq<Def>, scopes: seq<Scope>, stored: seq<Stored>)
    requires DistinctDefs(defs) && DistinctScopes(scopes) && DistinctStored(stored)
    ensures forall slug :: slug in ValuesOf(stored) ==>
              Shows(Composed(Active(defs), scopes, stored), slug, ValuesOf(stored)[slug])
  {
    forall slug | slug in ValuesOf(stored)
      ensures Shows(Composed(Active(defs), scopes, stored), slug, ValuesOf(stored)[slug])
    {
      EveryValueAppears(defs, scopes, stored, slug);
    }
  }

  lemma {:induction false} NothingStoredShowsNothing(defs: seq<Def>, scopes: seq<Scope>, stored: seq<Stored>)
    requires DistinctDefs(defs) && DistinctScopes(scopes) && DistinctStored(stored) && ValuesOf(stored) == map[]
    ensures forall f :: f in Composed(Active(defs), scopes, stored) ==> f.value == ""
  {
    ValuesAreStored(stored);
    RenderingIsComplete(defs, scopes, stored);
    forall f | f in Composed(Active(defs), scopes, stored) ensures f.value == "" {
      assert RendersAs(defs, scopes, stored, f);
    }
  }

  /** The answer to a write addressed at an entity outside the space: refused as an unknown entity only
      for a proper value.  Clearing is refused exactly where the field is required, and done elsewhere. */
  lemma OutsideTheSpace(defs: seq<Def>, scopes: seq<Scope>, slug: string, value: string, syntax: Syntax)
    requires WritableField(defs, scopes, slug).Target?
    ensures var target := WritableField(defs, scopes, slug);
            var r := WriteResult(defs, scopes, slug, value, false, syntax);
      && (r.Refused? <==> value != "" || target.scope.required)
      && (r == Refused(EntityNotFound) <==> value != "" && ValidValue(target.def, value, syntax))
      && (r == Refused(InvalidValue) <==> value != "" && !ValidValue(target.def, value, syntax))
      && (r == Refused(ValueRequired) <==> value == "" && target.scope.required)
  {
  }

  /** A clear of an optional field on such an entity is Done, and its value stays. */
  lemma ClearOutsideTheSpace(defs: seq<Def>, scopes: seq<Scope>, before: map<string, string>, syntax: Syntax)
    requires defs == [Def(1, "points", "Points", NumberField, [], false)] && scopes == [Scope(1, false)]
    requires before == map["points" := "8"]
    ensures WriteResult(defs, scopes, "points", "", false, syntax) == Done
    ensures WrittenValues(before, Done, "points", "", false) == before
  {
    assert FindSlug(defs, "points") == Some(defs[0]);
    assert FindScope(scopes, 1) == Some(scopes[0]);
  }

  lemma {:induction false} ListedValues(stored: seq<Stored>, values: map<string, string>)
    requires Lists(stored, values)
    ensures ValuesOf(stored) == values
  {
    ValuesAreStored(stored);
    forall slug ensures slug in ValuesOf(stored) <==> slug in values {
      if slug in values { assert Stored(slug, values[slug]) in stored; }
    }
  }

  /** A value under a required field is never cleared by a write. */
  lemma RequiredStaysPresent(defs: seq<Def>, scopes: seq<Scope>, syntax: Syntax, slug: string, value: string,
                             here: bool, before: map<string, string>)
    requires WritableField(defs, scopes, slug).Target? && WritableField(defs, scopes, slug).scope.required
    requires slug in before
    ensures slug in WrittenValues(before, WriteResult(defs, scopes, slug, value, here, syntax), slug, value, here)
  {
  }
}
