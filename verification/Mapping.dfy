/** The mapping tables of internal/assess/mapping.go, as verdicts. */
module Mapping {
  import opened Text
  import L = AssessLedger

  function AfterLast(s: string, c: char): string {
    if s == "" then ""
    else if s[|s| - 1] == c then ""
    else AfterLast(s[..|s| - 1], c) + [s[|s| - 1]]
  }

  /** The custom-field type without its plugin namespace. */
  function FieldKey(fieldType: string): string { ToLower(AfterLast(TrimSpace(fieldType), ':')) }

  function FieldVerdict(fieldType: string): L.Verdict {
    var key := FieldKey(fieldType);
    if key in {"textfield", "textarea", "float", "datepicker", "select", "radiobuttons"} then L.Clean
    else if key in {"url", "readonlyfield", "importid", "datetime", "multiselect", "multicheckboxes", "labels",
                    "userpicker", "multiuserpicker", "grouppicker", "multigrouppicker", "project", "version",
                    "multiversion"} then L.Approximated
    else L.Unmappable
  }

  function MacroVerdict(name: string): L.Verdict {
    var key := ToLower(TrimSpace(name));
    if key in {"info", "note", "warning", "expand", "status", "toc", "children", "include", "code"} then L.Clean
    else if key in {"tip", "panel", "excerpt-include", "noformat"} then L.Approximated
    else L.Preserved
  }

  predicate IsPriority(v: string) { ToLower(TrimSpace(v)) in {"urgent", "high", "medium", "low"} }

  predicate IsSeededKind(slug: string) { slug in {"task", "story", "bug", "epic"} }

  predicate IsAlnum(r: char) { 'a' <= r <= 'z' || '0' <= r <= '9' }

  function SlugRunes(s: string): string {
    if s == "" then ""
    else (if IsAlnum(s[0]) then [s[0]] else if s[0] in " -_./" then "_" else "") + SlugRunes(s[1..])
  }

  /** Runs of underscores become one. */
  function Collapse(s: string): string {
    if |s| < 2 then s
    else if s[0] == '_' && s[1] == '_' then Collapse(s[1..])
    else [s[0]] + Collapse(s[1..])
  }

  function TrimUnderscores(s: string): string {
    if s != "" && s[0] == '_' then TrimUnderscores(s[1..])
    else if s != "" && s[|s| - 1] == '_' then TrimUnderscores(s[..|s| - 1])
    else s
  }

  function Slug(name: string): string { Collapse(TrimUnderscores(SlugRunes(ToLower(TrimSpace(name))))) }

  predicate SlugChanges(name: string) { Slug(name) != ToLower(TrimSpace(name)) }

  function KeyRunes(s: string): string {
    if s == "" then ""
    else (if 'A' <= s[0] <= 'Z' || '0' <= s[0] <= '9' then [s[0]] else "") + KeyRunes(s[1..])
  }

  function SpaceKey(key: string): string {
    var runes := KeyRunes(ToUpper(TrimSpace(key)));
    if |runes| > 10 then runes[..10] else runes
  }

  predicate KeyChanges(key: string) { SpaceKey(key) != ToUpper(TrimSpace(key)) }

  // ----- Handlers ---------------------------------------------------------------------------------

  /** One registration with a scanner: rows of this name, in lower case, go to that handler. */
  datatype Handler<K> = On(name: string, kind: K)

  /** The last registration of a name wins. */
  function HandlerOf<K>(hs: seq<Handler<K>>, name: string, otherwise: K): K {
    if hs == [] then otherwise
    else if hs[|hs| - 1].name == name then hs[|hs| - 1].kind
    else HandlerOf(hs[..|hs| - 1], name, otherwise)
  }

  function Registered<K>(hs: seq<Handler<K>>): set<string> { set i | 0 <= i < |hs| :: hs[i].name }

  lemma {:induction false} RegisteredAreHandled<K>(hs: seq<Handler<K>>, name: string, otherwise: K)
    requires forall i :: 0 <= i < |hs| ==> hs[i].kind != otherwise
    ensures name in Registered(hs) <==> HandlerOf(hs, name, otherwise) != otherwise
  {
    if hs != [] {
      var init, last := hs[..|hs| - 1], hs[|hs| - 1];
      RegisteredAreHandled(init, name, otherwise);
      assert Registered(hs) == Registered(init) + {last.name};
    }
  }
}
