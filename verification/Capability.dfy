/** Roles and capabilities, internal/core/access/capability.go. */
module Capabilities {
  datatype Option<T> = None | Some(value: T)

  /** In ascending order of authority. */
  datatype Role = NoRole | Viewer | Contributor | Agent | SpaceAdmin
  {
    function Level(): nat {
      match this case NoRole => 0 case Viewer => 1 case Contributor => 2 case Agent => 3 case SpaceAdmin => 4
    }

    /** The wire form; NoRole has none. */
    function Name(): string {
      match this
      case NoRole => ""
      case Viewer => "viewer"
      case Contributor => "contributor"
      case Agent => "agent"
      case SpaceAdmin => "space_admin"
    }

    /** Unknown capabilities are never granted, and NoRole grants nothing. */
    predicate Grants(c: Capability) { !NoRole? && MinRole(c).Some? && Level() >= MinRole(c).value.Level() }
  }

  const ROLES: seq<Role> := [NoRole, Viewer, Contributor, Agent, SpaceAdmin]

  /** Searches the name table; the zero value is no answer. */
  function ParseFrom(s: string, table: seq<Role>): Option<Role> {
    if table == [] then None
    else if table[0] != NoRole && table[0].Name() == s then Some(table[0])
    else ParseFrom(s, table[1..])
  }

  function ParseRole(s: string): Option<Role> { ParseFrom(s, ROLES) }

  datatype Capability =
    | ReadItems | ReadAggregates | CreateItems | EditOwnItems | Comment | EditAnyItem | TransitionAnyItem
    | ManageQueue | ManageSpace | ManageGrants | ManageShares | ManageWorkflow | SetVisibility | Other(name: string)

  function MinRole(c: Capability): Option<Role> {
    match c
    case ReadItems | ReadAggregates => Some(Viewer)
    case CreateItems | EditOwnItems | Comment => Some(Contributor)
    case EditAnyItem | TransitionAnyItem | ManageQueue => Some(Agent)
    case ManageSpace | ManageGrants | ManageShares | ManageWorkflow => Some(SpaceAdmin)
    case SetVisibility | Other(_) => None
  }

  predicate OrgLevel(c: Capability) { c.SetVisibility? }

  function Higher(a: Role, b: Role): Role { if b.Level() > a.Level() then b else a }

  lemma NamesDiffer(r: Role, q: Role)
    ensures r.Name() == q.Name() <==> r == q
  {
    assert "viewer"[0] == 'v' && "contributor"[0] == 'c' && "agent"[0] == 'a' && "space_admin"[0] == 's';
  }

  lemma {:induction false} ParseFromTable(s: string, table: seq<Role>, r: Role)
    ensures ParseFrom(s, table) == Some(r) ==> r != NoRole && r.Name() == s
    ensures r in table && r != NoRole && r.Name() == s ==> ParseFrom(s, table) == Some(r)
  {
    if table != [] {
      NamesDiffer(table[0], r);
      ParseFromTable(s, table[1..], r);
      assert table == [table[0]] + table[1..];
    }
  }

  /** A string parses to a role exactly when it is that role's wire form; nothing parses to NoRole. */
  lemma ParseUndoesName(s: string, r: Role)
    ensures ParseRole(s) == Some(r) <==> r != NoRole && r.Name() == s
  {
    assert r == ROLES[r.Level()];
    ParseFromTable(s, ROLES, r);
  }

  /** Roles are cumulative; what no role grants is granted across an organization or not at all. */
  lemma RolesAreCumulative(r: Role, q: Role, c: Capability)
    ensures r.Level() <= q.Level() && r.Grants(c) ==> q.Grants(c)
    ensures OrgLevel(c) ==> !r.Grants(c)
    ensures SpaceAdmin.Grants(c) <==> MinRole(c).Some?
  {
  }
}
