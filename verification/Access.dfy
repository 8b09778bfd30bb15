/**
  Who may read a space, and why: the per-request resolution of internal/core/access/resolver.go
  and the explanation of internal/core/access/explain.go, over one database.
 */
module Access {
  import opened Capabilities

  type ID = nat

  datatype Space = Space(org: ID, visibility: string, deleted: bool)

  /** `path` leads from the root team down to this one. */
  datatype Team = Team(org: ID, name: string, path: seq<ID>, deleted: bool)

  datatype Subject = User(id: ID) | OfTeam(id: ID)

  datatype Grant = Grant(id: ID, org: ID, space: ID, subject: Subject, role: string)

  datatype Membership = Membership(user: ID, team: ID, org: ID)

  datatype Database = Database(
    spaces: map<ID, Space>, teams: map<ID, Team>, memberships: set<Membership>, grants: seq<Grant>)

  // ----- The queries -----------------------------------------------------------------------------

  datatype Row = Row(space: ID, role: string)

  datatype RawMatch = RawMatch(grantID: ID, subject: Subject, role: string, teamName: string, teamPath: seq<ID>)

  ghost predicate LiveSpace(db: Database, org: ID, space: ID) {
    space in db.spaces && db.spaces[space].org == org && !db.spaces[space].deleted
  }

  ghost predicate LiveTeam(db: Database, team: ID) { team in db.teams && !db.teams[team].deleted }

  /** The user's own teams in the organization. */
  ghost predicate Direct(db: Database, org: ID, user: ID, team: ID) {
    LiveTeam(db, team) && Membership(user, team, org) in db.memberships
  }

  /** The user belongs to the team or to a team above it. */
  ghost predicate Effective(db: Database, org: ID, user: ID, team: ID) {
    LiveTeam(db, team) && exists t :: t in db.teams[team].path && Direct(db, org, user, t)
  }

  /** The grant reaches the user as the resolution sees it. */
  ghost predicate Resolves(db: Database, org: ID, user: ID, g: Grant) {
    && g.org == org && g.space in db.spaces && !db.spaces[g.space].deleted
    && match g.subject
       case User(id) => id == user
       case OfTeam(id) => Effective(db, org, user, id) && db.teams[id].org == org
  }

  /** The grant reaches the user as the explanation of a space sees it. */
  ghost predicate Matches(db: Database, org: ID, user: ID, space: ID, g: Grant) {
    && g.space == space
    && match g.subject
       case User(id) => id == user
       case OfTeam(id) => Effective(db, org, user, id)
  }

  function MatchOf(db: Database, g: Grant): RawMatch {
    var known := g.subject.OfTeam? && g.subject.id in db.teams && !db.teams[g.subject.id].deleted;
    RawMatch(g.id, g.subject, g.role, if known then db.teams[g.subject.id].name else "",
             if known then db.teams[g.subject.id].path else [])
  }

  /** The rows of the resolution query, in any order: one per grant that reaches the user, and one
      for each space the whole organization sees. */
  ghost predicate AccessRows(db: Database, org: ID, user: ID, rows: seq<Row>) {
    forall row :: row in rows <==>
      || (exists g :: g in db.grants && Resolves(db, org, user, g) && row == Row(g.space, g.role))
      || (LiveSpace(db, org, row.space) && db.spaces[row.space].visibility == "org" && row.role == Viewer.Name())
  }

  ghost predicate MatchingGrants(db: Database, org: ID, user: ID, space: ID, ms: seq<RawMatch>) {
    forall m :: m in ms <==> exists g :: g in db.grants && Matches(db, org, user, space, g) && m == MatchOf(db, g)
  }

  ghost predicate LiveSpaceIDs(db: Database, org: ID, ids: seq<ID>) {
    forall id :: id in ids <==> LiveSpace(db, org, id)
  }

  ghost predicate DirectTeams(db: Database, org: ID, user: ID, names: map<ID, string>) {
    && (forall t :: t in names <==> Direct(db, org, user, t))
    && (forall t :: t in names ==> names[t] == db.teams[t].name)
  }

  /** What creating a grant checks: it carries its space's organization, and a team it names is one
      of that organization's.  A team's path ends with the team itself. */
  ghost predicate Sound(db: Database) {
    && (forall g :: g in db.grants ==> g.space in db.spaces && g.org == db.spaces[g.space].org)
    && (forall g :: g in db.grants && g.subject.OfTeam? ==>
          g.subject.id in db.teams && db.teams[g.subject.id].org == g.org)
    && (forall t :: t in db.teams ==> db.teams[t].path != [] && db.teams[t].path[|db.teams[t].path| - 1] == t)
  }

  // ----- Resolution -------------------------------------------------------------------------------

  datatype Fetched<T> = Ok(value: T) | NotMember | Broken

  datatype OrgRole = OrgRole(name: string, admin: bool)

  /** A role, or NoRole when the string is not one: such rows are dropped. */
  function Parsed(s: string): Role { if ParseRole(s).Some? then ParseRole(s).value else NoRole }

  /** The highest role these rows give on a space. */
  function RoleIn(rows: seq<Row>, space: ID): Role {
    if rows == [] then NoRole
    else
      var last := rows[|rows| - 1];
      Higher(RoleIn(rows[..|rows| - 1], space), if last.space == space then Parsed(last.role) else NoRole)
  }

  class Resolution {
    const isOrgAdmin: bool
    var roles: map<ID, Role>
    var adminSpaces: set<ID>
    var readable: seq<ID>

    ghost predicate Valid()
      reads this
    {
      && (forall id :: id in roles ==> roles[id] != NoRole)
      && (forall id :: id in readable <==> CanReadSpace(id))
    }

    constructor (isOrgAdmin: bool)
      ensures this.isOrgAdmin == isOrgAdmin && roles == map[] && adminSpaces == {} && readable == []
    {
      this.isOrgAdmin := isOrgAdmin;
      roles, adminSpaces, readable := map[], {}, [];
    }

    predicate CanReadSpace(space: ID)
      reads this
    {
      if isOrgAdmin then space in adminSpaces else space in roles
    }

    function RoleOn(space: ID): Role
      reads this
    {
      if isOrgAdmin then (if CanReadSpace(space) then SpaceAdmin else NoRole)
      else if space in roles then roles[space] else NoRole
    }

    /** An organization admin holds everything on the organization's spaces. */
    predicate Can(c: Capability, space: ID)
      reads this
    {
      if isOrgAdmin then CanReadSpace(space) else RoleOn(space).Grants(c)
    }

    predicate CanOrgWide(c: Capability) { OrgLevel(c) && isOrgAdmin }

    method AddSpaces(ids: seq<ID>)
      requires isOrgAdmin && adminSpaces == {}
      modifies this
      ensures readable == ids && roles == old(roles) && forall id :: id in adminSpaces <==> id in ids
    {
      readable := ids;
      for i := 0 to |ids|
        invariant readable == ids && roles == old(roles) && forall id :: id in adminSpaces <==> id in ids[..i]
      {
        assert ids[..i + 1] == ids[..i] + [ids[i]];
        adminSpaces := adminSpaces + {ids[i]};
      }
      assert ids[..|ids|] == ids;
    }

    method AddRows(rows: seq<Row>)
      requires !isOrgAdmin && roles == map[]
      modifies this`roles
      ensures forall id :: RoleOn(id) == RoleIn(rows, id)
      ensures forall id :: id in roles ==> roles[id] != NoRole
    {
      for i := 0 to |rows|
        invariant forall id :: RoleOn(id) == RoleIn(rows[..i], id)
        invariant forall id :: id in roles ==> roles[id] != NoRole
      {
        assert rows[..i + 1][..i] == rows[..i];
        var role := ParseRole(rows[i].role);
        if role.Some? {
          ParseUndoesName(rows[i].role, role.value);
          if role.value.Level() > RoleOn(rows[i].space).Level() {
            roles := roles[rows[i].space := role.value];
          }
        }
      }
      assert rows[..|rows|] == rows;
    }

    method ListReadable()
      requires !isOrgAdmin
      modifies this`readable
      ensures forall id :: id in readable <==> id in roles
    {
      readable := [];
      var pending := roles.Keys;
      while pending != {}
        invariant pending <= roles.Keys && forall id :: id in readable <==> id in roles && id !in pending
        decreases |pending|
      {
        var id :| id in pending;
        readable := readable + [id];
        pending := pending - {id};
      }
    }
  }

  /** An admin has every role on the organization's spaces, a member the best of the rows' roles. */
  ghost predicate Enforces(res: Resolution, spaceIDs: Fetched<seq<ID>>, rows: Fetched<seq<Row>>)
    reads res
  {
    && res.Valid()
    && if res.isOrgAdmin
       then spaceIDs.Ok? && forall s :: res.RoleOn(s) == (if s in spaceIDs.value then SpaceAdmin else NoRole)
       else rows.Ok? && forall s :: res.RoleOn(s) == RoleIn(rows.value, s)
  }

  /** What one request may read.  The stores' answers are parameters; only a member gets a
      resolution. */
  method Resolve(orgRole: Fetched<OrgRole>, spaceIDs: Fetched<seq<ID>>, rows: Fetched<seq<Row>>)
    returns (r: Fetched<Resolution>)
    ensures r.Ok? <==> orgRole.Ok? && (if orgRole.value.admin then spaceIDs.Ok? else rows.Ok?)
    ensures r.NotMember? <==> orgRole.NotMember?
    ensures r.Ok? ==> r.value.isOrgAdmin == orgRole.value.admin && Enforces(r.value, spaceIDs, rows)
  {
    match orgRole
    case NotMember => r := NotMember;
    case Broken => r := Broken;
    case Ok(role) =>
      var res := new Resolution(role.admin);
      if role.admin {
        if !spaceIDs.Ok? { return Broken; }
        res.AddSpaces(spaceIDs.value);
      } else {
        if !rows.Ok? { return Broken; }
        res.AddRows(rows.value);
        res.ListReadable();
      }
      r := Ok(res);
  }

  /** A space is readable exactly when the role on it is a role, and every capability on it needs that. */
  lemma ReadableIsHavingARole(res: Resolution, c: Capability, space: ID)
    requires res.Valid()
    ensures res.CanReadSpace(space) <==> res.RoleOn(space) != NoRole
    ensures res.CanReadSpace(space) <==> space in res.readable
    ensures res.Can(c, space) ==> res.CanReadSpace(space)
    ensures res.CanOrgWide(c) ==> res.isOrgAdmin && forall r: Role :: !r.Grants(c)
  {
  }

  // ----- Explanation -----------------------------------------------------------------------------

  datatype MatchedGrant = MatchedGrant(
    grantID: ID, subject: Subject, role: Role, teamName: string,
    matchedTeam: Option<ID>, matchedTeamName: string, depth: nat)

  /** The last position on the path that is one of the user's teams, or the length if none is. */
  function DeepestOn(path: seq<ID>, direct: map<ID, string>): (i: nat)
    ensures i <= |path| && (i < |path| ==> path[i] in direct)
    ensures forall j :: (if i < |path| then i < j else 0 <= j) && j < |path| ==> path[j] !in direct
  {
    if path == [] then 0
    else if path[|path| - 1] in direct then |path| - 1
    else
      var i := DeepestOn(path[..|path| - 1], direct);
      if i == |path| - 1 then |path| else i
  }

  function Annotated(m: RawMatch, direct: map<ID, string>): MatchedGrant {
    var link := MatchedGrant(m.grantID, m.subject, Parsed(m.role), m.teamName, None, "", 0);
    var i := DeepestOn(m.teamPath, direct);
    if m.subject.OfTeam? && i < |m.teamPath|
    then link.(matchedTeam := Some(m.teamPath[i]), matchedTeamName := direct[m.teamPath[i]],
               depth := |m.teamPath| - 1 - i)
    else link
  }

  /** The chain: every match whose role is a role. */
  function Chain(ms: seq<RawMatch>, direct: map<ID, string>): seq<MatchedGrant> {
    if ms == [] then []
    else
      var m := ms[|ms| - 1];
      Chain(ms[..|ms| - 1], direct) + (if ParseRole(m.role).Some? then [Annotated(m, direct)] else [])
  }

  function BestOf(ms: seq<RawMatch>): Role {
    if ms == [] then NoRole else Higher(BestOf(ms[..|ms| - 1]), Parsed(ms[|ms| - 1].role))
  }

  /** The matches' best role, or viewer where the whole organization sees the space. */
  function ExplainedRole(ms: seq<RawMatch>, visibility: string): Role {
    if visibility == "org" && BestOf(ms).NoRole? then Viewer else BestOf(ms)
  }

  class Explanation {
    var access: bool
    var role: string
    var orgAdmin: bool
    var orgVisibility: bool
    var grants: seq<MatchedGrant>

    constructor ()
      ensures !access && role == "" && !orgAdmin && !orgVisibility && grants == []
    {
      access, role, orgAdmin, orgVisibility, grants := false, "", false, false, [];
    }

    method CollectChain(ms: seq<RawMatch>, direct: map<ID, string>) returns (best: Role)
      requires grants == []
      modifies this`grants
      ensures best == BestOf(ms) && grants == Chain(ms, direct)
    {
      best := NoRole;
      for i := 0 to |ms|
        invariant best == BestOf(ms[..i]) && grants == Chain(ms[..i], direct)
      {
        assert ms[..i + 1][..i] == ms[..i];
        var role := ParseRole(ms[i].role);
        if role.None? {
          continue;
        }
        var link := AnnotateMatch(ms[i], role.value, direct);
        grants := grants + [link];
        if role.value.Level() > best.Level() {
          best := role.value;
        }
      }
      assert ms[..|ms|] == ms;
    }
  }

  /** Scans the granted team's path from the team upwards. */
  method AnnotateMatch(m: RawMatch, role: Role, direct: map<ID, string>) returns (link: MatchedGrant)
    requires ParseRole(m.role) == Some(role)
    ensures link == Annotated(m, direct)
  {
    link := MatchedGrant(m.grantID, m.subject, role, m.teamName, None, "", 0);
    if !m.subject.OfTeam? {
      return;
    }
    var i := |m.teamPath|;
    while i > 0
      invariant 0 <= i <= |m.teamPath| && forall j :: i <= j < |m.teamPath| ==> m.teamPath[j] !in direct
    {
      i := i - 1;
      if m.teamPath[i] in direct {
        assert DeepestOn(m.teamPath, direct) == i;
        link := link.(matchedTeam := Some(m.teamPath[i]), matchedTeamName := direct[m.teamPath[i]],
                      depth := |m.teamPath| - 1 - i);
        return;
      }
    }
  }

  /** An admin has access without a grant, a member the explained role. */
  ghost predicate Explains(e: Explanation, admin: bool, visibility: Fetched<string>, ms: Fetched<seq<RawMatch>>)
    reads e
  {
    && e.orgAdmin == admin
    && (admin ==> e.access && e.role == SpaceAdmin.Name())
    && (!admin ==>
          && visibility.Ok? && ms.Ok?
          && var role := ExplainedRole(ms.value, visibility.value);
             e.role == role.Name() && (e.access <==> role != NoRole))
  }

  /** The explanation for one user on one space, from the stores' answers.  A stranger's is empty, an
      admin's needs no grant. */
  method Explain(orgRole: Fetched<OrgRole>, visibility: Fetched<string>, direct: Fetched<map<ID, string>>,
                 ms: Fetched<seq<RawMatch>>)
    returns (r: Fetched<Explanation>)
    ensures r.Ok? <==> orgRole.NotMember?
                       || (orgRole.Ok? && (orgRole.value.admin || (visibility.Ok? && direct.Ok? && ms.Ok?)))
    ensures orgRole.NotMember? ==> !r.value.access && r.value.role == "" && r.value.grants == [] && !r.value.orgAdmin
    ensures r.Ok? && orgRole.Ok? ==> Explains(r.value, orgRole.value.admin, visibility, ms)
    ensures r.Ok? && orgRole.Ok? && orgRole.value.admin ==> r.value.grants == []
    ensures r.Ok? && orgRole.Ok? && !orgRole.value.admin ==>
              && r.value.grants == Chain(ms.value, direct.value)
              && (r.value.orgVisibility <==> ExplainedRole(ms.value, visibility.value) != BestOf(ms.value))
  {
    match orgRole
    case Broken => r := Broken;
    case NotMember =>
      var out := new Explanation();
      r := Ok(out);
    case Ok(role) =>
      var out := new Explanation();
      if role.admin {
        out.access, out.orgAdmin, out.role := true, true, SpaceAdmin.Name();
        return Ok(out);
      }
      if !visibility.Ok? || !direct.Ok? || !ms.Ok? {
        return Broken;
      }
      var best := out.CollectChain(ms.value, direct.value);
      if visibility.value == "org" && best.Level() < Viewer.Level() {
        best := Viewer;
        out.orgVisibility := true;
      }
      out.access := best.Level() > NoRole.Level();
      out.role := best.Name();
      r := Ok(out);
  }

  // ----- They agree ---------------------------------------------------------------------------------

  lemma {:induction false} RoleInIsHighest(rows: seq<Row>, space: ID)
    ensures forall row :: row in rows && row.space == space ==> Parsed(row.role).Level() <= RoleIn(rows, space).Level()
    ensures RoleIn(rows, space) != NoRole ==>
              exists row :: row in rows && row.space == space && Parsed(row.role) == RoleIn(rows, space)
  {
    if rows != [] {
      var n := |rows| - 1;
      RoleInIsHighest(rows[..n], space);
      assert rows == rows[..n] + [rows[n]];
      assert rows[n] in rows;
      if RoleIn(rows, space) == RoleIn(rows[..n], space) != NoRole {
        var row :| row in rows[..n] && row.space == space && Parsed(row.role) == RoleIn(rows[..n], space);
        assert row in rows;
      }
    }
  }

  lemma {:induction false} BestOfIsHighest(ms: seq<RawMatch>)
    ensures forall m :: m in ms ==> Parsed(m.role).Level() <= BestOf(ms).Level()
    ensures BestOf(ms) != NoRole ==> exists m :: m in ms && Parsed(m.role) == BestOf(ms)
  {
    if ms != [] {
      var n := |ms| - 1;
      BestOfIsHighest(ms[..n]);
      assert ms == ms[..n] + [ms[n]];
      assert ms[n] in ms;
      if BestOf(ms) == BestOf(ms[..n]) != NoRole {
        var m :| m in ms[..n] && Parsed(m.role) == BestOf(ms[..n]);
        assert m in ms;
      }
    }
  }

  /** The two queries see the same grants on a live space of the organization. */
  lemma SameGrants(db: Database, org: ID, user: ID, space: ID, g: Grant)
    requires Sound(db) && LiveSpace(db, org, space) && g in db.grants
    ensures Matches(db, org, user, space, g) <==> Resolves(db, org, user, g) && g.space == space
  {
  }

  /** A role a row gives on the space is a role a match gives, or the organization's viewer row. */
  lemma RowHasMatch(db: Database, org: ID, user: ID, space: ID, rows: seq<Row>, ms: seq<RawMatch>, row: Row)
    requires Sound(db) && LiveSpace(db, org, space)
    requires AccessRows(db, org, user, rows) && MatchingGrants(db, org, user, space, ms)
    requires row in rows && row.space == space
    ensures (exists m :: m in ms && m.role == row.role)
            || (db.spaces[space].visibility == "org" && row.role == Viewer.Name())
  {
    if !(LiveSpace(db, org, row.space) && db.spaces[row.space].visibility == "org" && row.role == Viewer.Name()) {
      var g :| g in db.grants && Resolves(db, org, user, g) && row == Row(g.space, g.role);
      SameGrants(db, org, user, space, g);
      assert MatchOf(db, g) in ms;
    }
  }

  lemma MatchHasRow(db: Database, org: ID, user: ID, space: ID, rows: seq<Row>, ms: seq<RawMatch>, m: RawMatch)
    requires Sound(db) && LiveSpace(db, org, space)
    requires AccessRows(db, org, user, rows) && MatchingGrants(db, org, user, space, ms)
    requires m in ms
    ensures Row(space, m.role) in rows
  {
    var g :| g in db.grants && Matches(db, org, user, space, g) && m == MatchOf(db, g);
    SameGrants(db, org, user, space, g);
    assert Row(space, m.role) == Row(g.space, g.role);
  }

  lemma ViewerParses()
    ensures Parsed(Viewer.Name()) == Viewer
  {
    ParseUndoesName(Viewer.Name(), Viewer);
  }

  lemma {:induction false} EnforcedIsCovered(db: Database, org: ID, user: ID, space: ID, rows: seq<Row>,
                                             ms: seq<RawMatch>)
    requires Sound(db) && LiveSpace(db, org, space)
    requires AccessRows(db, org, user, rows) && MatchingGrants(db, org, user, space, ms)
    ensures RoleIn(rows, space).Level() <= ExplainedRole(ms, db.spaces[space].visibility).Level()
  {
    var enforced := RoleIn(rows, space);
    RoleInIsHighest(rows, space);
    BestOfIsHighest(ms);
    ViewerParses();
    if enforced != NoRole {
      var row :| row in rows && row.space == space && Parsed(row.role) == enforced;
      RowHasMatch(db, org, user, space, rows, ms, row);
    }
  }

  lemma {:induction false} ExplainedIsCovered(db: Database, org: ID, user: ID, space: ID, rows: seq<Row>,
                                              ms: seq<RawMatch>)
    requires Sound(db) && LiveSpace(db, org, space)
    requires AccessRows(db, org, user, rows) && MatchingGrants(db, org, user, space, ms)
    ensures ExplainedRole(ms, db.spaces[space].visibility).Level() <= RoleIn(rows, space).Level()
  {
    RoleInIsHighest(rows, space);
    BestOfIsHighest(ms);
    ViewerParses();
    if BestOf(ms) != NoRole {
      var m :| m in ms && Parsed(m.role) == BestOf(ms);
      MatchHasRow(db, org, user, space, rows, ms, m);
    }
    if db.spaces[space].visibility == "org" { assert Row(space, Viewer.Name()) in rows; }
  }

  /** For a member who is no admin, on a live space of the organization: the explained role is the
      role that is enforced, whatever order the stores answer in. */
  lemma {:induction false} ExplainedIsEnforced(db: Database, org: ID, user: ID, space: ID, rows: seq<Row>,
                                               ms: seq<RawMatch>)
    requires Sound(db) && LiveSpace(db, org, space)
    requires AccessRows(db, org, user, rows) && MatchingGrants(db, org, user, space, ms)
    ensures ExplainedRole(ms, db.spaces[space].visibility) == RoleIn(rows, space)
  {
    EnforcedIsCovered(db, org, user, space, rows, ms);
    ExplainedIsCovered(db, org, user, space, rows, ms);
  }

  /** An admin's explanation says access on any space at all; enforcement grants it on the
      organization's live spaces only, so the two agree exactly there. */
  lemma AdminExplanationNeedsTheOrg(db: Database, org: ID, space: ID, ids: seq<ID>, res: Resolution, e: Explanation)
    requires LiveSpaceIDs(db, org, ids) && res.isOrgAdmin && res.Valid()
    requires forall s :: res.RoleOn(s) == if s in ids then SpaceAdmin else NoRole
    requires e.access && e.role == SpaceAdmin.Name()
    ensures (e.access <==> res.CanReadSpace(space)) <==> LiveSpace(db, org, space)
    ensures e.role == res.RoleOn(space).Name() <==> LiveSpace(db, org, space)
  {
    ReadableIsHavingARole(res, ReadItems, space);
    NamesDiffer(SpaceAdmin, res.RoleOn(space));
  }

  /** Nothing on the space reaches the user: it is not open to its organization, and no grant that
      matches carries a role. */
  ghost predicate Unreached(db: Database, org: ID, user: ID, space: ID)
    requires space in db.spaces
  {
    && db.spaces[space].visibility != "org"
    && !exists g :: g in db.grants && Matches(db, org, user, space, g) && ParseRole(g.role).Some?
  }

  lemma NoRoleIsUnreached(db: Database, org: ID, user: ID, space: ID, ms: seq<RawMatch>)
    requires space in db.spaces && MatchingGrants(db, org, user, space, ms)
    ensures ExplainedRole(ms, db.spaces[space].visibility) == NoRole <==> Unreached(db, org, user, space)
  {
    BestOfIsHighest(ms);
    forall m | m in ms ensures Parsed(m.role) != NoRole <==> ParseRole(m.role).Some? {
      if ParseRole(m.role).Some? { ParseUndoesName(m.role, Parsed(m.role)); }
    }
    if g :| g in db.grants && Matches(db, org, user, space, g) && ParseRole(g.role).Some? {
      assert MatchOf(db, g) in ms;
    }
  }

  lemma {:induction false} NothingEnforcedElsewhere(db: Database, org: ID, user: ID, space: ID, rows: seq<Row>)
    requires Sound(db) && AccessRows(db, org, user, rows)
    requires space in db.spaces && db.spaces[space].org != org
    ensures RoleIn(rows, space) == NoRole
  {
    RoleInIsHighest(rows, space);
    forall row | row in rows ensures row.space != space {
      assert LiveSpace(db, org, row.space)
             || exists g :: g in db.grants && Resolves(db, org, user, g) && row == Row(g.space, g.role);
    }
  }

  /** For a member who is no admin, on any space that is not deleted: the explained role is the
      enforced one exactly when the space is the organization's, or nothing on it reaches the user. */
  lemma {:induction false} MemberExplanationNeedsTheOrg(db: Database, org: ID, user: ID, space: ID, rows: seq<Row>,
                                                        ms: seq<RawMatch>)
    requires Sound(db) && space in db.spaces && !db.spaces[space].deleted
    requires AccessRows(db, org, user, rows) && MatchingGrants(db, org, user, space, ms)
    ensures ExplainedRole(ms, db.spaces[space].visibility) == RoleIn(rows, space)
            <==> db.spaces[space].org == org || Unreached(db, org, user, space)
  {
    if db.spaces[space].org == org {
      ExplainedIsEnforced(db, org, user, space, rows, ms);
    } else {
      NothingEnforcedElsewhere(db, org, user, space, rows);
      NoRoleIsUnreached(db, org, user, space, ms);
    }
  }

  /** The other half is not idle: here is a space of another organization where they differ. */
  lemma ExplanationLeavesTheOrg()
    ensures exists db, org, user, space, rows, ms ::
      && Sound(db) && AccessRows(db, org, user, rows) && MatchingGrants(db, org, user, space, ms)
      && space in db.spaces && !db.spaces[space].deleted && db.spaces[space].org != org
      && ExplainedRole(ms, db.spaces[space].visibility) != RoleIn(rows, space)
  {
    var db := Database(map[7 := Space(2, "org", false)], map[], {}, []);
    assert Sound(db);
    assert AccessRows(db, 1, 0, []);
    assert MatchingGrants(db, 1, 0, 7, []);
    assert ExplainedRole([], db.spaces[7].visibility) == Viewer && RoleIn([], 7) == NoRole;
  }

  /** The two results side by side, for admins and members, when both stores read one database: the
      explanation's role and access are those that are enforced exactly when the space is the
      organization's or, for a member, nothing on it reaches them. */
  lemma ExplanationAgreesWithResolution(
      db: Database, org: ID, user: ID, space: ID, ids: Fetched<seq<ID>>, rows: Fetched<seq<Row>>,
      ms: Fetched<seq<RawMatch>>, res: Resolution, e: Explanation)
    requires Sound(db) && space in db.spaces && !db.spaces[space].deleted
    requires ids.Ok? ==> LiveSpaceIDs(db, org, ids.value)
    requires rows.Ok? ==> AccessRows(db, org, user, rows.value)
    requires ms.Ok? ==> MatchingGrants(db, org, user, space, ms.value)
    requires Enforces(res, ids, rows) && Explains(e, res.isOrgAdmin, Ok(db.spaces[space].visibility), ms)
    ensures e.role == res.RoleOn(space).Name() && (e.access <==> res.CanReadSpace(space))
            <==> db.spaces[space].org == org || (!res.isOrgAdmin && Unreached(db, org, user, space))
  {
    ReadableIsHavingARole(res, ReadItems, space);
    if res.isOrgAdmin {
      AdminExplanationNeedsTheOrg(db, org, space, ids.value, res, e);
    } else {
      MemberExplanationNeedsTheOrg(db, org, user, space, rows.value, ms.value);
      NamesDiffer(ExplainedRole(ms.value, db.spaces[space].visibility), res.RoleOn(space));
    }
  }

  // ----- What the chain says ---------------------------------------------------------------------------

  /** Every team link names a team of the user's, the deepest one above the granted team; its depth is
      the distance down to the granted team, and is zero exactly for a direct member. */
  lemma TeamLinksNameATeam(db: Database, org: ID, user: ID, space: ID, ms: seq<RawMatch>, direct: map<ID, string>,
                           m: RawMatch)
    requires Sound(db) && MatchingGrants(db, org, user, space, ms) && DirectTeams(db, org, user, direct)
    requires m in ms && m.subject.OfTeam?
    ensures var link := Annotated(m, direct);
      && link.matchedTeam.Some? && Direct(db, org, user, link.matchedTeam.value)
      && link.matchedTeamName == db.teams[link.matchedTeam.value].name
      && link.depth < |m.teamPath| && m.teamPath[|m.teamPath| - 1 - link.depth] == link.matchedTeam.value
      && (forall j :: |m.teamPath| - link.depth <= j < |m.teamPath| ==> !Direct(db, org, user, m.teamPath[j]))
      && (link.depth == 0 <==> Direct(db, org, user, m.subject.id))
  {
    var g :| g in db.grants && Matches(db, org, user, space, g) && m == MatchOf(db, g);
    var t :| t in db.teams[m.subject.id].path && Direct(db, org, user, t);
    assert m.teamPath == db.teams[m.subject.id].path;
    var k :| 0 <= k < |m.teamPath| && m.teamPath[k] == t;
    assert t in direct;
  }

  /** Exactly the matches with a proper role are explained, in the store's order. */
  lemma {:induction false} ChainIsTheParseableMatches(ms: seq<RawMatch>, direct: map<ID, string>)
    ensures forall link :: link in Chain(ms, direct) <==>
              exists m :: m in ms && ParseRole(m.role).Some? && link == Annotated(m, direct)
    ensures forall link :: link in Chain(ms, direct) ==> link.role != NoRole && link.role.Level() <= BestOf(ms).Level()
  {
    if ms != [] {
      var n := |ms| - 1;
      ChainIsTheParseableMatches(ms[..n], direct);
      assert ms == ms[..n] + [ms[n]];
      if ParseRole(ms[n].role).Some? { ParseUndoesName(ms[n].role, Parsed(ms[n].role)); }
      forall link ensures link in Chain(ms, direct) <==>
          exists m :: m in ms && ParseRole(m.role).Some? && link == Annotated(m, direct) {
        if link in Chain(ms[..n], direct) {
          var m :| m in ms[..n] && ParseRole(m.role).Some? && link == Annotated(m, direct);
          assert m in ms;
        }
        if m :| m in ms && ParseRole(m.role).Some? && link == Annotated(m, direct) {
          assert m in ms[..n] || m == ms[n];
        }
      }
    }
  }
}
