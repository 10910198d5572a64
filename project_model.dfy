/**
 * The project store: the `projects` table and the `project_members` join
 * table keyed by (project, user). The foreign key from a membership to its
 * project, with `ON DELETE CASCADE`, is the class invariant. Timestamps
 * (`CURRENT_TIMESTAMP`) are the `now` parameter of the writing methods.
 */
module ProjectModel {
  import opened Wrappers
  import opened UserModel

  datatype ProjectStatus = Active | Finished

  /** A `projects` row, keyed by `id`; `description` is nullable. */
  datatype ProjectRow = ProjectRow(name: string, description: Option<string>, ownerId: string,
                                   status: ProjectStatus, createdAt: nat, updatedAt: nat)

  /** A `project_members` row, keyed by (project id, user id). */
  datatype Membership = Membership(role: string, joinedAt: nat)

  /** What `crearProyecto` returns: `{ id, name, description, owner_id, status: 'active' }`. */
  datatype NewProject = NewProject(id: string, name: string, description: Option<string>,
                                   ownerId: string, status: ProjectStatus)

  /** A row of `obtenerProyectosUsuario`: the project's columns and the caller's role in it. */
  datatype Listed = Listed(id: string, project: ProjectRow, role: string)

  /** A row of `obtenerMiembrosProyecto`: the member's public columns, role and join time. */
  datatype MemberView = MemberView(id: string, name: string, email: string, role: string, joinedAt: nat)

  const OwnerRole := "owner"
  const DefaultRole := "member"

  /** `FOREIGN KEY (project_id) REFERENCES projects(id)`. */
  ghost predicate MembershipsOwned(projects: map<string, ProjectRow>, members: map<(string, string), Membership>) {
    forall k :: k in members ==> k.0 in projects
  }

  // ---------------------------------------------------------------------------
  // Membership changes as functions of the tables

  /** The membership table after `agregarMiembro`: unchanged when the row exists or the project does not. */
  function WithMember(projects: map<string, ProjectRow>, members: map<(string, string), Membership>,
                      projectId: string, userId: string, role: string, now: nat): map<(string, string), Membership>
  {
    if (projectId, userId) in members || projectId !in projects then members
    else members[(projectId, userId) := Membership(role, now)]
  }

  /** The membership table after its project is deleted (`ON DELETE CASCADE`). */
  function WithoutProject(members: map<(string, string), Membership>, projectId: string): (r: map<(string, string), Membership>)
    ensures forall k :: k in r <==> k in members && k.0 != projectId
    ensures forall k :: k in r ==> r[k] == members[k]
  {
    map k | k in members && k.0 != projectId :: members[k]
  }

  /**
   * Adding a member is idempotent: a second add, with any role and at any
   * time, changes nothing, so the role of the first add is kept.
   */
  lemma AddMemberIdempotent(projects: map<string, ProjectRow>, members: map<(string, string), Membership>,
                            projectId: string, userId: string, role: string, now: nat, role2: string, now2: nat)
    ensures var once := WithMember(projects, members, projectId, userId, role, now);
            WithMember(projects, once, projectId, userId, role2, now2) == once
  {
  }

  /** After an add to an existing project the row is present; it has the given role unless it was there before. */
  lemma AddMemberPresent(projects: map<string, ProjectRow>, members: map<(string, string), Membership>,
                         projectId: string, userId: string, role: string, now: nat)
    requires projectId in projects
    ensures var m := WithMember(projects, members, projectId, userId, role, now);
            (projectId, userId) in m
            && m[(projectId, userId)] == (if (projectId, userId) in members then members[(projectId, userId)]
                                          else Membership(role, now))
            && m.Keys == members.Keys + {(projectId, userId)}
  {
  }

  /**
   * Removing a member takes exactly that project out of that user's listing,
   * leaves every other user's listing as it was, and keeps the foreign key.
   */
  lemma RemoveMemberLeavesListings(projects: map<string, ProjectRow>, members: map<(string, string), Membership>,
                                   projectId: string, userId: string, other: string)
    requires MembershipsOwned(projects, members)
    ensures MembershipsOwned(projects, members - {(projectId, userId)})
    ensures ProjectsOf(projects, members - {(projectId, userId)}, userId)
         == ProjectsOf(projects, members, userId) - {projectId}
    ensures other != userId
            ==> ProjectsOf(projects, members - {(projectId, userId)}, other) == ProjectsOf(projects, members, other)
  {
  }

  /** After a project is deleted no membership row refers to it, and the rows of other projects are kept. */
  lemma DeleteCascades(projects: map<string, ProjectRow>, members: map<(string, string), Membership>, projectId: string)
    requires MembershipsOwned(projects, members)
    ensures MembershipsOwned(projects - {projectId}, WithoutProject(members, projectId))
    ensures forall u :: (projectId, u) !in WithoutProject(members, projectId)
  {
  }

  /** Deleting a project removes exactly it from every user's listing. */
  lemma DeleteLeavesListings(projects: map<string, ProjectRow>, members: map<(string, string), Membership>,
                             projectId: string, userId: string)
    ensures ProjectsOf(projects - {projectId}, WithoutProject(members, projectId), userId)
         == ProjectsOf(projects, members, userId) - {projectId}
  {
  }

  // ---------------------------------------------------------------------------
  // Field-selective update

  /** A value JavaScript reads as truthy. */
  predicate Truthy(s: Option<string>) {
    s.Some? && s.value != ""
  }

  /**
   * Whether `actualizarProyecto` writes at all: a truthy name, a defined
   * description (`null` and `""` included) or a status.
   */
  predicate WritesSomething(name: Option<string>, description: Option<Option<string>>, status: Option<ProjectStatus>) {
    Truthy(name) || description.Some? || status.Some?
  }

  /**
   * The row after an update that writes: each given field replaced, the
   * update time set, the owner and the creation time kept.
   */
  function Patched(row: ProjectRow, name: Option<string>, description: Option<Option<string>>,
                   status: Option<ProjectStatus>, now: nat): (r: ProjectRow)
    ensures r.ownerId == row.ownerId && r.createdAt == row.createdAt && r.updatedAt == now
    ensures r.name == (if Truthy(name) then name.value else row.name)
    ensures r.description == (if description.Some? then description.value else row.description)
    ensures r.status == (if status.Some? then status.value else row.status)
  {
    row.(name := if Truthy(name) then name.value else row.name,
         description := if description.Some? then description.value else row.description,
         status := if status.Some? then status.value else row.status,
         updatedAt := now)
  }

  /** One `column = ?` assignment of the UPDATE statement. */
  datatype Assignment = SetName(name: string) | SetDescription(description: Option<string>)
                      | SetStatus(status: ProjectStatus) | TouchUpdatedAt

  function Apply(row: ProjectRow, a: Assignment, now: nat): ProjectRow {
    match a
    case SetName(n) => row.(name := n)
    case SetDescription(d) => row.(description := d)
    case SetStatus(s) => row.(status := s)
    case TouchUpdatedAt => row.(updatedAt := now)
  }

  /** The assignments of one UPDATE, applied left to right. */
  function ApplyAll(row: ProjectRow, updates: seq<Assignment>, now: nat): ProjectRow
    decreases |updates|
  {
    if updates == [] then row else ApplyAll(Apply(row, updates[0], now), updates[1..], now)
  }

  /** Patching twice with the same fields at the same instant is patching once. */
  lemma PatchIdempotent(row: ProjectRow, name: Option<string>, description: Option<Option<string>>,
                        status: Option<ProjectStatus>, now: nat)
    ensures Patched(Patched(row, name, description, status, now), name, description, status, now)
         == Patched(row, name, description, status, now)
  {
  }

  // ---------------------------------------------------------------------------
  // Listings

  /** Ordered by update time, most recent first: no row was updated before the row after it. */
  predicate NewestFirst(s: seq<Listed>)
    decreases |s|
  {
    |s| <= 1 || (s[0].project.updatedAt >= s[1].project.updatedAt && NewestFirst(s[1..]))
  }

  /** In a newest-first listing every row was updated no earlier than any row after it. */
  lemma {:induction false} NewestFirstOrders(s: seq<Listed>, i: int, j: int)
    requires NewestFirst(s) && 0 <= i < j < |s|
    ensures s[i].project.updatedAt >= s[j].project.updatedAt
    decreases |s|
  {
    if i == 0 {
      if j > 1 {
        NewestFirstOrders(s[1..], 0, j - 1);
      }
    } else {
      NewestFirstOrders(s[1..], i - 1, j - 1);
    }
  }

  /** The project ids a listing mentions. */
  function ListedIds(s: seq<Listed>): set<string>
    decreases |s|
  {
    if s == [] then {} else {s[0].id} + ListedIds(s[1..])
  }

  /** No project is listed twice. */
  predicate DistinctListed(s: seq<Listed>)
    decreases |s|
  {
    s == [] || (s[0].id !in ListedIds(s[1..]) && DistinctListed(s[1..]))
  }

  /** The ids of the projects the user has a membership row in. */
  function ProjectsOf(projects: map<string, ProjectRow>, members: map<(string, string), Membership>,
                      userId: string): set<string>
  {
    set p | p in projects && (p, userId) in members
  }

  /** A listing row that is the project's row with the user's role in it. */
  ghost predicate ListedRight(projects: map<string, ProjectRow>, members: map<(string, string), Membership>,
                              userId: string, x: Listed)
  {
    x.id in projects && (x.id, userId) in members
    && x.project == projects[x.id] && x.role == members[(x.id, userId)].role
  }

  /** Inserts a row before the first row updated no later than it. */
  function InsertNewest(s: seq<Listed>, e: Listed): (r: seq<Listed>)
    requires NewestFirst(s)
    ensures NewestFirst(r) && |r| == |s| + 1
    ensures r[0] == e || (s != [] && r[0] == s[0])
    ensures forall x :: x in r <==> x in s || x == e
    decreases |s|
  {
    if s == [] || s[0].project.updatedAt <= e.project.updatedAt then
      var r := [e] + s;
      assert r[1..] == s;
      r
    else
      var t := InsertNewest(s[1..], e);
      var r := [s[0]] + t;
      assert r[1..] == t;
      r
  }

  /** Insertion adds exactly the new row's id, so a new id keeps the listing free of repeats. */
  lemma {:induction false} InsertNewestIds(s: seq<Listed>, e: Listed)
    requires NewestFirst(s)
    ensures ListedIds(InsertNewest(s, e)) == ListedIds(s) + {e.id}
    ensures DistinctListed(s) && e.id !in ListedIds(s) ==> DistinctListed(InsertNewest(s, e))
    decreases |s|
  {
    var r := InsertNewest(s, e);
    if s == [] || s[0].project.updatedAt <= e.project.updatedAt {
      assert r[1..] == s;
    } else {
      InsertNewestIds(s[1..], e);
      assert r[1..] == InsertNewest(s[1..], e);
    }
  }

  /** The user ids a member list mentions. */
  function MemberIds(s: seq<MemberView>): set<string>
    decreases |s|
  {
    if s == [] then {} else {s[0].id} + MemberIds(s[1..])
  }

  /** No user is listed twice. */
  predicate DistinctMembers(s: seq<MemberView>)
    decreases |s|
  {
    s == [] || (s[0].id !in MemberIds(s[1..]) && DistinctMembers(s[1..]))
  }

  /** The users that have a membership row in the project and a `users` row (the inner join). */
  function MembersOfProject(members: map<(string, string), Membership>, users: map<string, UserRow>,
                                  projectId: string): set<string>
  {
    set k | k in members && k.0 == projectId && k.1 in users :: k.1
  }

  /** A member row that is the user's public columns with the membership's role and join time. */
  ghost predicate MemberRight(members: map<(string, string), Membership>, users: map<string, UserRow>,
                              projectId: string, x: MemberView)
  {
    (projectId, x.id) in members && x.id in users
    && x == MemberView(x.id, users[x.id].name, users[x.id].email,
                       members[(projectId, x.id)].role, members[(projectId, x.id)].joinedAt)
  }

  // ---------------------------------------------------------------------------
  // The store

  class ProjectStore {
    var projects: map<string, ProjectRow>
    var members: map<(string, string), Membership>

    ghost predicate Valid()
      reads this
    {
      MembershipsOwned(projects, members)
    }

    constructor ()
      ensures Valid() && projects == map[] && members == map[]
    {
      projects := map[];
      members := map[];
    }

    /**
     * `agregarMiembro`: nothing happens when the (project, user) row exists,
     * so its role is kept; otherwise the row is inserted with the given role.
     * An insert for a project that does not exist is rejected by the foreign
     * key (`ok` false) and writes nothing.
     */
    method AddMember(projectId: string, userId: string, role: string, now: nat) returns (ok: bool)
      requires Valid()
      modifies this
      ensures Valid() && projects == old(projects)
      ensures ok <==> projectId in projects
      ensures members == WithMember(projects, old(members), projectId, userId, role, now)
    {
      if (projectId, userId) in members {
        return true;
      }
      if projectId !in projects {
        return false;
      }
      members := members[(projectId, userId) := Membership(role, now)];
      ok := true;
    }

    /** `eliminarMiembro`: deletes only the (project, user) row; a no-op when it is absent. */
    method RemoveMember(projectId: string, userId: string)
      requires Valid()
      modifies this
      ensures Valid() && projects == old(projects)
      ensures members == old(members) - {(projectId, userId)}
    {
      members := members - {(projectId, userId)};
    }

    /**
     * `crearProyecto`: inserts the project (status active, both timestamps
     * now), then its owner's membership with role 'owner'. A taken id is
     * rejected by the primary key and nothing is written.
     */
    method CreateProject(id: string, name: string, description: Option<string>, ownerId: string, now: nat)
      returns (created: Option<NewProject>)
      requires Valid()
      modifies this
      ensures Valid()
      ensures created.Some? <==> id !in old(projects)
      ensures created.Some? ==> created.value == NewProject(id, name, description, ownerId, Active)
                                && projects == old(projects)[id := ProjectRow(name, description, ownerId, Active, now, now)]
                                && members == old(members)[(id, ownerId) := Membership(OwnerRole, now)]
      ensures created.None? ==> projects == old(projects) && members == old(members)
    {
      if id in projects {
        return None;
      }
      projects := projects[id := ProjectRow(name, description, ownerId, Active, now, now)];
      var ok := AddMember(id, ownerId, OwnerRole, now);
      created := Some(NewProject(id, name, description, ownerId, Active));
    }

    /** `obtenerProyectoPorId`. */
    method ProjectById(id: string) returns (found: Option<ProjectRow>)
      ensures found.Some? <==> id in projects
      ensures found.Some? ==> found.value == projects[id]
    {
      if id in projects {
        found := Some(projects[id]);
      } else {
        found := None;
      }
    }

    /**
     * `actualizarProyecto`: collects one assignment per given field plus the
     * update time, and runs the UPDATE only when some field was given.
     */
    method UpdateProject(id: string, name: Option<string>, description: Option<Option<string>>,
                         status: Option<ProjectStatus>, now: nat)
      requires Valid()
      modifies this
      ensures Valid() && members == old(members)
      ensures projects == if id in old(projects) && WritesSomething(name, description, status)
                          then old(projects)[id := Patched(old(projects)[id], name, description, status, now)]
                          else old(projects)
    {
      var updates: seq<Assignment> := [];
      if Truthy(name) {
        updates := updates + [SetName(name.value)];
      }
      if description.Some? {
        updates := updates + [SetDescription(description.value)];
      }
      if status.Some? {
        updates := updates + [SetStatus(status.value)];
      }
      updates := updates + [TouchUpdatedAt];
      assert updates == (if Truthy(name) then [SetName(name.value)] else [])
                        + (if description.Some? then [SetDescription(description.value)] else [])
                        + (if status.Some? then [SetStatus(status.value)] else [])
                        + [TouchUpdatedAt];
      if |updates| > 1 && id in projects {
        var row := projects[id];
        ApplyAssignments(row, name, description, status, now);
        projects := projects[id := ApplyAll(row, updates, now)];
      }
    }

    /** `eliminarProyecto`: the project goes, and its membership rows with it. */
    method DeleteProject(id: string)
      requires Valid()
      modifies this
      ensures Valid()
      ensures projects == old(projects) - {id}
      ensures members == WithoutProject(old(members), id)
    {
      projects := projects - {id};
      members := map k | k in members && k.0 != id :: members[k];
    }

    /**
     * `obtenerProyectosUsuario`: one row per project the user is a member
     * of, with the user's role, most recently updated first (rows updated
     * at the same instant may come in any order).
     */
    method ProjectsOfUser(userId: string) returns (listing: seq<Listed>)
      ensures NewestFirst(listing) && DistinctListed(listing)
      ensures ListedIds(listing) == ProjectsOf(projects, members, userId)
      ensures forall x :: x in listing ==> ListedRight(projects, members, userId, x)
    {
      var todo := set p | p in projects && (p, userId) in members;
      listing := [];
      while todo != {}
        invariant todo <= ProjectsOf(projects, members, userId)
        invariant NewestFirst(listing) && DistinctListed(listing)
        invariant ListedIds(listing) == ProjectsOf(projects, members, userId) - todo
        invariant forall x :: x in listing ==> ListedRight(projects, members, userId, x)
        decreases todo
      {
        var p :| p in todo;
        var e := Listed(p, projects[p], members[(p, userId)].role);
        InsertNewestIds(listing, e);
        listing := InsertNewest(listing, e);
        todo := todo - {p};
      }
    }

    /**
     * `obtenerMiembrosProyecto`: one row per membership of the project whose
     * user exists, joined to that user's public columns.
     */
    method MembersOf(projectId: string, users: map<string, UserRow>) returns (rows: seq<MemberView>)
      ensures DistinctMembers(rows)
      ensures MemberIds(rows) == MembersOfProject(members, users, projectId)
      ensures forall x :: x in rows ==> MemberRight(members, users, projectId, x)
    {
      var todo := MembersOfProject(members, users, projectId);
      rows := [];
      while todo != {}
        invariant todo <= MembersOfProject(members, users, projectId)
        invariant DistinctMembers(rows)
        invariant MemberIds(rows) == MembersOfProject(members, users, projectId) - todo
        invariant forall x :: x in rows ==> MemberRight(members, users, projectId, x)
        decreases todo
      {
        var u :| u in todo;
        var m := members[(projectId, u)];
        var r := MemberView(u, users[u].name, users[u].email, m.role, m.joinedAt);
        assert ([r] + rows)[1..] == rows;
        rows := [r] + rows;
        todo := todo - {u};
      }
    }
  }

  /** The assignments `actualizarProyecto` collects, applied in order, give the patched row. */
  lemma ApplyAssignments(row: ProjectRow, name: Option<string>, description: Option<Option<string>>,
                         status: Option<ProjectStatus>, now: nat)
    ensures ApplyAll(row, (if Truthy(name) then [SetName(name.value)] else [])
                          + (if description.Some? then [SetDescription(description.value)] else [])
                          + (if status.Some? then [SetStatus(status.value)] else [])
                          + [TouchUpdatedAt], now)
         == Patched(row, name, description, status, now)
  {
    var a := if Truthy(name) then [SetName(name.value)] else [];
    var b := if description.Some? then [SetDescription(description.value)] else [];
    var c := if status.Some? then [SetStatus(status.value)] else [];
    var r1 := if Truthy(name) then row.(name := name.value) else row;
    var r2 := if description.Some? then r1.(description := description.value) else r1;
    var r3 := if status.Some? then r2.(status := status.value) else r2;
    ApplyAllAppend(row, a, b + c + [TouchUpdatedAt], now);
    ApplyAllAppend(r1, b, c + [TouchUpdatedAt], now);
    ApplyAllAppend(r2, c, [TouchUpdatedAt], now);
    assert a + b + c + [TouchUpdatedAt] == a + (b + (c + [TouchUpdatedAt]));
    assert b + c + [TouchUpdatedAt] == b + (c + [TouchUpdatedAt]);
  }

  lemma {:induction false} ApplyAllAppend(row: ProjectRow, a: seq<Assignment>, b: seq<Assignment>, now: nat)
    ensures ApplyAll(row, a + b, now) == ApplyAll(ApplyAll(row, a, now), b, now)
    decreases |a|
  {
    if a == [] {
      assert a + b == b;
    } else {
      assert (a + b)[0] == a[0];
      assert (a + b)[1..] == a[1..] + b;
      ApplyAllAppend(Apply(row, a[0], now), a[1..], b, now);
    }
  }
}
