/**
 * The project handlers. Each is a chain of store lookups with an early
 * return per failed check, then at most one write. `requester` is the id
 * the bearer gate attached (`req.user?.id`); the user table is only read.
 *
 * The handlers keep an invariant the tables alone do not: every project's
 * owner has a membership row with role 'owner', and no one else holds that
 * role (`Governed`).
 */
module ProjectController {
  import opened Wrappers
  import opened UserModel
  import opened ProjectModel

  datatype Reply =
    | Created(message: string, newProject: NewProject)
    | Projects(listing: seq<Listed>)
    | Detail(id: string, project: ProjectRow, members: seq<MemberView>)
    | Done(message: string)
    | Refused(status: nat, message: string)
    | Failed(message: string)

  /** The HTTP status of a reply. */
  function Status(r: Reply): (code: nat)
    ensures r.Refused? ==> code == r.status
    ensures r.Failed? ==> code == 500
  {
    match r
    case Created(_, _) => 201
    case Projects(_) => 200
    case Detail(_, _, _) => 200
    case Done(_) => 200
    case Refused(status, _) => status
    case Failed(_) => 500
  }

  const MsgUnauthorized := "No autorizado"
  const MsgNameRequired := "El nombre del proyecto es obligatorio"
  const MsgCreated := "Proyecto creado exitosamente"
  const MsgCreateFailed := "Error al crear el proyecto"
  const MsgNotFound := "Proyecto no encontrado"
  const MsgCannotView := "No tienes permiso para ver este proyecto"
  const MsgOnlyOwnerEdits := "Solo el creador puede editar el proyecto"
  const MsgUpdated := "Proyecto actualizado correctamente"
  const MsgOnlyOwnerFinishes := "Solo el creador puede finalizar el proyecto"
  const MsgFinished := "Proyecto finalizado correctamente"
  const MsgOnlyOwnerDeletes := "Solo el creador puede eliminar el proyecto"
  const MsgDeleted := "Proyecto eliminado correctamente"
  const MsgUserIdRequired := "ID de usuario requerido"
  const MsgOnlyOwnerAdds := "Solo el creador puede agregar miembros"
  const MsgUnknownUser := "El usuario a agregar no existe"
  const MsgMemberAdded := "Miembro agregado correctamente"
  const MsgAddMemberFailed := "Error al agregar miembro"
  const MsgOnlyOwnerRemoves := "Solo el creador puede eliminar miembros"
  const MsgCannotRemoveOwner := "No se puede eliminar al creador del proyecto"
  const MsgMemberRemoved := "Miembro eliminado correctamente"

  // ---------------------------------------------------------------------------
  // The ownership invariant

  /** Every project's owner is a member of it with role 'owner'. */
  ghost predicate OwnersAreMembers(projects: map<string, ProjectRow>, members: map<(string, string), Membership>) {
    forall p :: p in projects ==> (p, projects[p].ownerId) in members
                                  && members[(p, projects[p].ownerId)].role == OwnerRole
  }

  /** Only a project's owner holds the role 'owner' in it. */
  ghost predicate OnlyOwnersOwn(projects: map<string, ProjectRow>, members: map<(string, string), Membership>) {
    forall k :: k in members && members[k].role == OwnerRole ==> k.0 in projects && projects[k.0].ownerId == k.1
  }

  ghost predicate Governed(ps: ProjectStore)
    reads ps
  {
    ps.Valid() && OwnersAreMembers(ps.projects, ps.members) && OnlyOwnersOwn(ps.projects, ps.members)
  }

  /** The caller is the project's owner (`proyecto.owner_id === userId`). */
  predicate IsOwner(projects: map<string, ProjectRow>, id: string, requester: Option<string>)
    requires id in projects
  {
    requester == Some(projects[id].ownerId)
  }

  /** The caller has a membership row in the project. */
  predicate CanView(members: map<(string, string), Membership>, id: string, requester: Option<string>) {
    requester.Some? && (id, requester.value) in members
  }

  /** Under the invariant, the owner of a project can always view it. */
  lemma OwnerCanView(ps: ProjectStore, id: string)
    requires Governed(ps) && id in ps.projects
    ensures CanView(ps.members, id, Some(ps.projects[id].ownerId))
  {
  }

  // ---------------------------------------------------------------------------
  // Initial members of a new project

  /**
   * The membership rows `crear` writes for a new project: the owner with role
   * 'owner', and every listed id that has a user row, with role 'member'.
   */
  function InitialMembers(projectId: string, ownerId: string, ids: seq<string>, users: map<string, UserRow>,
                          now: nat): (r: map<(string, string), Membership>)
    ensures forall k :: k in r ==> k.0 == projectId
                                   && r[k] == Membership(if k.1 == ownerId then OwnerRole else DefaultRole, now)
    ensures forall u :: (projectId, u) in r <==> u == ownerId || (u in ids && u in users)
    decreases |ids|
  {
    if ids == [] then map[(projectId, ownerId) := Membership(OwnerRole, now)]
    else
      var earlier := InitialMembers(projectId, ownerId, ids[..|ids| - 1], users, now);
      var u := ids[|ids| - 1];
      assert forall v :: v in ids <==> v in ids[..|ids| - 1] || v == u by {
        assert ids == ids[..|ids| - 1] + [u];
      }
      if u in users && (projectId, u) !in earlier then earlier[(projectId, u) := Membership(DefaultRole, now)]
      else earlier
  }

  /** One iteration of the member loop: an add for an existing non-owner id, nothing otherwise. */
  lemma InitialMembersStep(projects: map<string, ProjectRow>, base: map<(string, string), Membership>,
                           projectId: string, ownerId: string, ids: seq<string>, i: nat,
                           users: map<string, UserRow>, now: nat)
    requires i < |ids| && projectId in projects
    requires forall k :: k in base ==> k.0 != projectId
    ensures var before := base + InitialMembers(projectId, ownerId, ids[..i], users, now);
            var after := base + InitialMembers(projectId, ownerId, ids[..i + 1], users, now);
            after == if ids[i] in users && ids[i] != ownerId
                     then WithMember(projects, before, projectId, ids[i], DefaultRole, now)
                     else before
  {
    assert ids[..i + 1][..i] == ids[..i];
  }

  // ---------------------------------------------------------------------------
  // Handlers

  /**
   * `crear`: 401 without an authenticated id, 400 without a name; otherwise
   * the project is created with its owner as member, and each listed id that
   * names an existing user other than the creator is added as 'member'.
   */
  method Create(ps: ProjectStore, us: UserStore, requester: Option<string>, name: Option<string>,
                description: Option<string>, memberIds: Option<seq<string>>, newId: string, now: nat)
    returns (reply: Reply)
    requires Governed(ps)
    modifies ps
    ensures Governed(ps)
    ensures !Truthy(requester) ==> reply == Refused(401, MsgUnauthorized)
    ensures Truthy(requester) && !Truthy(name) ==> reply == Refused(400, MsgNameRequired)
    ensures Truthy(requester) && Truthy(name) && newId in old(ps.projects) ==> reply == Failed(MsgCreateFailed)
    ensures !reply.Created? ==> ps.projects == old(ps.projects) && ps.members == old(ps.members)
    ensures Truthy(requester) && Truthy(name) && newId !in old(ps.projects) ==>
              reply == Created(MsgCreated, NewProject(newId, name.value, description, requester.value, Active))
              && ps.projects == old(ps.projects)[newId := ProjectRow(name.value, description, requester.value, Active, now, now)]
              && ps.members == old(ps.members) + InitialMembers(newId, requester.value,
                                                                 if memberIds.Some? then memberIds.value else [],
                                                                 us.users, now)
  {
    if !Truthy(requester) {
      return Refused(401, MsgUnauthorized);
    }
    if !Truthy(name) {
      return Refused(400, MsgNameRequired);
    }
    var owner := requester.value;
    ghost var base := ps.members;
    ghost var projects := ps.projects;
    var created := ps.CreateProject(newId, name.value, description, owner, now);
    if created.None? {
      return Failed(MsgCreateFailed);
    }
    var ids := if memberIds.Some? then memberIds.value else [];
    AddInitialMembers(ps, us, newId, owner, ids, now, base);
    NewProjectGoverned(projects, base, newId, ps.projects[newId], ids, us.users, now);
    reply := Created(MsgCreated, created.value);
  }

  /** The member loop of `crear`: each listed id that names an existing user other than the owner is added. */
  method AddInitialMembers(ps: ProjectStore, us: UserStore, projectId: string, ownerId: string,
                           ids: seq<string>, now: nat, ghost base: map<(string, string), Membership>)
    requires ps.Valid() && projectId in ps.projects
    requires forall k :: k in base ==> k.0 != projectId
    requires ps.members == base + InitialMembers(projectId, ownerId, [], us.users, now)
    modifies ps
    ensures ps.Valid() && ps.projects == old(ps.projects)
    ensures ps.members == base + InitialMembers(projectId, ownerId, ids, us.users, now)
  {
    assert ids[..0] == [];
    for i := 0 to |ids|
      invariant ps.Valid() && ps.projects == old(ps.projects)
      invariant ps.members == base + InitialMembers(projectId, ownerId, ids[..i], us.users, now)
    {
      InitialMembersStep(ps.projects, base, projectId, ownerId, ids, i, us.users, now);
      var found := us.FindUserById(ids[i]);
      if found.Some? && ids[i] != ownerId {
        var ok := ps.AddMember(projectId, ids[i], DefaultRole, now);
      }
    }
    assert ids[..|ids|] == ids;
  }

  /** A new project with its initial members keeps the ownership invariant. */
  lemma NewProjectGoverned(projects: map<string, ProjectRow>, members: map<(string, string), Membership>,
                           id: string, row: ProjectRow, ids: seq<string>, users: map<string, UserRow>, now: nat)
    requires MembershipsOwned(projects, members)
    requires OwnersAreMembers(projects, members) && OnlyOwnersOwn(projects, members)
    requires id !in projects
    ensures var m := members + InitialMembers(id, row.ownerId, ids, users, now);
            OwnersAreMembers(projects[id := row], m) && OnlyOwnersOwn(projects[id := row], m)
  {
    var m := members + InitialMembers(id, row.ownerId, ids, users, now);
    assert (id, row.ownerId) in m && m[(id, row.ownerId)].role == OwnerRole;
  }

  /**
   * `crear` as written: the user lookup its member loop calls is not exported
   * by the user model, so the first listed id throws inside the `try`. The
   * project and its owner row are already written, yet the reply is 500.
   */
  method CreateAsWritten(ps: ProjectStore, requester: Option<string>, name: Option<string>,
                         description: Option<string>, memberIds: Option<seq<string>>, newId: string, now: nat)
    returns (reply: Reply)
    requires Governed(ps)
    modifies ps
    ensures Governed(ps)
    ensures !Truthy(requester) ==> reply == Refused(401, MsgUnauthorized)
    ensures Truthy(requester) && !Truthy(name) ==> reply == Refused(400, MsgNameRequired)
    ensures Truthy(requester) && Truthy(name) && newId in old(ps.projects) ==> reply == Failed(MsgCreateFailed)
    ensures reply.Refused? || newId in old(ps.projects) ==> ps.projects == old(ps.projects) && ps.members == old(ps.members)
    ensures Truthy(requester) && Truthy(name) && newId !in old(ps.projects) ==>
              ps.projects == old(ps.projects)[newId := ProjectRow(name.value, description, requester.value, Active, now, now)]
              && ps.members == old(ps.members)[(newId, requester.value) := Membership(OwnerRole, now)]
              && reply == if memberIds.Some? && memberIds.value != [] then Failed(MsgCreateFailed)
                          else Created(MsgCreated, NewProject(newId, name.value, description, requester.value, Active))
  {
    if !Truthy(requester) {
      return Refused(401, MsgUnauthorized);
    }
    if !Truthy(name) {
      return Refused(400, MsgNameRequired);
    }
    var owner := requester.value;
    ghost var base := ps.members;
    ghost var projects := ps.projects;
    var created := ps.CreateProject(newId, name.value, description, owner, now);
    if created.None? {
      return Failed(MsgCreateFailed);
    }
    assert ps.members == base + InitialMembers(newId, owner, [], map[], now);
    NewProjectGoverned(projects, base, newId, ps.projects[newId], [], map[], now);
    if memberIds.Some? && memberIds.value != [] {
      return Failed(MsgCreateFailed);
    }
    reply := Created(MsgCreated, created.value);
  }

  /** `listar`: 401 without an authenticated id, else the caller's projects, newest first. */
  method List(ps: ProjectStore, requester: Option<string>) returns (reply: Reply)
    ensures !Truthy(requester) <==> reply == Refused(401, MsgUnauthorized)
    ensures Truthy(requester) ==> reply.Projects?
                                  && NewestFirst(reply.listing) && DistinctListed(reply.listing)
                                  && ListedIds(reply.listing) == ProjectsOf(ps.projects, ps.members, requester.value)
                                  && forall x :: x in reply.listing ==> ListedRight(ps.projects, ps.members, requester.value, x)
  {
    if !Truthy(requester) {
      return Refused(401, MsgUnauthorized);
    }
    var listing := ps.ProjectsOfUser(requester.value);
    reply := Projects(listing);
  }

  /**
   * `obtenerUno`: 404 for a missing project, 403 unless the caller has a
   * membership row in it, else the project with its member list.
   */
  method GetOne(ps: ProjectStore, us: UserStore, requester: Option<string>, id: string) returns (reply: Reply)
    ensures id !in ps.projects <==> reply == Refused(404, MsgNotFound)
    ensures id in ps.projects && !CanView(ps.members, id, requester) ==> reply == Refused(403, MsgCannotView)
    ensures id in ps.projects && CanView(ps.members, id, requester) ==>
              reply.Detail? && reply.id == id && reply.project == ps.projects[id]
              && DistinctMembers(reply.members)
              && MemberIds(reply.members) == MembersOfProject(ps.members, us.users, id)
              && forall x :: x in reply.members ==> MemberRight(ps.members, us.users, id, x)
  {
    var found := ps.ProjectById(id);
    if found.None? {
      return Refused(404, MsgNotFound);
    }
    var listing: seq<Listed> := [];
    if requester.Some? {
      listing := ps.ProjectsOfUser(requester.value);
    }
    var hasAccess := exists i :: 0 <= i < |listing| && listing[i].id == id;
    assert hasAccess <==> id in ListedIds(listing) by {
      ListedIdsIndex(listing, id);
    }
    if !hasAccess {
      return Refused(403, MsgCannotView);
    }
    var members := ps.MembersOf(id, us.users);
    reply := Detail(id, found.value, members);
  }

  /** An id is in a listing exactly when some row carries it. */
  lemma {:induction false} ListedIdsIndex(s: seq<Listed>, id: string)
    ensures id in ListedIds(s) <==> exists i :: 0 <= i < |s| && s[i].id == id
    decreases |s|
  {
    if s != [] {
      ListedIdsIndex(s[1..], id);
      if id in ListedIds(s[1..]) {
        var i :| 0 <= i < |s[1..]| && s[1..][i].id == id;
        assert s[i + 1].id == id;
      }
      if exists i :: 0 <= i < |s| && s[i].id == id {
        var i :| 0 <= i < |s| && s[i].id == id;
        if i > 0 {
          assert s[1..][i - 1].id == id;
        }
      }
    }
  }

  /**
   * `actualizar`: 404 for a missing project, then 403 for anyone but the
   * owner; the owner's name and description are written field by field.
   */
  method Update(ps: ProjectStore, requester: Option<string>, id: string, name: Option<string>,
                description: Option<Option<string>>, now: nat) returns (reply: Reply)
    requires Governed(ps)
    modifies ps
    ensures Governed(ps) && ps.members == old(ps.members)
    ensures id !in old(ps.projects) ==> reply == Refused(404, MsgNotFound)
    ensures id in old(ps.projects) && !IsOwner(old(ps.projects), id, requester) ==> reply == Refused(403, MsgOnlyOwnerEdits)
    ensures reply.Refused? ==> ps.projects == old(ps.projects)
    ensures id in old(ps.projects) && IsOwner(old(ps.projects), id, requester) ==>
              reply == Done(MsgUpdated)
              && ps.projects == if WritesSomething(name, description, None)
                                then old(ps.projects)[id := Patched(old(ps.projects)[id], name, description, None, now)]
                                else old(ps.projects)
  {
    var found := ps.ProjectById(id);
    if found.None? {
      return Refused(404, MsgNotFound);
    }
    if requester != Some(found.value.ownerId) {
      return Refused(403, MsgOnlyOwnerEdits);
    }
    ps.UpdateProject(id, name, description, None, now);
    reply := Done(MsgUpdated);
  }

  /** `finalizar`: the same checks as `actualizar`, then the status becomes 'finished'. */
  method Finish(ps: ProjectStore, requester: Option<string>, id: string, now: nat) returns (reply: Reply)
    requires Governed(ps)
    modifies ps
    ensures Governed(ps) && ps.members == old(ps.members)
    ensures id !in old(ps.projects) ==> reply == Refused(404, MsgNotFound)
    ensures id in old(ps.projects) && !IsOwner(old(ps.projects), id, requester) ==> reply == Refused(403, MsgOnlyOwnerFinishes)
    ensures reply.Refused? ==> ps.projects == old(ps.projects)
    ensures id in old(ps.projects) && IsOwner(old(ps.projects), id, requester) ==>
              reply == Done(MsgFinished)
              && ps.projects == old(ps.projects)[id := old(ps.projects)[id].(status := Finished, updatedAt := now)]
  {
    var found := ps.ProjectById(id);
    if found.None? {
      return Refused(404, MsgNotFound);
    }
    if requester != Some(found.value.ownerId) {
      return Refused(403, MsgOnlyOwnerFinishes);
    }
    ps.UpdateProject(id, None, None, Some(Finished), now);
    reply := Done(MsgFinished);
  }

  /** `eliminar`: the same checks, then the project and its memberships are deleted. */
  method Delete(ps: ProjectStore, requester: Option<string>, id: string) returns (reply: Reply)
    requires Governed(ps)
    modifies ps
    ensures Governed(ps)
    ensures id !in old(ps.projects) ==> reply == Refused(404, MsgNotFound)
    ensures id in old(ps.projects) && !IsOwner(old(ps.projects), id, requester) ==> reply == Refused(403, MsgOnlyOwnerDeletes)
    ensures reply.Refused? ==> ps.projects == old(ps.projects) && ps.members == old(ps.members)
    ensures id in old(ps.projects) && IsOwner(old(ps.projects), id, requester) ==>
              reply == Done(MsgDeleted)
              && ps.projects == old(ps.projects) - {id}
              && ps.members == WithoutProject(old(ps.members), id)
  {
    var found := ps.ProjectById(id);
    if found.None? {
      return Refused(404, MsgNotFound);
    }
    if requester != Some(found.value.ownerId) {
      return Refused(403, MsgOnlyOwnerDeletes);
    }
    ps.DeleteProject(id);
    reply := Done(MsgDeleted);
  }

  /**
   * `agregarMiembroController`: 400 without a user id, 404 for a missing
   * project, 403 for anyone but the owner, 404 for an unknown user, then
   * the idempotent add with role 'member'.
   */
  method AddMember(ps: ProjectStore, us: UserStore, requester: Option<string>, id: string,
                   target: Option<string>, now: nat) returns (reply: Reply)
    requires Governed(ps)
    modifies ps
    ensures Governed(ps) && ps.projects == old(ps.projects)
    ensures !Truthy(target) ==> reply == Refused(400, MsgUserIdRequired)
    ensures Truthy(target) && id !in ps.projects ==> reply == Refused(404, MsgNotFound)
    ensures Truthy(target) && id in ps.projects && !IsOwner(ps.projects, id, requester)
            ==> reply == Refused(403, MsgOnlyOwnerAdds)
    ensures Truthy(target) && id in ps.projects && IsOwner(ps.projects, id, requester) && target.value !in us.users
            ==> reply == Refused(404, MsgUnknownUser)
    ensures reply.Refused? ==> ps.members == old(ps.members)
    ensures Truthy(target) && id in ps.projects && IsOwner(ps.projects, id, requester) && target.value in us.users
            ==> reply == Done(MsgMemberAdded)
                && ps.members == WithMember(ps.projects, old(ps.members), id, target.value, DefaultRole, now)
  {
    if !Truthy(target) {
      return Refused(400, MsgUserIdRequired);
    }
    var found := ps.ProjectById(id);
    if found.None? {
      return Refused(404, MsgNotFound);
    }
    if requester != Some(found.value.ownerId) {
      return Refused(403, MsgOnlyOwnerAdds);
    }
    var user := us.FindUserById(target.value);
    if user.None? {
      return Refused(404, MsgUnknownUser);
    }
    var ok := ps.AddMember(id, target.value, DefaultRole, now);
    reply := Done(MsgMemberAdded);
  }

  /**
   * `agregarMiembroController` as written: past the three guards it calls a
   * user lookup the user model does not export, which throws inside the
   * `try`, so no member is ever added and the owner is answered 500.
   */
  method AddMemberAsWritten(ps: ProjectStore, requester: Option<string>, id: string, target: Option<string>)
    returns (reply: Reply)
    ensures !reply.Done?
    ensures !Truthy(target) ==> reply == Refused(400, MsgUserIdRequired)
    ensures Truthy(target) && id !in ps.projects ==> reply == Refused(404, MsgNotFound)
    ensures Truthy(target) && id in ps.projects && !IsOwner(ps.projects, id, requester)
            ==> reply == Refused(403, MsgOnlyOwnerAdds)
    ensures Truthy(target) && id in ps.projects && IsOwner(ps.projects, id, requester)
            ==> reply == Failed(MsgAddMemberFailed)
  {
    if !Truthy(target) {
      return Refused(400, MsgUserIdRequired);
    }
    var found := ps.ProjectById(id);
    if found.None? {
      return Refused(404, MsgNotFound);
    }
    if requester != Some(found.value.ownerId) {
      return Refused(403, MsgOnlyOwnerAdds);
    }
    reply := Failed(MsgAddMemberFailed);
  }

  /**
   * `eliminarMiembroController`: 404 for a missing project, 403 for anyone
   * but the owner, 400 when the target is the owner, then the removal.
   */
  method RemoveMember(ps: ProjectStore, requester: Option<string>, id: string, target: string) returns (reply: Reply)
    requires Governed(ps)
    modifies ps
    ensures Governed(ps) && ps.projects == old(ps.projects)
    ensures id !in ps.projects ==> reply == Refused(404, MsgNotFound)
    ensures id in ps.projects && !IsOwner(ps.projects, id, requester) ==> reply == Refused(403, MsgOnlyOwnerRemoves)
    ensures id in ps.projects && IsOwner(ps.projects, id, requester) && target == ps.projects[id].ownerId
            ==> reply == Refused(400, MsgCannotRemoveOwner)
    ensures reply.Refused? ==> ps.members == old(ps.members)
    ensures id in ps.projects && IsOwner(ps.projects, id, requester) && target != ps.projects[id].ownerId
            ==> reply == Done(MsgMemberRemoved) && ps.members == old(ps.members) - {(id, target)}
  {
    var found := ps.ProjectById(id);
    if found.None? {
      return Refused(404, MsgNotFound);
    }
    if requester != Some(found.value.ownerId) {
      return Refused(403, MsgOnlyOwnerRemoves);
    }
    if found.value.ownerId == target {
      return Refused(400, MsgCannotRemoveOwner);
    }
    ps.RemoveMember(id, target);
    reply := Done(MsgMemberRemoved);
  }
}
