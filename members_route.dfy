/** `POST /api/members` (src/app/api/members/route.ts): a group leader adds
    a member. The guards run first; then a user is saved and its id is pushed
    onto the group's roster, which is saved in turn. */
module MembersRoute {
  import opened Common
  import UserModel
  import GroupModel
  import Database

  /** The JSON body; an absent field is `None`. */
  datatype Request = Request(name: Option<string>, email: Option<string>, phone: Option<string>,
                             groupId: Option<string>, role: Option<string>)

  /** The reply body. `Added` has no phone: the user document has no such
      path, so `newMember.phone` is undefined and JSON leaves it out. */
  datatype Body =
    | Failure(error: string)
    | Added(id: Id, name: Option<string>, email: Option<string>)

  datatype Reply = Reply(status: int, body: Body)

  datatype Step = Respond(reply: Reply) | Create(groupId: Id, user: UserModel.User)

  const AddFailed := Reply(500, Failure("Failed to add member"))

  /** The four required fields are non-empty strings; `phone` is optional. */
  predicate FieldsGiven(req: Request) {
    Present(req.name) && Present(req.email) && Present(req.groupId) && Present(req.role)
  }

  /** The guards in the order the handler runs them; `session` is the
      session's user id. The user built for a `Create` is what
      `new User({name, email, phone, group, role})` holds: phone is dropped by
      strict mode and no password is given. */
  function Validate(session: Option<Id>, req: Request, db: Database.DB): (s: Step)
    ensures !Present(session) ==> s == Respond(Reply(401, Failure("Unauthorized")))
    ensures Present(session) && !FieldsGiven(req) ==> s == Respond(Reply(400, Failure("All fields are required")))
    ensures Present(session) && FieldsGiven(req) && req.groupId.value !in db.groups ==>
      s == Respond(Reply(404, Failure("Group not found")))
    ensures Present(session) && FieldsGiven(req) && req.groupId.value in db.groups ==>
      var leader := db.groups[req.groupId.value].leader;
      && (leader.None? ==> s == Respond(AddFailed))
      && (leader.Some? && leader.value != session.value ==>
            s == Respond(Reply(403, Failure("Only the group leader can add members"))))
    ensures s.Respond? ==> s.reply.status in {400, 401, 403, 404, 500}
    ensures s.Create? <==>
      && Present(session) && Present(req.name) && Present(req.email) && Present(req.groupId) && Present(req.role)
      && req.groupId.value in db.groups && db.groups[req.groupId.value].leader == Some(session.value)
    ensures s.Create? ==>
      && s.groupId == req.groupId.value
      && s.user == UserModel.User(req.name, req.email, None, req.role, Some(req.groupId.value))
  {
    if !Present(session) then Respond(Reply(401, Failure("Unauthorized")))
    else if !Present(req.name) || !Present(req.email) || !Present(req.groupId) || !Present(req.role) then
      Respond(Reply(400, Failure("All fields are required")))
    else if req.groupId.value !in db.groups then
      Respond(Reply(404, Failure("Group not found")))
    else
      var group := db.groups[req.groupId.value];
      if group.leader.None? then
        // `group.leader.toString()` throws inside the try block
        Respond(AddFailed)
      else if group.leader.value != session.value then
        Respond(Reply(403, Failure("Only the group leader can add members")))
      else
        Create(req.groupId.value, UserModel.User(req.name, req.email, None, req.role, Some(req.groupId.value)))
  }

  /** The group `g` with `id` pushed onto the end of its roster. */
  function Pushed(g: GroupModel.Group, id: Id): (r: GroupModel.Group)
    ensures r.name == g.name && r.leader == g.leader
    ensures |r.members| == |g.members| + 1 && r.members[..|g.members|] == g.members && r.members[|g.members|] == id
  {
    g.(members := g.members + [id])
  }

  /** The write sequence: save the user `u` under `newId`, push `newId` onto
      the roster of group `gid` and save the group. A failing user save leaves
      everything as it was; a failing group save leaves the user saved. */
  method AddToGroup(store: Database.Store, gid: Id, u: UserModel.User, newId: Id) returns (reply: Reply)
    requires store.Valid() && gid in store.groups
    modifies store
    ensures store.Valid()
    ensures var saved := UserModel.InsertOutcome(old(store.users), newId, u);
            var g := Pushed(old(store.groups)[gid], newId);
            var updated := GroupModel.UpdateOutcome(old(store.groups), gid, g);
            && (!saved.Saved? ==> reply == AddFailed && store.State() == old(store.State()))
            && (saved.Saved? && !updated.Saved? ==>
                  reply == AddFailed && store.State() == old(store.State()).(users := old(store.users)[newId := u]))
            && (saved.Saved? && updated.Saved? ==>
                  && reply == Reply(200, Added(newId, u.name, u.email))
                  && store.State() == old(store.State()).(users := old(store.users)[newId := u],
                                                          groups := old(store.groups)[gid := g]))
  {
    var saved := store.InsertUser(newId, u);
    if !saved.Saved? {
      return AddFailed;
    }
    var group := store.groups[gid];
    var updated := store.UpdateGroup(gid, Pushed(group, newId));
    if !updated.Saved? {
      return AddFailed;
    }
    reply := Reply(200, Added(newId, u.name, u.email));
  }

  /** The handler; `newId` is the `_id` the new user receives. As written it
      never adds anyone: the user it builds has no password, the save throws,
      and the reply is 500 with nothing written. */
  method Post(store: Database.Store, session: Option<Id>, req: Request, newId: Id) returns (reply: Reply)
    requires store.Valid()
    modifies store
    ensures store.Valid()
    ensures Validate(session, req, old(store.State())).Respond? ==> reply == Validate(session, req, old(store.State())).reply
    ensures Validate(session, req, old(store.State())).Create? ==> reply == AddFailed
    ensures store.State() == old(store.State())
  {
    var step := Validate(session, req, store.State());
    match step
    case Respond(r) =>
      reply := r;
    case Create(gid, u) =>
      reply := AddToGroup(store, gid, u, newId);
  }

  /** Every user the handler builds fails the user schema, whatever the
      request holds. */
  lemma CreatedUserRejected(session: Option<Id>, req: Request, db: Database.DB, newId: Id)
    requires Validate(session, req, db).Create?
    ensures !UserModel.SchemaValid(Validate(session, req, db).user)
    ensures UserModel.InsertOutcome(db.users, newId, Validate(session, req, db).user) == ValidationFailed
  {
  }

  /** The phone is not among the required fields: a request without one
      reaches the same step as the same request with one, apart from the
      dropped phone. */
  lemma PhoneOptional(session: Option<Id>, req: Request, db: Database.DB, phone: Option<string>)
    ensures Validate(session, req, db) == Validate(session, req.(phone := phone), db)
  {
  }
}
