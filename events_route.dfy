/** `POST /api/events` (src/app/api/events/route.ts): an authenticated user
    creates an event for an existing group. No leader check is made. */
module EventsRoute {
  import opened Common
  import EventModel
  import Database

  /** The JSON body; an absent field is `None`. */
  datatype Request = Request(title: Option<string>, date: Option<string>, description: Option<string>,
                             groupId: Option<string>)

  datatype Body =
    | Failure(error: string)
    | Created(id: Id, title: Option<string>, date: string, description: Option<string>,
              groupId: Id, createdBy: Id)

  datatype Reply = Reply(status: int, body: Body)

  datatype Step = Respond(reply: Reply) | Create(event: EventModel.Event)

  const CreateFailed := Reply(500, Failure("Failed to create event"))

  /** The three required fields are non-empty strings; `description` is
      optional. */
  predicate FieldsGiven(req: Request) {
    Present(req.title) && Present(req.date) && Present(req.groupId)
  }

  /** The guards in the order the handler runs them. `session` is the
      session's user id and `parse` stands for `new Date(...)`, `None` being
      an invalid date; the date is not checked here, only by the schema. */
  function Validate(session: Option<Id>, req: Request, db: Database.DB, parse: string -> Option<Instant>): (s: Step)
    ensures !Present(session) ==> s == Respond(Reply(401, Failure("Unauthorized")))
    ensures Present(session) && !FieldsGiven(req) ==>
      s == Respond(Reply(400, Failure("Title, date and group ID are required")))
    ensures Present(session) && FieldsGiven(req) && req.groupId.value !in db.groups ==>
      s == Respond(Reply(404, Failure("Group not found")))
    ensures s.Respond? ==> s.reply.status in {400, 401, 404}
    ensures s.Create? <==>
      && Present(session) && Present(req.title) && Present(req.date) && Present(req.groupId)
      && req.groupId.value in db.groups
    ensures s.Create? ==>
      && s.event.group == req.groupId && s.event.createdBy == session
      && s.event.date == parse(req.date.value) && s.event.attendees == []
      && s.event.title == EventModel.Trimmed(req.title)
      && s.event.description == EventModel.Trimmed(req.description)
  {
    if !Present(session) then Respond(Reply(401, Failure("Unauthorized")))
    else if !Present(req.title) || !Present(req.date) || !Present(req.groupId) then
      Respond(Reply(400, Failure("Title, date and group ID are required")))
    else if req.groupId.value !in db.groups then
      Respond(Reply(404, Failure("Group not found")))
    else
      Create(EventModel.NewEvent(req.title, parse(req.date.value), req.description, req.groupId, session))
  }

  /** The reply once `newEvent.save()` has run: the saved event echoed with
      its date in ISO form, or 500 when the save threw or a path the reply
      reads is missing. */
  function AfterSave(outcome: SaveResult, id: Id, e: EventModel.Event, iso: Instant -> string): (r: Reply)
    ensures r.status == 200 <==> outcome.Saved? && e.date.Some? && e.group.Some? && e.createdBy.Some?
    ensures r.status == 200 ==> r.body == Created(id, e.title, iso(e.date.value), e.description,
                                                 e.group.value, e.createdBy.value)
    ensures r.status != 200 ==> r == CreateFailed
  {
    if !outcome.Saved? then CreateFailed
    else
      match (e.date, e.group, e.createdBy)
      case (Some(d), Some(g), Some(c)) => Reply(200, Created(id, e.title, iso(d), e.description, g, c))
      case _ => CreateFailed
  }

  /** The handler; `newId` is the `_id` the new event receives. */
  method Post(store: Database.Store, session: Option<Id>, req: Request, parse: string -> Option<Instant>,
              iso: Instant -> string, newId: Id) returns (reply: Reply)
    requires store.Valid()
    modifies store
    ensures store.Valid()
    ensures match Validate(session, req, old(store.State()), parse)
      case Respond(r) => reply == r && store.State() == old(store.State())
      case Create(e) =>
        var outcome := EventModel.InsertOutcome(old(store.events), newId, e, old(store.groups), old(store.users));
        && reply == AfterSave(outcome, newId, e, iso)
        && store.State() == if outcome.Saved? then old(store.State()).(events := old(store.events)[newId := e])
                            else old(store.State())
  {
    var step := Validate(session, req, store.State(), parse);
    match step
    case Respond(r) =>
      reply := r;
    case Create(e) =>
      var outcome := store.InsertEvent(newId, e);
      reply := AfterSave(outcome, newId, e, iso);
  }

  /** No leader check: who leads the group changes neither the guards'
      decision nor the outcome of the save, so any authenticated caller can
      create an event for any existing group. */
  lemma LeaderIrrelevant(session: Option<Id>, req: Request, db: Database.DB, parse: string -> Option<Instant>,
                         newId: Id, gid: Id, leader: Option<Id>)
    requires gid in db.groups
    ensures var db2 := db.(groups := db.groups[gid := db.groups[gid].(leader := leader)]);
            var s := Validate(session, req, db, parse);
            && Validate(session, req, db2, parse) == s
            && (s.Create? ==> EventModel.InsertOutcome(db2.events, newId, s.event, db2.groups, db2.users)
                              == EventModel.InsertOutcome(db.events, newId, s.event, db.groups, db.users))
  {
    var db2 := db.(groups := db.groups[gid := db.groups[gid].(leader := leader)]);
    assert db2.groups.Keys == db.groups.Keys;
  }

  /** The date string is checked only by the schema: an unparseable date
      passes the guards, and the save then fails, so the reply is 500. */
  lemma InvalidDateFailsAtSave(session: Option<Id>, req: Request, db: Database.DB,
                               parse: string -> Option<Instant>, newId: Id, iso: Instant -> string)
    requires Present(session) && Present(req.title) && Present(req.date) && Present(req.groupId)
    requires req.groupId.value in db.groups
    requires parse(req.date.value).None?
    ensures var e := Validate(session, req, db, parse).event;
            AfterSave(EventModel.InsertOutcome(db.events, newId, e, db.groups, db.users), newId, e, iso) == CreateFailed
  {
  }
}
