/** `POST /api/attendance` (src/app/api/attendance/route.ts): a group leader
    records who was present on a date. The handler is a fixed sequence of
    guards, the first failure deciding the reply, followed by one insert into
    the attendance collection. */
module AttendanceRoute {
  import opened Common
  import GroupModel
  import AttendanceModel
  import Database

  /** The JSON body. A string field that is absent is `None`; `presentIds` is
      `None` when it is absent or not an array. */
  datatype Request = Request(date: Option<string>, groupId: Option<string>, presentIds: Option<seq<Id>>)

  /** The JSON the handler replies with. `Recorded` has no counts: the
      document it reads them from never holds them (see `ToDocument`). */
  datatype Body =
    | Failure(error: string)
    | Recorded(message: string, id: Id, date: string, group: Option<string>)

  datatype Reply = Reply(status: int, body: Body)

  /** The object literal the handler gives to `new Attendance(...)`. */
  datatype RecordFields = RecordFields(
    date: Instant,
    group: Id,
    presentCount: int,
    absentCount: int,
    presentMembers: seq<Id>,
    recordedBy: Id)

  /** What the guards decide: a reply without any write, or the record to save
      together with the group's name for the reply. */
  datatype Step = Respond(reply: Reply) | Save(fields: RecordFields, groupName: Option<string>)

  const InternalError := Reply(500, Failure("Internal server error"))

  /** `presentIds.filter(id => !groupMemberIds.has(id))`. */
  function InvalidMembers(ids: seq<Id>, roster: seq<Id>): (r: seq<Id>)
    ensures forall x :: multiset(r)[x] == if x in roster then 0 else multiset(ids)[x]
    ensures r == [] <==> forall x :: x in ids ==> x in roster
  {
    if ids == [] then []
    else
      var rest := InvalidMembers(ids[1..], roster);
      assert ids == [ids[0]] + ids[1..];
      if ids[0] in roster then rest else [ids[0]] + rest
  }

  /** The filter keeps request order: it distributes over concatenation. */
  lemma {:induction false} InvalidMembersAppend(a: seq<Id>, b: seq<Id>, roster: seq<Id>)
    ensures InvalidMembers(a + b, roster) == InvalidMembers(a, roster) + InvalidMembers(b, roster)
  {
    if a == [] {
      assert a + b == b;
    } else {
      assert (a + b)[0] == a[0] && (a + b)[1..] == a[1..] + b;
      InvalidMembersAppend(a[1..], b, roster);
    }
  }

  /** `Attendance.findOne({date, group})` finds something: a record of the
      group whose date is the very same instant. */
  predicate Duplicate(attendance: map<Id, AttendanceModel.Attendance>, groupId: Id, date: Instant) {
    exists id | id in attendance :: attendance[id].group == Some(groupId) && attendance[id].date == Some(date)
  }

  /** The body's fields are given: both strings non-empty and a non-empty
      array of present ids. */
  predicate FieldsGiven(req: Request) {
    Present(req.date) && Present(req.groupId) && req.presentIds.Some? && req.presentIds.value != []
  }

  /** The request passes the checks made before the store is read. */
  predicate Admitted(session: Option<Id>, req: Request, parse: string -> Option<Instant>) {
    Present(session) && FieldsGiven(req) && parse(req.date.value).Some?
  }

  /** The request is admitted and the caller leads the group it names. */
  predicate Leads(session: Option<Id>, req: Request, db: Database.DB, parse: string -> Option<Instant>) {
    && Admitted(session, req, parse)
    && req.groupId.value in db.groups
    && db.groups[req.groupId.value].leader == Some(session.value)
  }

  /** The guards in the order the handler runs them, the first failing one
      deciding the reply. `session` is the session's user id, `parse` stands
      for `new Date(...)` (`None` for an invalid date). */
  function Validate(session: Option<Id>, req: Request, db: Database.DB,
                    parse: string -> Option<Instant>): (s: Step)
    ensures !Present(session) ==> s == Respond(Reply(401, Failure("Unauthorized")))
    ensures Present(session) && !FieldsGiven(req) ==>
      s == Respond(Reply(400, Failure("Date, group ID, and present IDs are required")))
    ensures Present(session) && FieldsGiven(req) && parse(req.date.value).None? ==>
      s == Respond(Reply(400, Failure("Invalid date format. Use YYYY-MM-DD format.")))
    ensures Admitted(session, req, parse) && req.groupId.value !in db.groups ==>
      s == Respond(Reply(404, Failure("Group not found")))
    ensures Admitted(session, req, parse) && req.groupId.value in db.groups ==>
      var leader := db.groups[req.groupId.value].leader;
      && (leader.None? ==> s == Respond(InternalError))
      && (leader.Some? && leader.value != session.value ==>
            s == Respond(Reply(403, Failure("Only group leaders can record attendance"))))
    ensures Leads(session, req, db, parse) ==>
      var invalid := InvalidMembers(req.presentIds.value, db.groups[req.groupId.value].members);
      && (invalid != [] ==> s == Respond(Reply(400, Failure("Invalid members: " + Join(invalid, ", ")))))
      && (invalid == [] ==>
            (s == Respond(Reply(400, Failure("Attendance already recorded for this date")))
             <==> Duplicate(db.attendance, req.groupId.value, parse(req.date.value).value)))
    ensures s.Respond? ==> s.reply.status in {400, 401, 403, 404, 500}
    ensures s.Save? <==>
      && Leads(session, req, db, parse)
      && InvalidMembers(req.presentIds.value, db.groups[req.groupId.value].members) == []
      && !Duplicate(db.attendance, req.groupId.value, parse(req.date.value).value)
    ensures s.Save? ==>
      && Present(session) && Present(req.date) && req.groupId.Some? && req.presentIds.Some?
      && var ids, gid := req.presentIds.value, req.groupId.value;
      && ids != []
      && gid in db.groups
      && db.groups[gid].leader == Some(session.value)
      && (forall m :: m in ids ==> m in db.groups[gid].members)
      && parse(req.date.value).Some?
      && !Duplicate(db.attendance, gid, parse(req.date.value).value)
      && s.fields == RecordFields(parse(req.date.value).value, gid, |ids|,
                                  |db.groups[gid].members| - |ids|, ids, session.value)
      && s.groupName == db.groups[gid].name
  {
    if !Present(session) then Respond(Reply(401, Failure("Unauthorized")))
    else if !Present(req.date) || !Present(req.groupId) || req.presentIds.None? || |req.presentIds.value| == 0 then
      Respond(Reply(400, Failure("Date, group ID, and present IDs are required")))
    else if parse(req.date.value).None? then
      Respond(Reply(400, Failure("Invalid date format. Use YYYY-MM-DD format.")))
    else if req.groupId.value !in db.groups then
      Respond(Reply(404, Failure("Group not found")))
    else
      var caller, gid, ids, t := session.value, req.groupId.value, req.presentIds.value, parse(req.date.value).value;
      var group := db.groups[gid];
      if group.leader.None? then
        // `group.leader.toString()` throws on a group without a leader
        Respond(InternalError)
      else if group.leader.value != caller then
        Respond(Reply(403, Failure("Only group leaders can record attendance")))
      else
        var invalid := InvalidMembers(ids, group.members);
        if invalid != [] then
          Respond(Reply(400, Failure("Invalid members: " + Join(invalid, ", "))))
        else if Duplicate(db.attendance, gid, t) then
          Respond(Reply(400, Failure("Attendance already recorded for this date")))
        else
          Save(RecordFields(t, gid, |ids|, |group.members| - |ids|, ids, caller), group.name)
  }

  /** The document `new Attendance(fields)` builds: `event` and `notes` are
      not given, `absentMembers` is left at its empty default, and the two
      counts are not schema paths, so strict mode drops them. */
  function ToDocument(f: RecordFields, now: Instant): (a: AttendanceModel.Attendance)
    ensures a.group == Some(f.group) && a.date == Some(f.date)
    ensures a.presentMembers == f.presentMembers && a.recordedBy == Some(f.recordedBy)
    ensures a.event.None? && a.absentMembers == []
  {
    AttendanceModel.NewAttendance(None, Some(f.group), Some(f.date), f.presentMembers, [], Some(f.recordedBy), None, now)
  }

  /** The reply once `attendance.save()` has run: 201 with the date cut at the
      first 'T' of its ISO form, or 500 when the save threw. */
  function AfterSave(outcome: SaveResult, id: Id, date: Instant, groupName: Option<string>,
                     iso: Instant -> string): (r: Reply)
    ensures r.status == 201 <==> outcome.Saved?
    ensures r.status == 201 ==>
      r.body == Recorded("Attendance recorded successfully", id, BeforeFirst(iso(date), 'T'), groupName)
    ensures r.status != 201 ==> r == InternalError
  {
    if outcome.Saved? then
      Reply(201, Recorded("Attendance recorded successfully", id, BeforeFirst(iso(date), 'T'), groupName))
    else InternalError
  }

  /** The handler. `newId` is the `_id` the new document receives, `now` the
      clock reading its date default would take and `iso` stands for
      `toISOString`. */
  method Post(store: Database.Store, session: Option<Id>, req: Request, parse: string -> Option<Instant>,
              iso: Instant -> string, newId: Id, now: Instant) returns (reply: Reply)
    requires store.Valid()
    modifies store
    ensures store.Valid()
    ensures match Validate(session, req, old(store.State()), parse)
      case Respond(r) => reply == r && store.State() == old(store.State())
      case Save(f, name) =>
        var outcome := AttendanceModel.InsertOutcome(old(store.attendance), newId, ToDocument(f, now),
                                                     old(store.users), old(store.groups), old(store.events));
        && reply == AfterSave(outcome, newId, f.date, name, iso)
        && store.State() == if outcome.Saved? then old(store.State()).(attendance := old(store.attendance)[newId := ToDocument(f, now)])
                            else old(store.State())
    ensures reply.status != 201 && store.State() == old(store.State())
  {
    var step := Validate(session, req, store.State(), parse);
    match step
    case Respond(r) =>
      reply := r;
    case Save(fields, name) =>
      var doc := ToDocument(fields, now);
      var outcome := store.InsertAttendance(newId, doc);
      reply := AfterSave(outcome, newId, fields.date, name, iso);
  }

  /** The record the handler builds can never be saved: the schema requires
      `event`, which the handler does not set. */
  lemma RecordNeverSaved(f: RecordFields, now: Instant, db: Database.DB, id: Id)
    ensures !AttendanceModel.SchemaValid(ToDocument(f, now))
    ensures AttendanceModel.InsertOutcome(db.attendance, id, ToDocument(f, now), db.users, db.groups, db.events)
            == ValidationFailed
  {
  }

  /** Authentication, the required fields and the date are checked before the
      store is read: their replies are the same whatever the store holds. */
  lemma EarlyRejectionsIgnoreStore(session: Option<Id>, req: Request, db1: Database.DB, db2: Database.DB,
                                   parse: string -> Option<Instant>)
    requires || !Present(session)
             || !Present(req.date) || !Present(req.groupId) || req.presentIds.None? || req.presentIds == Some([])
             || parse(req.date.value).None?
    ensures Validate(session, req, db1, parse) == Validate(session, req, db2, parse)
    ensures Validate(session, req, db1, parse).Respond?
    ensures Validate(session, req, db1, parse).reply.status in {400, 401}
  {
  }

  /** Once the caller leads the group, the 400 for unknown members names every
      present id that is not on the roster, in request order. */
  lemma InvalidMembersReported(session: Option<Id>, req: Request, db: Database.DB, parse: string -> Option<Instant>)
    requires Present(session) && Present(req.date) && Present(req.groupId)
    requires req.presentIds.Some? && req.presentIds.value != []
    requires parse(req.date.value).Some?
    requires req.groupId.value in db.groups && db.groups[req.groupId.value].leader == Some(session.value)
    requires exists m :: m in req.presentIds.value && m !in db.groups[req.groupId.value].members
    ensures Validate(session, req, db, parse)
      == Respond(Reply(400, Failure("Invalid members: "
                                    + Join(InvalidMembers(req.presentIds.value, db.groups[req.groupId.value].members), ", "))))
  {
  }

  /** The duplicate check compares the exact instant, not the calendar day:
      when every record of the group is at the instant `t0`, a request for
      `t0` is refused, while one for any other instant (one millisecond later
      on the same day included) is let through to the save. */
  lemma SameDayDifferentInstantAccepted(session: Option<Id>, req: Request, db: Database.DB,
                                        parse: string -> Option<Instant>, t0: Instant)
    requires Leads(session, req, db, parse)
    requires InvalidMembers(req.presentIds.value, db.groups[req.groupId.value].members) == []
    requires exists a :: a in db.attendance && db.attendance[a].group == req.groupId && db.attendance[a].date == Some(t0)
    requires forall a :: a in db.attendance && db.attendance[a].group == req.groupId ==> db.attendance[a].date == Some(t0)
    ensures parse(req.date.value) == Some(t0) ==>
      Validate(session, req, db, parse) == Respond(Reply(400, Failure("Attendance already recorded for this date")))
    ensures parse(req.date.value) != Some(t0) ==> Validate(session, req, db, parse).Save?
  {
  }

  /** The absent count is the roster size minus the number of present ids, so
      an id listed twice can drive it below zero. */
  lemma RepeatedIdGivesNegativeAbsentCount()
    ensures var groups := map["g" := GroupModel.Group(Some("Youth"), Some("leader"), ["m"])];
            var db := Database.DB(map[], groups, map[], map[]);
            var s := Validate(Some("leader"), Request(Some("2024-01-07"), Some("g"), Some(["m", "m"])), db,
                              (d: string) => Some(0));
            s.Save? && s.fields.absentCount == -1
  {
    var ids: seq<Id> := ["m", "m"];
    assert InvalidMembers(ids, ["m"]) == [];
  }
}
