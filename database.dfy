/** The document store the handlers share: the users, groups, events and
    attendance collections, each a map from `_id` to document. Every write a
    handler makes goes through one of the `Store` methods, which run the
    schema's validation and pre-save hook before they change anything. */
module Database {
  import opened Common
  import UserModel
  import GroupModel
  import EventModel
  import AttendanceModel

  /** A snapshot of the four collections. */
  datatype DB = DB(
    users: map<Id, UserModel.User>,
    groups: map<Id, GroupModel.Group>,
    events: map<Id, EventModel.Event>,
    attendance: map<Id, AttendanceModel.Attendance>)

  class Store {
    var users: map<Id, UserModel.User>
    var groups: map<Id, GroupModel.Group>
    var events: map<Id, EventModel.Event>
    var attendance: map<Id, AttendanceModel.Attendance>

    /** The database's own invariant: the unique index on users' email. */
    ghost predicate Valid()
      reads this
    {
      UserModel.EmailsUnique(users)
    }

    function State(): DB
      reads this
    {
      DB(users, groups, events, attendance)
    }

    constructor (init: DB)
      requires UserModel.EmailsUnique(init.users)
      ensures Valid() && State() == init
    {
      users, groups, events, attendance := init.users, init.groups, init.events, init.attendance;
    }

    /** `new User(u).save()`, the document's `_id` being `id`. */
    method InsertUser(id: Id, u: UserModel.User) returns (outcome: SaveResult)
      requires Valid()
      modifies this
      ensures Valid()
      ensures outcome == UserModel.InsertOutcome(old(users), id, u)
      ensures State() == if outcome.Saved? then old(State()).(users := old(users)[id := u]) else old(State())
    {
      if !UserModel.SchemaValid(u) {
        return ValidationFailed;
      }
      if id in users || UserModel.EmailTaken(users, u.email) {
        return DuplicateKey;
      }
      users := users[id := u];
      return Saved;
    }

    /** `group.save()` on the fetched group `id` after it was changed to `g`. */
    method UpdateGroup(id: Id, g: GroupModel.Group) returns (outcome: SaveResult)
      requires Valid()
      modifies this
      ensures Valid()
      ensures outcome == GroupModel.UpdateOutcome(old(groups), id, g)
      ensures State() == if outcome.Saved? then old(State()).(groups := old(groups)[id := g]) else old(State())
    {
      if !GroupModel.SchemaValid(g) {
        return ValidationFailed;
      }
      if id !in groups {
        return DocumentNotFound;
      }
      groups := groups[id := g];
      return Saved;
    }

    /** `newEvent.save()`, the document's `_id` being `id`. */
    method InsertEvent(id: Id, e: EventModel.Event) returns (outcome: SaveResult)
      requires Valid()
      modifies this
      ensures Valid()
      ensures outcome == EventModel.InsertOutcome(old(events), id, e, old(groups), old(users))
      ensures State() == if outcome.Saved? then old(State()).(events := old(events)[id := e]) else old(State())
    {
      if !EventModel.SchemaValid(e) {
        return ValidationFailed;
      }
      var err := EventModel.PreSaveError(e, groups, users);
      if err.Some? {
        return HookRejected(err.value);
      }
      if id in events {
        return DuplicateKey;
      }
      events := events[id := e];
      return Saved;
    }

    /** `attendance.save()`, the document's `_id` being `id`: validation, the
        referential pre-save hook, then the insert. */
    method InsertAttendance(id: Id, a: AttendanceModel.Attendance) returns (outcome: SaveResult)
      requires Valid()
      modifies this
      ensures Valid()
      ensures outcome == AttendanceModel.InsertOutcome(old(attendance), id, a, old(users), old(groups), old(events))
      ensures State() == if outcome.Saved? then old(State()).(attendance := old(attendance)[id := a]) else old(State())
    {
      if !AttendanceModel.SchemaValid(a) {
        return ValidationFailed;
      }
      var err := AttendanceModel.RunPreSaveHook(a, users, groups, events);
      if err.Some? {
        return HookRejected(err.value);
      }
      if id in attendance {
        return DuplicateKey;
      }
      attendance := attendance[id := a];
      return Saved;
    }
  }
}
