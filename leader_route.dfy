/** `GET /api/leader` (src/app/api/leader/route.ts): the caller's group, its
    events oldest first and its members, each projected to a few fields. The
    handler only reads the store. */
module LeaderRoute {
  import opened Common
  import opened Ordering
  import UserModel
  import EventModel
  import Database

  datatype GroupView = GroupView(id: Id, name: Option<string>)

  datatype EventView = EventView(id: Id, title: Option<string>, date: string, description: Option<string>)

  /** A member as listed. The projection also asks for `phone`, but the user
      document has no such path, so the value is undefined and JSON leaves it
      out. */
  datatype MemberView = MemberView(id: Id, name: Option<string>, email: Option<string>)

  datatype Body =
    | Failure(error: string)
    | Dashboard(group: Option<GroupView>, events: seq<EventView>, members: seq<MemberView>)

  datatype Reply = Reply(status: int, body: Body)

  const FetchFailed := Reply(500, Failure("Failed to fetch leader data"))

  /** `User.findById(caller).populate('group')` followed by `leader?.group`:
      the caller's group when the caller exists, has a group, and that group
      is in the store (an unresolved reference populates to null). */
  function CallerGroup(caller: Id, db: Database.DB): (g: Option<Id>)
    ensures g.Some? <==> caller in db.users && db.users[caller].group.Some? && db.users[caller].group.value in db.groups
    ensures g.Some? ==> g == db.users[caller].group
  {
    if caller in db.users && db.users[caller].group.Some? && db.users[caller].group.value in db.groups
    then db.users[caller].group
    else None
  }

  /** Every listed event has a date, so `toISOString` does not throw. */
  predicate AllDated(ids: seq<Id>, events: map<Id, EventModel.Event>) {
    forall id :: id in ids ==> id in events && events[id].date.Some?
  }

  function EventIds(vs: seq<EventView>): seq<Id> {
    seq(|vs|, i requires 0 <= i < |vs| => vs[i].id)
  }

  function MemberIds(vs: seq<MemberView>): seq<Id> {
    seq(|vs|, i requires 0 <= i < |vs| => vs[i].id)
  }

  /** `User.find({group, role: 'member'})` in the collection's natural order,
      which the model leaves unspecified. */
  ghost function GroupMembers(users: map<Id, UserModel.User>, g: Id): (r: seq<Id>)
    ensures forall id :: id in r <==> id in users && users[id].group == Some(g) && users[id].role == Some("member")
    ensures NoDup(r)
  {
    var matching := set id | id in users && users[id].group == Some(g) && users[id].role == Some("member");
    Enumerate(matching)
  }

  /** `Event.find({group: g}).sort({date: 1})` mapped to views: `None` when
      an event of the group has no date, since `toISOString` then throws. */
  ghost function EventList(events: map<Id, EventModel.Event>, g: Id, iso: Instant -> string): (r: Option<seq<EventView>>)
    ensures r.None? <==> exists id :: id in events && events[id].group == Some(g) && events[id].date.None?
    ensures r.Some? ==>
      && (forall id :: id in EventIds(r.value) <==> id in events && events[id].group == Some(g))
      && NoDup(EventIds(r.value))
      && SortedBy(EventIds(r.value), EventModel.DateKey(events), false)
      && (forall i :: 0 <= i < |r.value| ==> && r.value[i].id in events && events[r.value[i].id].date.Some?
                                               && r.value[i].date == iso(events[r.value[i].id].date.value)
                                               && r.value[i].title == events[r.value[i].id].title
                                               && r.value[i].description == events[r.value[i].id].description)
  {
    var ids := EventModel.FindByGroup(events, g);
    if !AllDated(ids, events) then None
    else
      var views := seq(|ids|, i requires 0 <= i < |ids| =>
                         var e := events[ids[i]];
                         EventView(ids[i], e.title, iso(e.date.value), e.description));
      assert EventIds(views) == ids;
      Some(views)
  }

  /** `User.find({group: g, role: 'member'})` mapped to views. */
  ghost function MemberList(users: map<Id, UserModel.User>, g: Id): (r: seq<MemberView>)
    ensures forall id :: id in MemberIds(r) <==> id in users && users[id].group == Some(g) && users[id].role == Some("member")
    ensures NoDup(MemberIds(r))
    ensures forall i :: 0 <= i < |r| ==> r[i].id in users && r[i].name == users[r[i].id].name && r[i].email == users[r[i].id].email
  {
    var ids := GroupMembers(users, g);
    var views := seq(|ids|, i requires 0 <= i < |ids| => MemberView(ids[i], users[ids[i]].name, users[ids[i]].email));
    assert MemberIds(views) == ids;
    views
  }

  /** The handler; `session` is the session's user id and `iso` stands for
      `toISOString`. */
  ghost function Get(session: Option<Id>, db: Database.DB, iso: Instant -> string): (r: Reply)
    ensures !Present(session) ==> r == Reply(401, Failure("Unauthorized"))
    ensures Present(session) && CallerGroup(session.value, db).None? ==> r == Reply(200, Dashboard(None, [], []))
    ensures r.status == 500 <==>
      && Present(session) && CallerGroup(session.value, db).Some?
      && EventList(db.events, CallerGroup(session.value, db).value, iso).None?
    ensures r.status == 500 ==> r == FetchFailed
    ensures r.status in {200, 401, 500} && (r.status == 200 ==> r.body.Dashboard?)
    ensures Present(session) && CallerGroup(session.value, db).Some?
            && EventList(db.events, CallerGroup(session.value, db).value, iso).Some? ==>
      var g := CallerGroup(session.value, db).value;
      r == Reply(200, Dashboard(Some(GroupView(g, db.groups[g].name)), EventList(db.events, g, iso).value,
                                MemberList(db.users, g)))
    ensures r.status == 200 && r.body.Dashboard? && r.body.group.Some? ==>
      && Present(session)
      && var g := r.body.group.value.id;
      && CallerGroup(session.value, db) == Some(g)
      && r.body.group.value.name == db.groups[g].name
      && Some(r.body.events) == EventList(db.events, g, iso)
      && r.body.members == MemberList(db.users, g)
  {
    if !Present(session) then Reply(401, Failure("Unauthorized"))
    else
      match CallerGroup(session.value, db)
      case None => Reply(200, Dashboard(None, [], []))
      case Some(g) =>
        match EventList(db.events, g, iso)
        case None => FetchFailed
        case Some(events) => Reply(200, Dashboard(Some(GroupView(g, db.groups[g].name)), events, MemberList(db.users, g)))
  }
}
