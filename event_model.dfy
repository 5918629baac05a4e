/** The events collection, its schema, pre-save hook and queries
    (src/lib/models/Event.ts). */
module EventModel {
  import opened Common
  import opened Ordering
  import UserModel
  import GroupModel

  /** An event document as stored. */
  datatype Event = Event(
    title: Option<string>,
    date: Option<Instant>,
    description: Option<string>,
    group: Option<Id>,
    createdBy: Option<Id>,
    attendees: seq<Id>)

  /** The `trim: true` setter: applied when a string is assigned to the path. */
  function Trimmed(s: Option<string>): Option<string> {
    match s
    case None => None
    case Some(v) => Some(Trim(v))
  }

  /** `new Event({title, date, description, group, createdBy})`: the setters
      trim title and description, and attendees starts as an empty array. */
  function NewEvent(title: Option<string>, date: Option<Instant>, description: Option<string>,
                    group: Option<Id>, createdBy: Option<Id>): Event {
    Event(Trimmed(title), date, Trimmed(description), group, createdBy, [])
  }

  /** The schema's validators: the title is required and at most 100
      characters, the description at most 500, and date, group and createdBy
      are required. */
  predicate SchemaValid(e: Event) {
    && Present(e.title) && JsLength(e.title.value) <= 100
    && e.date.Some?
    && (e.description.Some? ==> JsLength(e.description.value) <= 500)
    && e.group.Some?
    && e.createdBy.Some?
  }

  /** The pre-save hook: the group must exist, then the creator. */
  function PreSaveError(e: Event, groups: map<Id, GroupModel.Group>, users: map<Id, UserModel.User>): (r: Option<HookError>)
    ensures r.None? <==> Resolves(e.group, groups) && Resolves(e.createdBy, users)
    ensures r == Some(GroupMissing) <==> !Resolves(e.group, groups)
    ensures Resolves(e.group, groups) && !Resolves(e.createdBy, users) ==> r == Some(UserMissing)
  {
    if !Resolves(e.group, groups) then Some(GroupMissing)
    else if !Resolves(e.createdBy, users) then Some(UserMissing)
    else None
  }

  /** `newEvent.save()` for a new document whose `_id` is `id`. */
  function InsertOutcome(events: map<Id, Event>, id: Id, e: Event,
                         groups: map<Id, GroupModel.Group>, users: map<Id, UserModel.User>): (o: SaveResult)
    ensures o.Saved? <==> SchemaValid(e) && Resolves(e.group, groups) && Resolves(e.createdBy, users) && id !in events
    ensures !SchemaValid(e) ==> o == ValidationFailed
    ensures SchemaValid(e) && PreSaveError(e, groups, users).Some? ==> o == HookRejected(PreSaveError(e, groups, users).value)
    ensures SchemaValid(e) && !Resolves(e.group, groups) ==> o == HookRejected(GroupMissing)
  {
    if !SchemaValid(e) then ValidationFailed
    else
      match PreSaveError(e, groups, users)
      case Some(err) => HookRejected(err)
      case None => if id in events then DuplicateKey else Saved
  }

  /** A stored title is trimmed before it is checked: a title made only of
      white space is refused as missing, and a saved title has no white space
      at either end and at most 100 UTF-16 code units. */
  lemma {:induction false} TitleRule(raw: string, date: Option<Instant>, description: Option<string>,
                                     group: Option<Id>, createdBy: Option<Id>)
    ensures var e := NewEvent(Some(raw), date, description, group, createdBy);
      && (SchemaValid(e) ==> 0 < JsLength(Trim(raw)) <= 100)
      && (SchemaValid(e) ==> !IsSpace(Trim(raw)[0]) && !IsSpace(Trim(raw)[|Trim(raw)| - 1]))
      && ((forall i :: 0 <= i < |raw| ==> IsSpace(raw[i])) ==> !SchemaValid(e))
  {
    var t := Trim(raw);
    if forall i :: 0 <= i < |raw| ==> IsSpace(raw[i]) {
      BlankTrimsToEmpty(raw);
    }
    if t != [] {
      var u := TrimStart(raw);
      assert t == u[..|t|];
    }
  }

  /** The key `sort({date: ...})` compares. */
  function DateKey(events: map<Id, Event>): Id -> Option<Instant> {
    (id: Id) => if id in events then events[id].date else None
  }

  /** The events whose group path is `groupId`: the filter `{group: groupId}`. */
  function OfGroup(events: map<Id, Event>, groupId: Id): set<Id> {
    set id | id in events && events[id].group == Some(groupId)
  }

  /** `Event.findByGroup(groupId)`: exactly the events of the group, oldest first. */
  ghost function FindByGroup(events: map<Id, Event>, groupId: Id): (r: seq<Id>)
    ensures forall id :: id in r <==> id in events && events[id].group == Some(groupId)
    ensures NoDup(r)
    ensures SortedBy(r, DateKey(events), false)
  {
    SortedListing(OfGroup(events, groupId), DateKey(events), false)
  }

  /** `event.getUpcomingEvents()` on an event of group `groupId`, with the
      clock reading `now`: the group's events dated at or after `now`,
      oldest first. A document without a date does not match `$gte`. */
  ghost function UpcomingEvents(events: map<Id, Event>, groupId: Id, now: Instant): (r: seq<Id>)
    ensures forall id :: id in r <==> && id in events && events[id].group == Some(groupId)
                                      && events[id].date.Some? && events[id].date.value >= now
    ensures NoDup(r)
    ensures SortedBy(r, DateKey(events), false)
  {
    var upcoming := set id | id in OfGroup(events, groupId) && events[id].date.Some? && events[id].date.value >= now;
    SortedListing(upcoming, DateKey(events), false)
  }
}
