/** The attendance collection: its schema, the pre-save hook that checks
    every reference, the three queries and the attendance percentage
    (src/lib/models/Attendance.ts). */
module AttendanceModel {
  import opened Common
  import opened Ordering
  import UserModel
  import GroupModel
  import EventModel

  /** An attendance document as stored. */
  datatype Attendance = Attendance(
    event: Option<Id>,
    group: Option<Id>,
    date: Option<Instant>,
    presentMembers: seq<Id>,
    absentMembers: seq<Id>,
    recordedBy: Option<Id>,
    notes: Option<string>)

  /** `new Attendance({...})` given the value of each schema path (a path left
      out of the object literal is `None` here, an array path `[]`): date
      defaults to the clock reading `now`, notes are trimmed. Keys of the
      literal that are not schema paths have no parameter: strict mode drops
      them. */
  function NewAttendance(event: Option<Id>, group: Option<Id>, date: Option<Instant>,
                         presentMembers: seq<Id>, absentMembers: seq<Id>,
                         recordedBy: Option<Id>, notes: Option<string>, now: Instant): Attendance {
    Attendance(event, group, Some(if date.Some? then date.value else now), presentMembers, absentMembers,
               recordedBy, EventModel.Trimmed(notes))
  }

  /** The schema's validators: event, group, date and recordedBy are required
      and notes are at most 500 characters. There is no unique index on
      (group, date). */
  predicate SchemaValid(a: Attendance) {
    && a.event.Some?
    && a.group.Some?
    && a.date.Some?
    && a.recordedBy.Some?
    && (a.notes.Some? ==> JsLength(a.notes.value) <= 500)
  }

  /** A listed member passes the hook: the user exists and is on the roster. */
  predicate MemberOk(m: Id, users: map<Id, UserModel.User>, roster: seq<Id>) {
    m in users && m in roster
  }

  /** The position of the first id in `ids` that fails `MemberOk`, or `|ids|`. */
  function FirstStranger(ids: seq<Id>, users: map<Id, UserModel.User>, roster: seq<Id>): (k: nat)
    ensures k <= |ids|
    ensures forall j :: 0 <= j < k ==> MemberOk(ids[j], users, roster)
    ensures k < |ids| ==> !MemberOk(ids[k], users, roster)
  {
    if ids == [] then 0
    else if !MemberOk(ids[0], users, roster) then 0
    else 1 + FirstStranger(ids[1..], users, roster)
  }

  /** Every reference of `a` resolves and every listed member belongs. */
  predicate ReferentiallySound(a: Attendance, users: map<Id, UserModel.User>,
                               groups: map<Id, GroupModel.Group>, events: map<Id, EventModel.Event>) {
    && Resolves(a.event, events)
    && Resolves(a.group, groups)
    && Resolves(a.recordedBy, users)
    && (forall m :: m in a.presentMembers ==> MemberOk(m, users, groups[a.group.value].members))
    && (forall m :: m in a.absentMembers ==> MemberOk(m, users, groups[a.group.value].members))
  }

  /** What the pre-save hook throws, if anything: the event, the group and the
      recorder are looked up in that order, then the present members in list
      order, then the absent members, and the first failure wins. */
  function PreSaveError(a: Attendance, users: map<Id, UserModel.User>,
                        groups: map<Id, GroupModel.Group>, events: map<Id, EventModel.Event>): (r: Option<HookError>)
    ensures r.None? <==> ReferentiallySound(a, users, groups, events)
    ensures r == Some(EventMissing) <==> !Resolves(a.event, events)
    ensures r == Some(GroupMissing) <==> Resolves(a.event, events) && !Resolves(a.group, groups)
    ensures r == Some(UserMissing) <==>
      Resolves(a.event, events) && Resolves(a.group, groups) && !Resolves(a.recordedBy, users)
  {
    if !Resolves(a.event, events) then Some(EventMissing)
    else if !Resolves(a.group, groups) then Some(GroupMissing)
    else if !Resolves(a.recordedBy, users) then Some(UserMissing)
    else
      var roster := groups[a.group.value].members;
      var p := FirstStranger(a.presentMembers, users, roster);
      if p < |a.presentMembers| then Some(MemberNotInGroup(a.presentMembers[p]))
      else
        var q := FirstStranger(a.absentMembers, users, roster);
        if q < |a.absentMembers| then Some(MemberNotInGroup(a.absentMembers[q]))
        else None
  }

  /** The hook stops at the first present member that fails, before it looks
      at any absent member, and names that member. */
  lemma PresentCheckedBeforeAbsent(a: Attendance, users: map<Id, UserModel.User>,
                                   groups: map<Id, GroupModel.Group>, events: map<Id, EventModel.Event>, k: nat)
    requires Resolves(a.event, events) && Resolves(a.group, groups) && Resolves(a.recordedBy, users)
    requires k < |a.presentMembers|
    requires !MemberOk(a.presentMembers[k], users, groups[a.group.value].members)
    requires forall j :: 0 <= j < k ==> MemberOk(a.presentMembers[j], users, groups[a.group.value].members)
    ensures PreSaveError(a, users, groups, events) == Some(MemberNotInGroup(a.presentMembers[k]))
  {
    var p := FirstStranger(a.presentMembers, users, groups[a.group.value].members);
    assert p == k;
  }

  /** Once every present member passes, the hook names the first absent
      member that fails. */
  lemma AbsentCheckedAfterPresent(a: Attendance, users: map<Id, UserModel.User>,
                                  groups: map<Id, GroupModel.Group>, events: map<Id, EventModel.Event>, k: nat)
    requires Resolves(a.event, events) && Resolves(a.group, groups) && Resolves(a.recordedBy, users)
    requires forall m :: m in a.presentMembers ==> MemberOk(m, users, groups[a.group.value].members)
    requires k < |a.absentMembers|
    requires !MemberOk(a.absentMembers[k], users, groups[a.group.value].members)
    requires forall j :: 0 <= j < k ==> MemberOk(a.absentMembers[j], users, groups[a.group.value].members)
    ensures PreSaveError(a, users, groups, events) == Some(MemberNotInGroup(a.absentMembers[k]))
  {
    var roster := groups[a.group.value].members;
    var q := FirstStranger(a.absentMembers, users, roster);
    assert q == k;
  }

  /** The pre-save hook as the schema runs it: sequential lookups and two
      loops that throw on the first member that fails. */
  method RunPreSaveHook(a: Attendance, users: map<Id, UserModel.User>,
                        groups: map<Id, GroupModel.Group>, events: map<Id, EventModel.Event>)
    returns (err: Option<HookError>)
    ensures err == PreSaveError(a, users, groups, events)
  {
    if !Resolves(a.event, events) {
      return Some(EventMissing);
    }
    if !Resolves(a.group, groups) {
      return Some(GroupMissing);
    }
    if !Resolves(a.recordedBy, users) {
      return Some(UserMissing);
    }
    var group := groups[a.group.value];
    for i := 0 to |a.presentMembers|
      invariant forall j :: 0 <= j < i ==> MemberOk(a.presentMembers[j], users, group.members)
    {
      var memberId := a.presentMembers[i];
      if memberId !in users || memberId !in group.members {
        return Some(MemberNotInGroup(memberId));
      }
    }
    for i := 0 to |a.absentMembers|
      invariant forall j :: 0 <= j < i ==> MemberOk(a.absentMembers[j], users, group.members)
    {
      var memberId := a.absentMembers[i];
      if memberId !in users || memberId !in group.members {
        return Some(MemberNotInGroup(memberId));
      }
    }
    return None;
  }

  /** `attendance.save()` for a new document whose `_id` is `id`. */
  function InsertOutcome(attendance: map<Id, Attendance>, id: Id, a: Attendance,
                         users: map<Id, UserModel.User>, groups: map<Id, GroupModel.Group>,
                         events: map<Id, EventModel.Event>): (o: SaveResult)
    ensures o.Saved? <==> SchemaValid(a) && ReferentiallySound(a, users, groups, events) && id !in attendance
    ensures !SchemaValid(a) ==> o == ValidationFailed
    ensures SchemaValid(a) && PreSaveError(a, users, groups, events).Some? ==>
      o == HookRejected(PreSaveError(a, users, groups, events).value)
  {
    if !SchemaValid(a) then ValidationFailed
    else
      match PreSaveError(a, users, groups, events)
      case Some(err) => HookRejected(err)
      case None => if id in attendance then DuplicateKey else Saved
  }

  /** A record without an event, a group or a recorder is refused before the
      hook runs, and a record built without a date takes the clock reading. */
  lemma RequiredPaths(attendance: map<Id, Attendance>, id: Id, a: Attendance,
                      users: map<Id, UserModel.User>, groups: map<Id, GroupModel.Group>,
                      events: map<Id, EventModel.Event>, now: Instant)
    ensures a.event.None? || a.group.None? || a.recordedBy.None? ==>
              InsertOutcome(attendance, id, a, users, groups, events) == ValidationFailed
    ensures NewAttendance(a.event, a.group, None, a.presentMembers, a.absentMembers, a.recordedBy, a.notes, now).date
            == Some(now)
  {
  }

  /** Nothing at the model level keeps one record per group and date: a
      second, referentially sound record for the same group and the same
      instant is saved like the first. */
  lemma NoUniqueGroupDate()
    ensures exists attendance: map<Id, Attendance>, id: Id, a: Attendance, users, groups, events ::
      && InsertOutcome(attendance, id, a, users, groups, events) == Saved
      && exists other :: other in attendance && attendance[other].group == a.group && attendance[other].date == a.date
  {
    var rec := Attendance(Some("e"), Some("g"), Some(0), [], [], Some("u"), None);
    var users := map["u" := UserModel.User(None, None, None, None, None)];
    var groups := map["g" := GroupModel.Group(Some("G"), Some("u"), [])];
    var events := map["e" := EventModel.Event(None, None, None, None, None, [])];
    var attendance := map["first" := rec];
    assert InsertOutcome(attendance, "second", rec, users, groups, events) == Saved;
    assert attendance["first"].group == rec.group && attendance["first"].date == rec.date;
  }

  /** The key `sort({date: -1})` compares. */
  function DateKey(attendance: map<Id, Attendance>): Id -> Option<Instant> {
    (id: Id) => if id in attendance then attendance[id].date else None
  }

  /** `Attendance.findByEvent(eventId)`: the event's records, newest first. */
  ghost function FindByEvent(attendance: map<Id, Attendance>, eventId: Id): (r: seq<Id>)
    ensures forall id :: id in r <==> id in attendance && attendance[id].event == Some(eventId)
    ensures NoDup(r)
    ensures SortedBy(r, DateKey(attendance), true)
  {
    var matching := set id | id in attendance && attendance[id].event == Some(eventId);
    SortedListing(matching, DateKey(attendance), true)
  }

  /** `Attendance.findByGroup(groupId)`: the group's records, newest first. */
  ghost function FindByGroup(attendance: map<Id, Attendance>, groupId: Id): (r: seq<Id>)
    ensures forall id :: id in r <==> id in attendance && attendance[id].group == Some(groupId)
    ensures NoDup(r)
    ensures SortedBy(r, DateKey(attendance), true)
  {
    var matching := set id | id in attendance && attendance[id].group == Some(groupId);
    SortedListing(matching, DateKey(attendance), true)
  }

  /** `Attendance.findByMember(memberId)`: the records that list the member as
      present or as absent, newest first. */
  ghost function FindByMember(attendance: map<Id, Attendance>, memberId: Id): (r: seq<Id>)
    ensures forall id :: id in r <==> && id in attendance
                                      && (memberId in attendance[id].presentMembers
                                          || memberId in attendance[id].absentMembers)
    ensures NoDup(r)
    ensures SortedBy(r, DateKey(attendance), true)
  {
    var matching := set id | id in attendance && (memberId in attendance[id].presentMembers
                                                  || memberId in attendance[id].absentMembers);
    SortedListing(matching, DateKey(attendance), true)
  }

  /** `attendance.getAttendancePercentage()`, with `Math.round` of the exact
      ratio: 0 for a record that lists nobody, otherwise the percentage of
      listed members who were present, rounded to the nearest integer with
      halves rounded up. */
  function AttendancePercentage(a: Attendance): (r: int)
    ensures 0 <= r <= 100
    ensures |a.presentMembers| + |a.absentMembers| == 0 ==> r == 0
    ensures var p, t := |a.presentMembers|, |a.presentMembers| + |a.absentMembers|;
      t > 0 ==> 200 * p - t < 2 * r * t <= 200 * p + t
  {
    var p, t := |a.presentMembers|, |a.presentMembers| + |a.absentMembers|;
    if t == 0 then 0
    else
      var r := (200 * p + t) / (2 * t);
      RoundingBounds(200 * p + t, 2 * t, r, p, t);
      r
  }

  lemma RoundingBounds(n: int, d: int, q: int, p: nat, t: nat)
    requires t > 0 && p <= t && n == 200 * p + t && d == 2 * t && q == n / d
    ensures 0 <= q <= 100
    ensures n - d < q * d <= n
  {
    var rem := n % d;
    assert n == q * d + rem && 0 <= rem < d;
    if q < 0 {
      MulMonotone(q, -1, d);
      assert false;
    }
    if q > 100 {
      MulMonotone(101, q, d);
      assert false;
    }
  }

  lemma MulMonotone(a: int, b: int, c: nat)
    requires a <= b
    ensures a * c <= b * c
  {
  }
}
