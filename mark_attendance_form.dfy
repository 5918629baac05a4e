/** The attendance form (src/components/MarkAttendanceForm.tsx): a leader
    ticks the members who were present and submits the ticked ids with a
    date to `POST /api/attendance`. */
module MarkAttendanceForm {
  import opened Common
  import AttendanceRoute
  import Database

  /** The `presentMembers` record: member id to ticked, in the order the keys
      were first added, which is the order `Object.entries` lists them in. */
  type Selection = seq<(Id, bool)>

  predicate KeysUnique(sel: Selection) {
    forall i, j | 0 <= i < j < |sel| :: sel[i].0 != sel[j].0
  }

  function Keys(sel: Selection): seq<Id> {
    seq(|sel|, i requires 0 <= i < |sel| => sel[i].0)
  }

  /** `!!presentMembers[id]`: a key never set reads as not ticked. */
  function Lookup(sel: Selection, id: Id): bool {
    if sel == [] then false
    else if sel[0].0 == id then sel[0].1
    else Lookup(sel[1..], id)
  }

  /** `{...prev, [id]: !prev[id]}`: an existing key keeps its place and flips,
      a new key is added at the end as ticked. */
  function Toggled(sel: Selection, id: Id): (r: Selection)
    ensures forall x :: Lookup(r, x) == if x == id then !Lookup(sel, id) else Lookup(sel, x)
    ensures forall x :: x in Keys(r) <==> x in Keys(sel) || x == id
    ensures KeysUnique(sel) ==> KeysUnique(r)
  {
    if sel == [] then
      assert Keys([(id, true)]) == [id];
      [(id, true)]
    else if sel[0].0 == id then
      assert Keys([(id, !sel[0].1)] + sel[1..]) == Keys(sel) && Keys(sel)[0] == id;
      [(id, !sel[0].1)] + sel[1..]
    else
      var rest := Toggled(sel[1..], id);
      assert Keys(sel) == [sel[0].0] + Keys(sel[1..]);
      assert Keys([sel[0]] + rest) == [sel[0].0] + Keys(rest);
      KeepHead(sel, rest, id);
      [sel[0]] + rest
  }

  /** The recursive step of `Toggled`: the untouched first entry stays in
      front of a tail whose keys are the old tail's keys plus `id`. */
  lemma KeepHead(sel: Selection, rest: Selection, id: Id)
    requires sel != [] && sel[0].0 != id
    requires forall x :: x in Keys(rest) <==> x in Keys(sel[1..]) || x == id
    requires KeysUnique(sel[1..]) ==> KeysUnique(rest)
    ensures KeysUnique(sel) ==> KeysUnique([sel[0]] + rest)
  {
    if KeysUnique(sel) {
      HeadNotInTail(sel);
      ConsUnique(sel[0], rest);
    }
  }

  /** In a selection without repeated keys the first key is not repeated
      further on. */
  lemma HeadNotInTail(sel: Selection)
    requires sel != [] && KeysUnique(sel)
    ensures sel[0].0 !in Keys(sel[1..])
  {
  }

  /** Putting an entry with a fresh key in front keeps keys unique. */
  lemma ConsUnique(a: (Id, bool), rest: Selection)
    requires KeysUnique(rest) && a.0 !in Keys(rest)
    ensures KeysUnique([a] + rest)
  {
    var r := [a] + rest;
    forall i, j | 0 <= i < j < |r|
      ensures r[i].0 != r[j].0
    {
      if i == 0 {
        assert r[j].0 == Keys(rest)[j - 1];
      }
    }
  }

  /** `Object.entries(presentMembers).filter(([, p]) => p).map(([id]) => id)`. */
  function PresentIds(sel: Selection): (r: seq<Id>)
    ensures forall x :: x in r ==> x in Keys(sel)
  {
    if sel == [] then []
    else
      assert Keys(sel) == [sel[0].0] + Keys(sel[1..]);
      if sel[0].1 then [sel[0].0] + PresentIds(sel[1..]) else PresentIds(sel[1..])
  }

  /** With each key listed once, the submitted ids are exactly the ticked
      members, each once. */
  lemma {:induction false} PresentIdsExact(sel: Selection)
    requires KeysUnique(sel)
    ensures forall x :: x in PresentIds(sel) <==> Lookup(sel, x)
    ensures NoDup(PresentIds(sel))
  {
    if sel != [] {
      PresentIdsExact(sel[1..]);
      var rest := PresentIds(sel[1..]);
      assert Keys(sel) == [sel[0].0] + Keys(sel[1..]);
      HeadNotInTail(sel);
      assert sel[0].0 !in rest;
      if sel[0].1 {
        var r := [sel[0].0] + rest;
        forall x | x in r
          ensures multiset(r)[x] == 1
        {
          assert multiset(r) == multiset{sel[0].0} + multiset(rest);
        }
      }
    }
  }

  /** Ticking and unticking the same member leaves the submitted ids as they
      were, even when the member had never been ticked before (the key then
      stays, as not ticked). */
  lemma {:induction false} ToggleTwice(sel: Selection, id: Id)
    ensures PresentIds(Toggled(Toggled(sel, id), id)) == PresentIds(sel)
  {
    if sel != [] && sel[0].0 != id {
      ToggleTwice(sel[1..], id);
      var once := Toggled(sel[1..], id);
      assert Toggled(sel, id) == [sel[0]] + once;
      assert ([sel[0]] + once)[1..] == once;
    }
  }

  /** A submission with nothing ticked is refused by the handler, before any
      store access, with the 400 for missing fields. */
  lemma EmptySelectionRefused(sel: Selection, session: Option<Id>, date: string, groupId: Id,
                              db: Database.DB, parse: string -> Option<Instant>)
    requires Present(session)
    requires forall x :: !Lookup(sel, x)
    requires KeysUnique(sel)
    ensures AttendanceRoute.Validate(session, AttendanceRoute.Request(Some(date), Some(groupId), Some(PresentIds(sel))), db, parse)
            == AttendanceRoute.Respond(AttendanceRoute.Reply(400, AttendanceRoute.Failure("Date, group ID, and present IDs are required")))
  {
    PresentIdsExact(sel);
    var ids := PresentIds(sel);
    forall x
      ensures multiset(ids)[x] == 0
    {
      assert x !in ids;
    }
    assert multiset(ids) == multiset{};
  }

  /** The form's state. `members` holds the listed members' ids. */
  class Form {
    const groupId: Id
    const members: seq<Id>
    var date: Option<Instant>
    var presentMembers: Selection
    var isSubmitting: bool

    ghost predicate Valid()
      reads this
    {
      KeysUnique(presentMembers)
    }

    /** The first render: today's date, nothing ticked. */
    constructor (groupId: Id, members: seq<Id>, today: Instant)
      ensures Valid()
      ensures this.groupId == groupId && this.members == members
      ensures date == Some(today) && presentMembers == [] && !isSubmitting
    {
      this.groupId := groupId;
      this.members := members;
      date := Some(today);
      presentMembers := [];
      isSubmitting := false;
    }

    /** The calendar's `onSelect`: a date, or none when it is deselected. */
    method SelectDate(d: Option<Instant>)
      requires Valid()
      modifies this
      ensures Valid()
      ensures date == d && presentMembers == old(presentMembers) && isSubmitting == old(isSubmitting)
    {
      date := d;
    }

    /** `handleCheckboxChange(memberId)`. */
    method HandleCheckboxChange(memberId: Id)
      requires Valid()
      modifies this
      ensures Valid()
      ensures presentMembers == Toggled(old(presentMembers), memberId)
      ensures date == old(date) && isSubmitting == old(isSubmitting)
    {
      presentMembers := Toggled(presentMembers, memberId);
    }

    /** The submit button's `disabled`. */
    function SubmitDisabled(): (r: bool)
      reads this
      ensures !r <==> date.Some? && members != [] && !isSubmitting
    {
      isSubmitting || date.None? || |members| == 0
    }

    /** The first half of `handleSubmit`, up to the request: without a date it
      returns and nothing happens; otherwise the form is marked as submitting
      and the request body is built from the ticked ids. `iso` stands for
      `toISOString`. */
    method BeginSubmit(iso: Instant -> string) returns (sent: Option<AttendanceRoute.Request>)
      requires Valid()
      modifies this
      ensures Valid()
      ensures old(date).None? ==> sent.None? && isSubmitting == old(isSubmitting)
      ensures old(date).Some? ==>
        && sent == Some(AttendanceRoute.Request(Some(iso(old(date).value)), Some(groupId), Some(PresentIds(old(presentMembers)))))
        && isSubmitting
      ensures old(date).Some? ==> NoDup(sent.value.presentIds.value)
      ensures sent.Some? ==> SubmitDisabled()
      ensures date == old(date) && presentMembers == old(presentMembers)
    {
      if date.None? {
        return None;
      }
      isSubmitting := true;
      PresentIdsExact(presentMembers);
      var presentIds := PresentIds(presentMembers);
      sent := Some(AttendanceRoute.Request(Some(iso(date.value)), Some(groupId), Some(presentIds)));
    }

    /** The rest of `handleSubmit` once the response is in (`ok` is
      `response.ok`): a success clears the selection, and either way the form
      stops submitting. */
    method FinishSubmit(ok: bool)
      requires Valid()
      modifies this
      ensures Valid()
      ensures presentMembers == if ok then [] else old(presentMembers)
      ensures !isSubmitting && date == old(date)
      ensures !SubmitDisabled() <==> date.Some? && members != []
    {
      if ok {
        presentMembers := [];
      }
      isSubmitting := false;
    }
  }
}
