/** The groups collection (src/lib/models/Group.ts), used only as a record
    shape and for the validation a `group.save()` runs. */
module GroupModel {
  import opened Common

  /** A group document: its name, the user who leads it (optional in the
      schema) and its member roster. */
  datatype Group = Group(name: Option<string>, leader: Option<Id>, members: seq<Id>)

  /** The schema's one validator: the name is required. */
  predicate SchemaValid(g: Group) {
    Present(g.name)
  }

  /** `group.save()` on the group document stored under `id`, replaced by `g`. */
  function UpdateOutcome(groups: map<Id, Group>, id: Id, g: Group): (o: SaveResult)
    ensures o.Saved? <==> Present(g.name) && id in groups
    ensures !o.Saved? ==> o == ValidationFailed || o == DocumentNotFound
  {
    if !SchemaValid(g) then ValidationFailed
    else if id !in groups then DocumentNotFound
    else Saved
  }
}
