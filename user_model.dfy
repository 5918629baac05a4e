/** The users collection and its schema (src/lib/models/User.ts). */
module UserModel {
  import opened Common

  /** A user document. Every path is optional in the stored form because
      the collection also receives documents written without the schema.
      The schema has no `phone` path: a `phone` given to `new User(...)` is
      dropped and never read back. */
  datatype User = User(
    name: Option<string>,
    email: Option<string>,
    password: Option<string>,
    role: Option<string>,
    group: Option<Id>)

  /** The `enum` of the role path: 'member' is not in it. */
  predicate RoleAllowed(role: Option<string>) {
    role == Some("bishop") || role == Some("leader")
  }

  /** The validators UserSchema runs on save: name, email and password are
      required, role is required and must be in the enum, group is optional. */
  predicate SchemaValid(u: User) {
    Present(u.name) && Present(u.email) && Present(u.password) && RoleAllowed(u.role)
  }

  /** The unique index on email: no two users share an email value. The index
      is not sparse, so a missing email counts as one value too. */
  predicate EmailsUnique(users: map<Id, User>) {
    forall a, b | a in users && b in users && a != b :: users[a].email != users[b].email
  }

  predicate EmailTaken(users: map<Id, User>, email: Option<string>) {
    exists id | id in users :: users[id].email == email
  }

  /** `new User(u).save()` for a document whose generated `_id` is `id`:
      validation, then the insert, which the `_id` and email indexes may
      refuse. */
  function InsertOutcome(users: map<Id, User>, id: Id, u: User): (o: SaveResult)
    ensures o.Saved? <==> SchemaValid(u) && id !in users && !EmailTaken(users, u.email)
    ensures !SchemaValid(u) ==> o == ValidationFailed
    ensures SchemaValid(u) && (id in users || EmailTaken(users, u.email)) ==> o == DuplicateKey
    ensures o.Saved? && EmailsUnique(users) ==> EmailsUnique(users[id := u])
  {
    if !SchemaValid(u) then ValidationFailed
    else if id in users || EmailTaken(users, u.email) then DuplicateKey
    else Saved
  }

  /** The schema's rules by example: a missing password or the role
      'member' makes any user invalid, and the group never matters. */
  lemma SchemaRules(u: User, g: Option<Id>)
    ensures u.password.None? ==> !SchemaValid(u)
    ensures !SchemaValid(u.(role := Some("member")))
    ensures SchemaValid(u.(group := g)) == SchemaValid(u)
  {
  }
}
