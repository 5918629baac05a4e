/** Values shared by every part of the model: optional values, document
    identifiers, instants, the outcome of a Mongoose `save()`, and the few
    JavaScript string operations the handlers rely on. */
module Common {

  datatype Option<T> = None | Some(value: T)

  /** A document identifier: the string form of a MongoDB ObjectId. */
  type Id = string

  /** A point in time: the millisecond count that `Date.prototype.getTime()` returns. */
  type Instant = int

  /** JavaScript truthiness of a string-valued field: `undefined` and `""` are
      falsy. Mongoose's `required` validator rejects a String path on exactly
      the same two values. */
  predicate Present(s: Option<string>) {
    s.Some? && s.value != ""
  }

  /** A reference field that `Model.findById` resolves to a stored document. */
  predicate Resolves<T>(ref: Option<Id>, coll: map<Id, T>) {
    ref.Some? && ref.value in coll
  }

  /** Why a pre-save hook threw; `Message` gives the text of the thrown `Error`. */
  datatype HookError =
    | EventMissing
    | GroupMissing
    | UserMissing
    | MemberNotInGroup(member: Id)
  {
    function Message(): string {
      match this
      case EventMissing => "Referenced event does not exist"
      case GroupMissing => "Referenced group does not exist"
      case UserMissing => "Referenced user does not exist"
      case MemberNotInGroup(m) => "Member " + m + " not found in group"
    }
  }

  /** The thrown text tells the failures apart, and a member failure names
      the member right after the word "Member ". */
  lemma MessagesDistinct(e1: HookError, e2: HookError, m: Id)
    ensures e1.Message() == e2.Message() ==> e1 == e2
    ensures var msg := MemberNotInGroup(m).Message();
            |msg| == |m| + 26 && msg[..7] == "Member " && msg[7..7 + |m|] == m
  {
    var msg := MemberNotInGroup(m).Message();
    assert msg[..7] == "Member " && msg[7..7 + |m|] == m;
    if e1.MemberNotInGroup? && e2.MemberNotInGroup? {
      var m1, m2 := e1.member, e2.member;
      assert e1.Message()[7..7 + |m1|] == m1;
      assert e2.Message()[7..7 + |m2|] == m2;
    } else {
      assert e1.Message()[0] == 'M' <==> e1.MemberNotInGroup?;
      assert e2.Message()[0] == 'M' <==> e2.MemberNotInGroup?;
      assert e1.Message()[11] == if e1.EventMissing? then 'e' else if e1.GroupMissing? then 'g' else if e1.UserMissing? then 'u' else e1.Message()[11];
      assert e2.Message()[11] == if e2.EventMissing? then 'e' else if e2.GroupMissing? then 'g' else if e2.UserMissing? then 'u' else e2.Message()[11];
    }
  }

  /** What `doc.save()` on a new or fetched document ends in: schema
      validation runs first, then the schema's pre-save hook, then the write,
      which the database refuses on a duplicate key of a unique index, or, for
      an update, when the document is no longer there. */
  datatype SaveResult =
    | Saved
    | ValidationFailed
    | HookRejected(reason: HookError)
    | DuplicateKey
    | DocumentNotFound

  /** The characters `String.prototype.trim` removes: the ECMAScript
      WhiteSpace (TAB, VT, FF, SP, NBSP, ZWNBSP and the Zs category) and
      LineTerminator (LF, CR, LS, PS) code points. */
  predicate IsSpace(c: char) {
    var n := c as int;
    n == 0x09 || n == 0x0A || n == 0x0B || n == 0x0C || n == 0x0D || n == 0x20 ||
    n == 0xA0 || n == 0x1680 || (0x2000 <= n <= 0x200A) || n == 0x2028 ||
    n == 0x2029 || n == 0x202F || n == 0x205F || n == 0x3000 || n == 0xFEFF
  }

  /** `s` with its leading white space removed. */
  function TrimStart(s: string): (r: string)
    ensures |r| <= |s| && r == s[|s| - |r|..]
    ensures r == [] || !IsSpace(r[0])
    ensures forall i :: 0 <= i < |s| - |r| ==> IsSpace(s[i])
  {
    if s != [] && IsSpace(s[0]) then TrimStart(s[1..]) else s
  }

  /** `s` with its trailing white space removed. */
  function TrimEnd(s: string): (r: string)
    ensures |r| <= |s| && r == s[..|r|]
    ensures r == [] || !IsSpace(r[|r| - 1])
    ensures forall i :: |r| <= i < |s| ==> IsSpace(s[i])
  {
    if s != [] && IsSpace(s[|s| - 1]) then TrimEnd(s[..|s| - 1]) else s
  }

  /** `String.prototype.trim`. */
  function Trim(s: string): string {
    TrimEnd(TrimStart(s))
  }

  /** Trimming a trimmed string changes nothing, so a value that was trimmed
      on assignment compares equal to its re-trimmed form. */
  lemma TrimIdempotent(s: string)
    ensures Trim(Trim(s)) == Trim(s)
  {
    var t := Trim(s);
    if t != [] {
      assert !IsSpace(t[0]) by {
        var u := TrimStart(s);
        assert t == u[..|t|];
      }
      TrimKeepsTrimmed(t);
    }
  }

  /** A string with no white space at either end trims to itself. */
  lemma TrimKeepsTrimmed(s: string)
    requires s != [] ==> !IsSpace(s[0]) && !IsSpace(s[|s| - 1])
    ensures Trim(s) == s
  {
    assert TrimStart(s) == s;
  }

  /** A string of white space only trims to the empty string. */
  lemma {:induction false} BlankTrimsToEmpty(s: string)
    requires forall i :: 0 <= i < |s| ==> IsSpace(s[i])
    ensures Trim(s) == ""
  {
    if s != [] {
      BlankTrimsToEmpty(s[1..]);
      assert TrimStart(s) == TrimStart(s[1..]);
    }
  }

  /** The `length` of a JavaScript string: UTF-16 code units, so a code point
      outside the Basic Multilingual Plane counts twice. Mongoose's
      `maxlength` compares against this number. */
  function JsLength(s: string): (n: nat)
    ensures |s| <= n <= 2 * |s|
  {
    if s == [] then 0 else (if s[0] as int >= 0x1_0000 then 2 else 1) + JsLength(s[1..])
  }

  /** `s.startsWith(p)`. */
  predicate StartsWith(s: string, p: string) {
    |p| <= |s| && s[..|p|] == p
  }

  /** `s.split(c)[0]`: the part of `s` before the first `c`, or all of `s`. */
  function BeforeFirst(s: string, c: char): (r: string)
    ensures StartsWith(s, r)
    ensures c !in r
    ensures |r| < |s| ==> s[|r|] == c
  {
    if s == [] || s[0] == c then "" else [s[0]] + BeforeFirst(s[1..], c)
  }

  /** `xs.join(sep)`. */
  function Join(xs: seq<string>, sep: string): string {
    if |xs| == 0 then "" else if |xs| == 1 then xs[0] else xs[0] + sep + Join(xs[1..], sep)
  }

  /** Joining grows at the end one separator and one item at a time, so the
      items appear in the joined text in their original order. */
  lemma {:induction false} JoinAppend(xs: seq<string>, y: string, sep: string)
    requires xs != []
    ensures Join(xs + [y], sep) == Join(xs, sep) + sep + y
  {
    if |xs| == 1 {
      assert xs + [y] == [xs[0], y];
    } else {
      assert (xs + [y])[1..] == xs[1..] + [y];
      JoinAppend(xs[1..], y, sep);
    }
  }

  /** No element occurs twice in `s`. */
  predicate NoDup(s: seq<Id>) {
    forall x | x in s :: multiset(s)[x] == 1
  }
}
