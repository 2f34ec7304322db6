/**
 * Two builders of the user data-access layer: the SET clause of the user
 * update, grown one assignment at a time for the truthy fields of the
 * request, and the parameter list of the user insert, with the Lattes id
 * taken from a researcher lookup when one matches.
 */
module SystemDao {
  import opened Wrappers

  // ---------------------------------------------------------------------
  // update_user

  /** A value of the request dictionary, with Python's truthiness. */
  datatype Value = Str(s: string) | Flag(b: bool) | Number(n: int) | Null
  {
    predicate Truthy()
    {
      match this
      case Str(s) => s != ""
      case Flag(b) => b
      case Number(n) => n != 0
      case Null => false
    }
  }

  /** The seven columns the update may set, in the order it tests them. */
  datatype Field = Linkedin | LattesId | InstitutionId | Verify | Email | PhotoUrl | Provider
  {
    function Name(): string
    {
      match this
      case Linkedin => "linkedin"
      case LattesId => "lattes_id"
      case InstitutionId => "institution_id"
      case Verify => "verify"
      case Email => "email"
      case PhotoUrl => "photo_url"
      case Provider => "provider"
    }
  }

  /** The `i`-th of the seven columns, in the order the update tests them. */
  function FieldAt(i: nat): Field
    requires i < 7
  {
    [Linkedin, LattesId, InstitutionId, Verify, Email, PhotoUrl, Provider][i]
  }

  /** The statement text before any assignment. */
  const Template: string := "\n    UPDATE users\n    SET\n    "

  const WhereUid: string := "WHERE uid = %(uid)s"

  /** `user.get(name)` is truthy. */
  predicate Given(user: map<string, Value>, f: Field)
  {
    f.Name() in user && user[f.Name()].Truthy()
  }

  /** `name = %(name)s`. */
  function Assignment(f: Field): string
  {
    f.Name() + " = %(" + f.Name() + ")s"
  }

  /** What the update appends for a truthy field: its assignment and a comma. */
  function Piece(f: Field): string
  {
    Assignment(f) + ","
  }

  /** The text appended for the first `n` fields. */
  function Assignments(user: map<string, Value>, n: nat): string
    requires n <= 7
  {
    if n == 0 then ""
    else Assignments(user, n - 1) + (if Given(user, FieldAt(n - 1)) then Piece(FieldAt(n - 1)) else "")
  }

  /** `text` after the first `n` field tests have appended to it. */
  function Grow(text: string, user: map<string, Value>, n: nat): (r: string)
    requires n <= 7
    ensures |r| >= |text|
  {
    if n == 0 then text
    else Grow(text, user, n - 1) + (if Given(user, FieldAt(n - 1)) then Piece(FieldAt(n - 1)) else "")
  }

  lemma {:induction false} GrowAppends(text: string, user: map<string, Value>, n: nat)
    requires n <= 7
    ensures Grow(text, user, n) == text + Assignments(user, n)
  {
    if n > 0 {
      GrowAppends(text, user, n - 1);
    }
  }

  /** The statement `update_user` sends: one leading space, the text without its last character, a space, the WHERE. */
  function Statement(user: map<string, Value>): string
  {
    var grown := Grow(Template, user, 7);
    " " + grown[..|grown| - 1] + " " + WhereUid
  }

  /** `update_user`: appends `name = %(name)s,` for each truthy field, drops the last character, adds the WHERE. */
  method UpdateUser(user: map<string, Value>) returns (sql: string)
    ensures sql == Statement(user)
  {
    sql := Template;
    sql := AppendIfGiven(user, 1, Template, sql);  // linkedin
    sql := AppendIfGiven(user, 2, Template, sql);  // lattes_id
    sql := AppendIfGiven(user, 3, Template, sql);  // institution_id
    sql := AppendIfGiven(user, 4, Template, sql);  // verify
    sql := AppendIfGiven(user, 5, Template, sql);  // email
    sql := AppendIfGiven(user, 6, Template, sql);  // photo_url
    sql := AppendIfGiven(user, 7, Template, sql);  // provider
    StatementOf(user, sql);
    sql := " " + sql[..|sql| - 1] + " ";
    sql := sql + WhereUid;
  }

  lemma StatementOf(user: map<string, Value>, grown: string)
    requires grown == Grow(Template, user, 7)
    ensures |grown| > 0 && Statement(user) == " " + grown[..|grown| - 1] + " " + WhereUid
  {
  }

  /**
   * One `if user.get(name): SCRIPT_SQL += "name = %(name)s,"` of `update_user`,
   * for the `i`-th column: `sql` holds `text` after the first `i - 1` tests.
   */
  method AppendIfGiven(user: map<string, Value>, i: nat, text: string, sql: string) returns (grown: string)
    requires 0 < i <= 7 && sql == Grow(text, user, i - 1)
    ensures grown == Grow(text, user, i)
    ensures Given(user, FieldAt(i - 1)) ==> grown == sql + Piece(FieldAt(i - 1))
    ensures !Given(user, FieldAt(i - 1)) ==> grown == sql
  {
    var f := FieldAt(i - 1);
    grown := sql;
    if Given(user, f) {
      grown := grown + Piece(f);
    }
  }

  /** The fields among the first `n` that the update writes, in order. */
  function GivenFields(user: map<string, Value>, n: nat): (r: seq<Field>)
    requires n <= 7
    ensures |r| <= n
    ensures forall f :: f in r ==> Given(user, f)
  {
    if n == 0 then []
    else GivenFields(user, n - 1) + (if Given(user, FieldAt(n - 1)) then [FieldAt(n - 1)] else [])
  }

  /** `",".join(...)` of the assignments. */
  function JoinAssignments(fs: seq<Field>): string
  {
    if fs == [] then ""
    else if |fs| == 1 then Assignment(fs[0])
    else JoinAssignments(fs[..|fs| - 1]) + "," + Assignment(fs[|fs| - 1])
  }

  /** The appended text is the comma-joined assignments of the given fields, plus one trailing comma. */
  lemma {:induction false} AssignmentsJoined(user: map<string, Value>, n: nat)
    requires n <= 7
    ensures GivenFields(user, n) == [] ==> Assignments(user, n) == ""
    ensures GivenFields(user, n) != [] ==>
              Assignments(user, n) == JoinAssignments(GivenFields(user, n)) + ","
  {
    if n > 0 {
      AssignmentsJoined(user, n - 1);
      var f := FieldAt(n - 1);
      var g, prefix := GivenFields(user, n - 1), Assignments(user, n - 1);
      if Given(user, f) {
        assert GivenFields(user, n) == g + [f];
        assert Assignments(user, n) == prefix + Piece(f);
        JoinedStep(g, f, prefix);
      } else {
        assert g + [] == g && prefix + "" == prefix;
        assert GivenFields(user, n) == g;
        assert Assignments(user, n) == prefix;
      }
    }
  }

  /** Appending one given field extends the joined text by a comma and its assignment. */
  lemma JoinedStep(g: seq<Field>, f: Field, prefix: string)
    requires g == [] ==> prefix == ""
    requires g != [] ==> prefix == JoinAssignments(g) + ","
    ensures prefix + Piece(f) == JoinAssignments(g + [f]) + ","
  {
    var h := g + [f];
    assert h[..|h| - 1] == g && h[|h| - 1] == f;
    if g != [] {
      CommaAssoc(JoinAssignments(g), Assignment(f));
    }
  }

  lemma CommaAssoc(a: string, b: string)
    ensures (a + ",") + (b + ",") == (a + "," + b) + ","
  {
  }

  /** Every field the update writes is truthy, and every truthy field is written. */
  lemma {:induction false} GivenFieldsComplete(user: map<string, Value>, n: nat, i: nat)
    requires i < n <= 7
    ensures FieldAt(i) in GivenFields(user, n) <==> Given(user, FieldAt(i))
  {
    if i < n - 1 {
      GivenFieldsComplete(user, n - 1, i);
    }
  }

  /**
   * With at least one truthy field the statement is the template, the
   * comma-joined assignments in the fixed field order, and the WHERE: only
   * the trailing comma is dropped.
   */
  lemma SetClause(user: map<string, Value>)
    requires GivenFields(user, 7) != []
    ensures Statement(user) == " " + (Template + JoinAssignments(GivenFields(user, 7))) + " " + WhereUid
  {
    AssignmentsJoined(user, 7);
    GrowAppends(Template, user, 7);
    DropComma(Template, JoinAssignments(GivenFields(user, 7)), Grow(Template, user, 7));
  }

  lemma DropComma(text: string, j: string, grown: string)
    requires grown == text + (j + ",")
    ensures |grown| > 0 && grown[..|grown| - 1] == text + j
  {
    assert grown == (text + j) + ",";
  }

  /** With no truthy field the SET is empty: the slice eats the template's last space and the f-string puts one back. */
  lemma EmptySet(user: map<string, Value>)
    requires GivenFields(user, 7) == []
    ensures Statement(user) == " " + Template + WhereUid
  {
    AssignmentsJoined(user, 7);
    GrowAppends(Template, user, 7);
    assert Template + "" == Template;
    assert Template[..|Template| - 1] + " " == Template;
  }

  /** The statement always ends with the WHERE on the uid. */
  lemma EndsWithWhere(user: map<string, Value>)
    ensures |Statement(user)| >= |WhereUid|
    ensures Statement(user)[|Statement(user)| - |WhereUid|..] == WhereUid
  {
  }

  /**
   * A falsy value is never written, and a key outside the seven is never
   * read: setting either changes nothing compared with leaving the key out.
   * In particular `verify` can never be set back to False.
   */
  lemma IgnoredKey(user: map<string, Value>, k: string, v: Value)
    requires !v.Truthy() || forall f: Field :: f.Name() != k
    ensures Statement(user[k := v]) == Statement(user - {k})
  {
    SameAssignments(user[k := v], user - {k}, 7);
    GrowAppends(Template, user[k := v], 7);
    GrowAppends(Template, user - {k}, 7);
  }

  lemma {:induction false} SameAssignments(u1: map<string, Value>, u2: map<string, Value>, n: nat)
    requires n <= 7
    requires forall f: Field :: Given(u1, f) == Given(u2, f)
    ensures Assignments(u1, n) == Assignments(u2, n)
  {
    if n > 0 {
      SameAssignments(u1, u2, n - 1);
    }
  }

  // ---------------------------------------------------------------------
  // create_user

  /** The fields of the user model that the insert reads. */
  class User {
    var displayName: Option<string>
    var email: string
    var uid: string
    /** The text `str()` gives of the validated, normalised URL. */
    var photoUrl: Option<string>
    var linkedin: Option<string>
    var provider: Option<string>
    var lattesId: Option<string>

    constructor (displayName: Option<string>, email: string, uid: string, photoUrl: Option<string>,
                 linkedin: Option<string>, provider: Option<string>, lattesId: Option<string>)
      ensures this.displayName == displayName && this.email == email && this.uid == uid
      ensures this.photoUrl == photoUrl && this.linkedin == linkedin
      ensures this.provider == provider && this.lattesId == lattesId
    {
      this.displayName := displayName;
      this.email := email;
      this.uid := uid;
      this.photoUrl := photoUrl;
      this.linkedin := linkedin;
      this.provider := provider;
      this.lattesId := lattesId;
    }

    /**
     * `create_user` up to the insert: `lookup` is the first column of the
     * rows the name lookup returned; the first one, if any, replaces the
     * Lattes id. Returns the seven insert parameters.
     */
    method CreateUser(lookup: seq<Option<string>>) returns (params: seq<Option<string>>)
      modifies this`lattesId
      ensures lattesId == if lookup != [] then lookup[0] else old(lattesId)
      ensures params == InsertParams(displayName, email, uid, photoUrl, linkedin, provider, lattesId)
    {
      if lookup != [] {
        lattesId := lookup[0];
      }
      params := [displayName, Some(email), Some(uid), Some(PyStr(photoUrl)),
                 Some(OrEmpty(linkedin)), Some(OrEmpty(provider)), Some(OrEmpty(lattesId))];
    }
  }

  /** `str(x)`: a missing value renders as the text "None". */
  function PyStr(o: Option<string>): string
  {
    if o.Some? then o.value else "None"
  }

  /** `x or str()`. */
  function OrEmpty(o: Option<string>): string
  {
    if o.Some? then o.value else ""
  }

  /**
   * The insert parameters in column order: present values pass through, and
   * `str(photoURL) or str()` never yields "" for a missing URL.
   */
  function InsertParams(displayName: Option<string>, email: string, uid: string, photoUrl: Option<string>,
                        linkedin: Option<string>, provider: Option<string>, lattesId: Option<string>)
    : (r: seq<Option<string>>)
    ensures |r| == 7
    ensures r[0] == displayName && r[1] == Some(email) && r[2] == Some(uid)
    ensures photoUrl.Some? ==> r[3] == photoUrl
    ensures linkedin.Some? ==> r[4] == linkedin
    ensures provider.Some? ==> r[5] == provider
    ensures lattesId.Some? ==> r[6] == lattesId
    ensures photoUrl.None? ==> r[3] == Some("None")
    ensures linkedin.None? ==> r[4] == Some("")
    ensures provider.None? ==> r[5] == Some("")
    ensures lattesId.None? ==> r[6] == Some("")
    ensures forall i :: 3 <= i < 7 ==> r[i].Some?
  {
    [displayName, Some(email), Some(uid), Some(PyStr(photoUrl)),
     Some(OrEmpty(linkedin)), Some(OrEmpty(provider)), Some(OrEmpty(lattesId))]
  }

  /** A missing photo URL is stored as "None", while the other missing texts are stored as "". */
  lemma MissingPhotoIsNone(displayName: Option<string>, email: string, uid: string)
    ensures var r := InsertParams(displayName, email, uid, None, None, None, None);
            r[3] == Some("None") && r[4] == r[5] == r[6] == Some("")
  {
  }
}
