/**
 * Two pieces of the researcher data-access layer: the CPF clean-up and
 * check that precede the remote lookup of a Lattes id, and the filter,
 * parameter and limit assembly (plus result shaping) of the basic
 * researcher query.
 */
module ResearcherDao {
  import opened Wrappers
  import opened Text

  // ---------------------------------------------------------------------
  // CPF normalisation

  /** The `ValueError` raised for a CPF that is not made of digits. */
  datatype CpfError = NotDigits

  /**
   * `cpf.strip().replace("-", "").replace(".", "")`: of the stripped text,
   * every "-" and "." is dropped and every other character is kept.
   */
  function CleanCpf(cpf: string): (r: string)
    ensures '-' !in r && '.' !in r
    ensures forall x :: x != '-' && x != '.' ==> (x in r <==> x in Strip(cpf))
    ensures |r| == |Strip(cpf)| - Count(Strip(cpf), '-') - Count(Strip(cpf), '.')
    ensures |r| <= |cpf|
  {
    CountRemoveOther(Strip(cpf), '-', '.');
    RemoveChar(RemoveChar(Strip(cpf), '-'), '.')
  }

  /** The check before the lookup: the cleaned CPF must pass `isdigit()`. */
  function CheckCpf(cpf: string): (r: Result<string, CpfError>)
    ensures r.Ok? <==> AllDigits(CleanCpf(cpf))
    ensures r.Ok? ==> r.value == CleanCpf(cpf) && |r.value| > 0
  {
    var c := CleanCpf(cpf);
    if AllDigits(c) then Ok(c) else Err(NotDigits)
  }

  /** The usual printed form "ddd.ddd.ddd-dd" of eleven digits. */
  function FormatCpf(d: string): (r: string)
    requires |d| == 11
    ensures |r| == 14
  {
    d[..3] + "." + d[3..6] + "." + d[6..9] + "-" + d[9..]
  }

  /** Both removals of the clean-up, without the strip. */
  function Unpunctuate(s: string): string
  {
    RemoveChar(RemoveChar(s, '-'), '.')
  }

  lemma {:induction false} RemoveConcat(a: string, b: string, c: char)
    ensures RemoveChar(a + b, c) == RemoveChar(a, c) + RemoveChar(b, c)
  {
    if a != [] {
      assert (a + b)[1..] == a[1..] + b;
      RemoveConcat(a[1..], b, c);
    } else {
      assert a + b == b;
    }
  }

  lemma UnpunctuateConcat(a: string, b: string)
    ensures Unpunctuate(a + b) == Unpunctuate(a) + Unpunctuate(b)
  {
    RemoveConcat(a, b, '-');
    RemoveConcat(RemoveChar(a, '-'), RemoveChar(b, '-'), '.');
  }

  /** Digits pass through unchanged. */
  lemma {:induction false} UnpunctuateDigits(s: string)
    requires forall i :: 0 <= i < |s| ==> IsDigit(s[i])
    ensures Unpunctuate(s) == s
  {
    if s != [] {
      UnpunctuateDigits(s[1..]);
      UnpunctuateConcat([s[0]], s[1..]);
      assert [s[0]] + s[1..] == s;
    }
  }

  /** A group of digits followed by one separator loses the separator. */
  lemma UnpunctuateGroup(s: string, sep: char)
    requires forall i :: 0 <= i < |s| ==> IsDigit(s[i])
    requires sep == '.' || sep == '-'
    ensures Unpunctuate(s + [sep]) == s
  {
    UnpunctuateConcat(s, [sep]);
    UnpunctuateDigits(s);
  }

  /** Round trip: the printed form of an eleven-digit CPF is accepted and cleaned back to the digits. */
  lemma CheckFormattedCpf(d: string)
    requires |d| == 11 && AllDigits(d)
    ensures CheckCpf(FormatCpf(d)) == Ok(d)
  {
    FormattedIsStripped(d);
    UnpunctuateFormatted(d);
  }

  /**
   * Surrounding whitespace is stripped first: the printed form of an
   * eleven-digit CPF, padded with whitespace on either side, is still
   * cleaned back to the digits.
   */
  lemma CheckPaddedFormattedCpf(a: string, d: string, b: string)
    requires forall k :: 0 <= k < |a| ==> IsSpace(a[k])
    requires forall k :: 0 <= k < |b| ==> IsSpace(b[k])
    requires |d| == 11 && AllDigits(d)
    ensures CheckCpf(a + FormatCpf(d) + b) == Ok(d)
  {
    var f := FormatCpf(d);
    assert f[0] == d[0] && f[13] == d[10];
    StripPadded(a, f, b);
    UnpunctuateFormatted(d);
  }

  lemma FormattedIsStripped(d: string)
    requires |d| == 11 && AllDigits(d)
    ensures Strip(FormatCpf(d)) == FormatCpf(d)
  {
    var f := FormatCpf(d);
    assert f[0] == d[0] && f[13] == d[10];
    StripUnchanged(f);
  }

  lemma UnpunctuateFormatted(d: string)
    requires |d| == 11 && AllDigits(d)
    ensures Unpunctuate(FormatCpf(d)) == d
  {
    var a, b, c, e := d[..3], d[3..6], d[6..9], d[9..];
    assert FormatCpf(d) == (a + ".") + (b + ".") + (c + "-") + e;
    UnpunctuateGroups(a, b, c, e);
    assert a + b + c + e == d;
  }

  lemma UnpunctuateGroups(a: string, b: string, c: string, e: string)
    requires forall i :: 0 <= i < |a| ==> IsDigit(a[i])
    requires forall i :: 0 <= i < |b| ==> IsDigit(b[i])
    requires forall i :: 0 <= i < |c| ==> IsDigit(c[i])
    requires forall i :: 0 <= i < |e| ==> IsDigit(e[i])
    ensures Unpunctuate((a + ".") + (b + ".") + (c + "-") + e) == a + b + c + e
  {
    UnpunctuateConcat((a + ".") + (b + ".") + (c + "-"), e);
    UnpunctuateConcat((a + ".") + (b + "."), c + "-");
    UnpunctuateConcat(a + ".", b + ".");
    UnpunctuateGroup(a, '.');
    UnpunctuateGroup(b, '.');
    UnpunctuateGroup(c, '-');
    UnpunctuateDigits(e);
  }

  /** "123.456.789-09" becomes "12345678909". */
  lemma SampleCpf()
    ensures CheckCpf("123.456.789-09") == Ok("12345678909")
  {
    SampleFormat();
    CheckFormattedCpf("12345678909");
  }

  lemma SampleFormat()
    ensures AllDigits("12345678909")
    ensures FormatCpf("12345678909") == "123.456.789-09"
  {
    var d := "12345678909";
    assert d[..3] == "123" && d[3..6] == "456" && d[6..9] == "789" && d[9..] == "09";
  }

  /** A CPF with a space left after stripping (between two digits, say) is rejected before any lookup. */
  lemma InternalSpaceRejected(cpf: string, i: nat)
    requires i < |Strip(cpf)| && Strip(cpf)[i] == ' '
    ensures CheckCpf(cpf).Err?
  {
    SpaceSurvives(Strip(cpf), i);
  }

  /** A space survives the removal of "-" and ".", so the result fails `isdigit()`. */
  lemma SpaceSurvives(s: string, i: nat)
    requires i < |s| && s[i] == ' '
    ensures !AllDigits(Unpunctuate(s))
  {
    assert ' ' in s;
    var u := RemoveChar(s, '-');
    assert ' ' in u;
    var v := RemoveChar(u, '.');
    assert ' ' in v;
    var k :| 0 <= k < |v| && v[k] == ' ';
    assert !IsDigit(v[k]);
  }

  /** A blank CPF is rejected: `"".isdigit()` is false. */
  lemma BlankCpfRejected()
    ensures CheckCpf("").Err?
  {
    assert Strip("") == "";
  }

  // ---------------------------------------------------------------------
  // Basic researcher query

  /**
   * The optional arguments, as the query route passes them: query-string
   * text or nothing, so the row count too is text ("0" is truthy).
   * An argument is truthy when present and non-empty.
   */
  datatype Query = Query(
    institutionId: Option<string>,
    researcherName: Option<string>,
    rows: Option<string>,
    lattesId: Option<string>,
    researcherId: Option<string>)

  predicate Truthy(o: Option<string>)
  {
    o.Some? && o.value != ""
  }

  /** The WHERE conditions, in the order the query adds them. */
  datatype Condition = NotGraduateStudent | InstitutionIs | NameLike | ResearcherIdIs | LattesIdIs
  {
    function Rank(): nat
    {
      match this
      case NotGraduateStudent => 0
      case InstitutionIs => 1
      case NameLike => 2
      case ResearcherIdIs => 3
      case LattesIdIs => 4
    }

    /** The named parameter the condition's placeholder refers to, if any. */
    function Param(): Option<ParamKey>
    {
      match this
      case NotGraduateStudent => None
      case InstitutionIs => Some(InstitutionIdKey)
      case NameLike => Some(ResearcherNameKey)
      case ResearcherIdIs => Some(ResearcherIdKey)
      case LattesIdIs => Some(LattesIdKey)
    }

    /** The SQL text; every placeholder in it is that of `Param()`. */
    function Sql(): string
    {
      match this
      case NotGraduateStudent => "r.researcher_id NOT IN (SELECT researcher_id FROM graduate_program_student)"
      case InstitutionIs => "r.institution_id = " + Placeholder(InstitutionIdKey)
      case NameLike => "r.name ILIKE " + Placeholder(ResearcherNameKey)
      case ResearcherIdIs => "r.researcher_id = " + Placeholder(ResearcherIdKey)
      case LattesIdIs => "r.lattes_id = " + Placeholder(LattesIdKey)
    }
  }

  /** The keys of the `params` dictionary. */
  datatype ParamKey = InstitutionIdKey | ResearcherNameKey | ResearcherIdKey | LattesIdKey | RowsKey
  {
    function Name(): string
    {
      match this
      case InstitutionIdKey => "institution_id"
      case ResearcherNameKey => "researcher_name"
      case ResearcherIdKey => "researcher_id"
      case LattesIdKey => "lattes_id"
      case RowsKey => "rows"
    }
  }

  /** psycopg2's named placeholder `%(name)s`. */
  function Placeholder(k: ParamKey): string
  {
    "%(" + k.Name() + ")s"
  }

  datatype ParamValue = Text(text: string)

  /** `' AND '.join(...)`. */
  function JoinWith(parts: seq<string>, sep: string): string
  {
    if parts == [] then ""
    else if |parts| == 1 then parts[0]
    else parts[0] + sep + JoinWith(parts[1..], sep)
  }

  function Sqls(cs: seq<Condition>): (r: seq<string>)
    ensures |r| == |cs|
    ensures forall i :: 0 <= i < |cs| ==> r[i] == cs[i].Sql()
  {
    seq(|cs|, i requires 0 <= i < |cs| => cs[i].Sql())
  }

  /** The parameter names the conditions refer to. */
  function ParamNames(cs: seq<Condition>): set<ParamKey>
  {
    if cs == [] then {}
    else (if cs[0].Param().Some? then {cs[0].Param().value} else {}) + ParamNames(cs[1..])
  }

  /** Each condition at most once, in the order the query adds them. */
  predicate Ascending(cs: seq<Condition>)
  {
    forall i, j :: 0 <= i < j < |cs| ==> cs[i].Rank() < cs[j].Rank()
  }

  /** What the query builder produces before the SQL round trip. */
  datatype Built = Built(
    one: bool,
    conditions: seq<Condition>,
    params: map<ParamKey, ParamValue>,
    whereClause: string,
    limitClause: string)

  /** Single mode: a Lattes id or a researcher id is given. */
  predicate One(q: Query)
  {
    Truthy(q.lattesId) || Truthy(q.researcherId)
  }

  function Optional<T>(present: bool, x: T): seq<T>
  {
    if present then [x] else []
  }

  /** The conditions of a query, in the order the builder appends them. */
  function Wanted(q: Query): seq<Condition>
  {
    Optional(!One(q), NotGraduateStudent)
    + Optional(Truthy(q.institutionId), InstitutionIs)
    + Optional(Truthy(q.researcherName), NameLike)
    + (if Truthy(q.researcherId) then [ResearcherIdIs] else Optional(Truthy(q.lattesId), LattesIdIs))
  }

  /** The value bound to each parameter a condition of `q` names. */
  function Binding(q: Query, k: ParamKey): ParamValue
  {
    match k
    case InstitutionIdKey => Text(TextOf(q.institutionId))
    case ResearcherNameKey => Text("%" + TextOf(q.researcherName) + "%")
    case ResearcherIdKey => Text(TextOf(q.researcherId))
    case LattesIdKey => Text(TextOf(q.lattesId))
    case RowsKey => Text(TextOf(q.rows))
  }

  function TextOf(o: Option<string>): string
  {
    if o.Some? then o.value else ""
  }

  /**
   * The condition and parameter assembly of `researcher_basic_query`:
   * every appended condition binds the parameter its placeholder names.
   */
  method Conditions(q: Query) returns (one: bool, conditions: seq<Condition>, params: map<ParamKey, ParamValue>)
    ensures one == One(q)
    ensures conditions == Wanted(q)
    ensures params.Keys == ParamNames(conditions)
    ensures forall k :: k in params ==> params[k] == Binding(q, k)
  {
    params := map[];
    conditions := [];
    one := Truthy(q.lattesId) || Truthy(q.researcherId);
    if !one {
      conditions := conditions + [NotGraduateStudent];
    }
    if Truthy(q.institutionId) {
      conditions, params := AddCondition(q, InstitutionIs, conditions, params);
    }
    if Truthy(q.researcherName) {
      conditions, params := AddCondition(q, NameLike, conditions, params);
    }
    if Truthy(q.researcherId) {
      conditions, params := AddCondition(q, ResearcherIdIs, conditions, params);
    } else if Truthy(q.lattesId) {
      conditions, params := AddCondition(q, LattesIdIs, conditions, params);
    }
  }

  /** `where_conditions.append(...)` together with `params[name] = value` for the condition's placeholder. */
  method AddCondition(q: Query, c: Condition, conditions: seq<Condition>, params: map<ParamKey, ParamValue>)
    returns (conditions': seq<Condition>, params': map<ParamKey, ParamValue>)
    requires c.Param().Some?
    requires params.Keys == ParamNames(conditions)
    requires forall k :: k in params ==> params[k] == Binding(q, k)
    ensures conditions' == conditions + [c]
    ensures params'.Keys == ParamNames(conditions')
    ensures forall k :: k in params' ==> params'[k] == Binding(q, k)
  {
    ParamNamesAppend(conditions, c);
    conditions' := conditions + [c];
    params' := params[c.Param().value := Binding(q, c.Param().value)];
  }

  /**
   * The conditions of a query: the exclusion exactly outside single mode, one
   * condition per truthy filter, the researcher id winning over the Lattes
   * id, never empty, and each at most once in a fixed order.
   */
  lemma WantedConditions(q: Query)
    ensures NotGraduateStudent in Wanted(q) <==> !One(q)
    ensures InstitutionIs in Wanted(q) <==> Truthy(q.institutionId)
    ensures NameLike in Wanted(q) <==> Truthy(q.researcherName)
    ensures ResearcherIdIs in Wanted(q) <==> Truthy(q.researcherId)
    ensures LattesIdIs in Wanted(q) <==> Truthy(q.lattesId) && !Truthy(q.researcherId)
    ensures Wanted(q) != []
    ensures Ascending(Wanted(q))
  {
    WantedNonEmpty(q);
    WantedAscending(q);
  }

  /** Outside single mode the exclusion is there; in single mode an id condition is. */
  lemma WantedNonEmpty(q: Query)
    ensures Wanted(q) != []
  {
  }

  lemma WantedAscending(q: Query)
    ensures Ascending(Wanted(q))
  {
    var w := Wanted(q);
    forall i, j | 0 <= i < j < |w|
      ensures w[i].Rank() < w[j].Rank()
    {
    }
  }

  /**
   * `researcher_basic_query` up to the database call: the conditions joined
   * with " AND " after "WHERE", and LIMIT only for a truthy row count.
   */
  method BasicQuery(q: Query) returns (b: Built)
    ensures b.one == One(q)
    ensures b.conditions == Wanted(q)
    ensures b.whereClause == "WHERE " + JoinWith(Sqls(b.conditions), " AND ")
    ensures b.params.Keys == ParamNames(b.conditions) + (if Truthy(q.rows) then {RowsKey} else {})
    ensures forall k :: k in b.params ==> b.params[k] == Binding(q, k)
    ensures b.limitClause == if Truthy(q.rows) then "LIMIT " + Placeholder(RowsKey) else ""
  {
    var one, conditions, params := Conditions(q);
    WantedNonEmpty(q);
    var whereClause := WhereClause(conditions);
    var limitClause;
    params, limitClause := AddLimit(q, params);
    b := Built(one, conditions, params, whereClause, limitClause);
  }

  /**
   * `if where_conditions: where_clause = f"WHERE {' AND '.join(...)}"`: empty
   * exactly when there is no condition, otherwise "WHERE " followed by the
   * joined conditions, so that the SQL of every condition occurs in it.
   */
  method WhereClause(conditions: seq<Condition>) returns (whereClause: string)
    ensures whereClause == "" <==> conditions == []
    ensures conditions != [] ==> whereClause == "WHERE " + JoinWith(Sqls(conditions), " AND ")
    ensures forall i :: 0 <= i < |conditions| ==> Occurs(conditions[i].Sql(), whereClause)
  {
    whereClause := "";
    if conditions != [] {
      var joined := JoinWith(Sqls(conditions), " AND ");
      forall i | 0 <= i < |conditions|
        ensures Occurs(conditions[i].Sql(), "WHERE " + joined)
      {
        JoinWithContains(Sqls(conditions), " AND ", i);
        OccursAfter("WHERE ", joined, conditions[i].Sql());
      }
      whereClause := "WHERE " + joined;
    }
  }

  /** `t` occurs in `s` as a contiguous piece. */
  ghost predicate Occurs(t: string, s: string)
  {
    exists k :: OccursAt(t, s, k)
  }

  predicate OccursAt(t: string, s: string, k: int)
  {
    0 <= k && k + |t| <= |s| && s[k..k + |t|] == t
  }

  lemma OccursAfter(p: string, s: string, t: string)
    requires Occurs(t, s)
    ensures Occurs(t, p + s)
  {
    var k :| OccursAt(t, s, k);
    assert (p + s)[|p| + k..|p| + k + |t|] == t;
    assert OccursAt(t, p + s, |p| + k);
  }

  /** Every part occurs in the joined text. */
  lemma {:induction false} JoinWithContains(parts: seq<string>, sep: string, i: nat)
    requires i < |parts|
    ensures Occurs(parts[i], JoinWith(parts, sep))
  {
    var j := JoinWith(parts, sep);
    if |parts| == 1 {
      assert OccursAt(parts[0], j, 0);
    } else if i == 0 {
      assert j == parts[0] + (sep + JoinWith(parts[1..], sep));
      assert OccursAt(parts[0], j, 0);
    } else {
      JoinWithContains(parts[1..], sep, i - 1);
      assert parts[1..][i - 1] == parts[i];
      assert j == (parts[0] + sep) + JoinWith(parts[1..], sep);
      OccursAfter(parts[0] + sep, JoinWith(parts[1..], sep), parts[i]);
    }
  }

  /** `if rows: params['rows'] = rows; LIMIT %(rows)s`. */
  method AddLimit(q: Query, params: map<ParamKey, ParamValue>) returns (bound: map<ParamKey, ParamValue>, limitClause: string)
    requires forall k :: k in params ==> params[k] == Binding(q, k)
    ensures bound.Keys == params.Keys + (if Truthy(q.rows) then {RowsKey} else {})
    ensures forall k :: k in bound ==> bound[k] == Binding(q, k)
    ensures limitClause == if Truthy(q.rows) then "LIMIT " + Placeholder(RowsKey) else ""
  {
    bound, limitClause := params, "";
    if Truthy(q.rows) {
      limitClause := "LIMIT " + Placeholder(RowsKey);
      bound := bound[RowsKey := Text(q.rows.value)];
    }
  }

  lemma {:induction false} ParamNamesAppend(cs: seq<Condition>, c: Condition)
    ensures ParamNames(cs + [c]) == ParamNames(cs) + (if c.Param().Some? then {c.Param().value} else {})
  {
    if cs != [] {
      assert (cs + [c])[1..] == cs[1..] + [c];
      ParamNamesAppend(cs[1..], c);
    } else {
      assert ParamNames([c]) == ParamNames([]) + (if c.Param().Some? then {c.Param().value} else {}) by {
        assert [c][1..] == [];
      }
    }
  }

  /** Every placeholder of a built WHERE clause has its parameter: the names the conditions use are keys. */
  lemma {:induction false} ParamNamesCover(cs: seq<Condition>, i: nat)
    requires i < |cs| && cs[i].Param().Some?
    ensures cs[i].Param().value in ParamNames(cs)
  {
    if i > 0 {
      ParamNamesCover(cs[1..], i - 1);
    }
  }

  // ---------------------------------------------------------------------
  // Result shaping

  /** One selected row. */
  datatype ResearcherRow = ResearcherRow(
    researcherId: string, name: string, lattesId: string, institutionId: string,
    createdAt: string, status: string, extraField: string)

  /** A returned record: the row without `created_at`. */
  datatype ResearcherRecord = ResearcherRecord(
    researcherId: string, name: string, lattesId: string, institutionId: string,
    status: string, extraField: string)

  /** `{}`, a list of records, or a single record. */
  datatype QueryResult = EmptyObject | Records(records: seq<ResearcherRecord>) | Single(record: ResearcherRecord)

  function DropCreatedAt(r: ResearcherRow): ResearcherRecord
  {
    ResearcherRecord(r.researcherId, r.name, r.lattesId, r.institutionId, r.status, r.extraField)
  }

  function ToRecords(rows: seq<ResearcherRow>): (r: seq<ResearcherRecord>)
    ensures |r| == |rows|
    ensures forall i :: 0 <= i < |rows| ==> r[i] == DropCreatedAt(rows[i])
  {
    if rows == [] then [] else [DropCreatedAt(rows[0])] + ToRecords(rows[1..])
  }

  /** The result shaping at the end of `researcher_basic_query`. */
  function Shape(one: bool, registry: seq<ResearcherRow>): (r: QueryResult)
    ensures registry == [] ==> r == (if one then EmptyObject else Records([]))
    ensures registry != [] && one ==> r == Single(DropCreatedAt(registry[0]))
    ensures registry != [] && !one ==> r.Records? && |r.records| == |registry|
                                       && forall i :: 0 <= i < |registry| ==> r.records[i] == DropCreatedAt(registry[i])
  {
    if registry == [] then (if one then EmptyObject else Records([]))
    else
      var records := ToRecords(registry);
      if one then Single(records[0]) else Records(records)
  }
}
