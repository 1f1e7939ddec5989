/**
 Read-only grants against their verification: what the statements do to a database's privileges, what the
 verification queries then report, and how the report is read.
 */
module Grants {
  import opened Quoting
  import opened Wrappers

  type Name = string

  datatype Options = Options(database: Name, account: Name, schemas: seq<Name>, ownerRoles: seq<Name>)

  datatype Statement =
    | GrantConnect(database: Name, account: Name)
    | DefaultReadOnly(account: Name)
    | GrantUsage(schema: Name, account: Name)
    | GrantSelectOnAllTables(schema: Name, account: Name)
    | RevokeCreate(schema: Name, account: Name)
    | DefaultSelect(role: Name, schema: Name, account: Name)

  // ---- Building the statements ----

  function ForRoles(options: Options, schema: Name, roles: seq<Name>): seq<Statement> {
    if roles == [] then []
    else ForRoles(options, schema, roles[..|roles| - 1]) + [DefaultSelect(roles[|roles| - 1], schema, options.account)]
  }

  function ForSchemas(options: Options, schemas: seq<Name>): seq<Statement> {
    if schemas == [] then []
    else
      var schema := schemas[|schemas| - 1];
      ForSchemas(options, schemas[..|schemas| - 1])
      + [GrantUsage(schema, options.account), GrantSelectOnAllTables(schema, options.account),
         RevokeCreate(schema, options.account)]
      + ForRoles(options, schema, options.ownerRoles)
  }

  function Statements(options: Options): seq<Statement> {
    [GrantConnect(options.database, options.account), DefaultReadOnly(options.account)]
    + ForSchemas(options, options.schemas)
  }

  method BuildGrantStatements(options: Options) returns (statements: seq<Statement>)
    ensures statements == Statements(options)
  {
    statements := [GrantConnect(options.database, options.account), DefaultReadOnly(options.account)];
    for i := 0 to |options.schemas|
      invariant statements ==
                [GrantConnect(options.database, options.account), DefaultReadOnly(options.account)]
                + ForSchemas(options, options.schemas[..i])
    {
      var schema := options.schemas[i];
      ghost var before := statements;
      statements := statements + [GrantUsage(schema, options.account),
                                  GrantSelectOnAllTables(schema, options.account),
                                  RevokeCreate(schema, options.account)];
      ghost var prefix := statements;
      for j := 0 to |options.ownerRoles|
        invariant statements == prefix + ForRoles(options, schema, options.ownerRoles[..j])
      {
        assert options.ownerRoles[..j + 1][..j] == options.ownerRoles[..j];
        statements := statements + [DefaultSelect(options.ownerRoles[j], schema, options.account)];
      }
      assert options.ownerRoles[..|options.ownerRoles|] == options.ownerRoles;
      assert options.schemas[..i + 1][..i] == options.schemas[..i];
    }
    assert options.schemas[..|options.schemas|] == options.schemas;
  }

  /** The statements a schema, or a schema and an owner role, contribute. */
  predicate Wanted(options: Options, st: Statement) {
    match st
    case GrantConnect(d, a) => d == options.database && a == options.account
    case DefaultReadOnly(a) => a == options.account
    case GrantUsage(s, a) => s in options.schemas && a == options.account
    case GrantSelectOnAllTables(s, a) => s in options.schemas && a == options.account
    case RevokeCreate(s, a) => s in options.schemas && a == options.account
    case DefaultSelect(r, s, a) => s in options.schemas && r in options.ownerRoles && a == options.account
  }

  lemma {:induction false} ForRolesHolds(options: Options, schema: Name, roles: seq<Name>, st: Statement)
    ensures st in ForRoles(options, schema, roles) <==>
            st.DefaultSelect? && st.role in roles && st.schema == schema && st.account == options.account
  {
    if roles != [] {
      ForRolesHolds(options, schema, roles[..|roles| - 1], st);
      assert roles == roles[..|roles| - 1] + [roles[|roles| - 1]];
    }
  }

  lemma {:induction false} ForSchemasHolds(options: Options, schemas: seq<Name>, st: Statement)
    ensures st in ForSchemas(options, schemas) <==>
            !st.GrantConnect? && !st.DefaultReadOnly? && Wanted(options.(schemas := schemas), st)
  {
    if schemas != [] {
      var schema := schemas[|schemas| - 1];
      ForSchemasHolds(options, schemas[..|schemas| - 1], st);
      ForRolesHolds(options, schema, options.ownerRoles, st);
      assert schemas == schemas[..|schemas| - 1] + [schema];
    }
  }

  /** The list holds exactly the wanted statements. */
  lemma StatementsAreWanted(options: Options, st: Statement)
    ensures st in Statements(options) <==> Wanted(options, st)
  {
    ForSchemasHolds(options, options.schemas, st);
  }

  // ---- What statements do ----

  datatype Table = Table(schema: Name, owner: Name, readers: set<Name>, writers: set<Name>)

  /** A default privilege on tables `owner` will create in `schema`. */
  datatype Default = Default(owner: Name, schema: Name, grantee: Name, write: bool)

  datatype SchemaGrants = SchemaGrants(usage: set<(Name, Name)>, create: set<(Name, Name)>)

  datatype Database = Database(
    connect: set<(Name, Name)>,
    readOnlyByDefault: set<Name>,
    schemas: SchemaGrants,
    tables: map<nat, Table>,
    defaults: set<Default>,
    memberOf: map<Name, set<Name>>)

  function ReadableBy(tables: map<nat, Table>, schema: Name, account: Name): map<nat, Table> {
    map t | t in tables ::
      if tables[t].schema == schema then tables[t].(readers := tables[t].readers + {account}) else tables[t]
  }

  function Execute(db: Database, st: Statement): Database {
    match st
    case GrantConnect(d, a) => db.(connect := db.connect + {(d, a)})
    case DefaultReadOnly(a) => db.(readOnlyByDefault := db.readOnlyByDefault + {a})
    case GrantUsage(s, a) => db.(schemas := db.schemas.(usage := db.schemas.usage + {(s, a)}))
    case GrantSelectOnAllTables(s, a) => db.(tables := ReadableBy(db.tables, s, a))
    case RevokeCreate(s, a) => db.(schemas := db.schemas.(create := db.schemas.create - {(s, a)}))
    case DefaultSelect(r, s, a) => db.(defaults := db.defaults + {Default(r, s, a, false)})
  }

  function Run(db: Database, statements: seq<Statement>): Database
    decreases |statements|
  {
    if statements == [] then db else Run(Execute(db, statements[0]), statements[1..])
  }

  /** A table created later: its owner may do anything, the rest is up to the default privileges. */
  function CreateTable(db: Database, id: nat, owner: Name, schema: Name): Database {
    var readers := set d | d in db.defaults && d.owner == owner && d.schema == schema && !d.write :: d.grantee;
    var writers := set d | d in db.defaults && d.owner == owner && d.schema == schema && d.write :: d.grantee;
    db.(tables := db.tables[id := Table(schema, owner, {owner} + readers, {owner} + writers)])
  }

  // ---- Running them again ----

  lemma ExecuteTwice(db: Database, st: Statement)
    ensures Execute(Execute(db, st), st) == Execute(db, st)
  {
    if st.GrantSelectOnAllTables? {
      var once := ReadableBy(db.tables, st.schema, st.account);
      assert ReadableBy(once, st.schema, st.account) == once;
    }
  }

  lemma TablesCommute(tables: map<nat, Table>, s: Name, a: Name, s': Name, a': Name)
    ensures ReadableBy(ReadableBy(tables, s, a), s', a') == ReadableBy(ReadableBy(tables, s', a'), s, a)
  {
    var one, two := ReadableBy(ReadableBy(tables, s, a), s', a'), ReadableBy(ReadableBy(tables, s', a'), s, a);
    forall t | t in tables
      ensures one[t] == two[t]
    {
      assert tables[t].readers + {a} + {a'} == tables[t].readers + {a'} + {a};
    }
  }

  /** The order of two statements never matters. */
  lemma ExecuteCommutes(db: Database, a: Statement, b: Statement)
    ensures Execute(Execute(db, a), b) == Execute(Execute(db, b), a)
  {
    if a.GrantSelectOnAllTables? && b.GrantSelectOnAllTables? {
      TablesCommute(db.tables, a.schema, a.account, b.schema, b.account);
    } else {
      SetsCommute(db, a, b);
    }
  }

  lemma SetsCommute(db: Database, a: Statement, b: Statement)
    requires !(a.GrantSelectOnAllTables? && b.GrantSelectOnAllTables?)
    ensures Execute(Execute(db, a), b) == Execute(Execute(db, b), a)
  {
  }

  /** A statement already carried out changes nothing of what the whole list leaves behind. */
  lemma {:induction false} RunAbsorbs(db: Database, st: Statement, statements: seq<Statement>)
    requires st in statements
    ensures Run(Execute(db, st), statements) == Run(db, statements)
    decreases |statements|
  {
    var first := statements[0];
    if first == st {
      ExecuteTwice(db, st);
    } else {
      assert st in statements[1..];
      ExecuteCommutes(db, st, first);
      RunAbsorbs(Execute(db, first), st, statements[1..]);
    }
  }

  /**
   Running the grants after any of their statements have been carried out, in any order and however often,
   gives what running them once gives: a rerun after a partial failure converges, and a rerun after success
   changes nothing.
   */
  lemma {:induction false} RerunConverges(db: Database, done: seq<Statement>, statements: seq<Statement>)
    requires forall i | 0 <= i < |done| :: done[i] in statements
    ensures Run(Run(db, done), statements) == Run(db, statements)
    decreases |done|
  {
    if done != [] {
      RerunConverges(Execute(db, done[0]), done[1..], statements);
      RunAbsorbs(db, done[0], statements);
    }
  }

  // ---- Reading the report ----

  /** A column of a result row, as the driver hands it over. */
  datatype Value = Bool(on: bool) | Text(text: string) | Null

  predicate Truthy(v: Value) {
    v == Bool(true) || v == Text("t") || v == Text("true")
  }

  datatype IdentityRow = IdentityRow(
    database: Value,
    username: Value,
    readOnly: Value,
    schemaUsage: Value,
    schemaCreate: Value,
    canReadAll: Value,
    canWriteAny: Value)

  datatype DefaultRow = DefaultRow(ownerRole: Name, schemaName: Name, granted: Value)

  datatype Issue =
    | NoIdentityRow
    | WrongDatabase
    | WrongUser
    | NotReadOnly
    | UsageMissing
    | CreateAllowed
    | SelectMissing
    | WriteAllowed
    | DefaultsUnreported
    | DefaultMissing(ownerRole: Name, schemaName: Name)

  datatype Verification = Verification(verified: bool, issues: seq<Issue>)

  function When(condition: bool, issue: Issue): (issues: seq<Issue>)
    ensures forall x {:trigger x in issues} :: x in issues <==> condition && x == issue
  {
    if condition then [issue] else []
  }

  function IdentityIssues(options: Options, row: IdentityRow): seq<Issue> {
    When(row.database != Text(options.database), WrongDatabase)
    + When(row.username != Text(options.account), WrongUser)
    + When(row.readOnly != Text("on"), NotReadOnly)
    + When(!Truthy(row.schemaUsage), UsageMissing)
    + When(Truthy(row.schemaCreate), CreateAllowed)
    + When(!Truthy(row.canReadAll), SelectMissing)
    + When(Truthy(row.canWriteAny), WriteAllowed)
  }

  function DefaultIssues(rows: seq<DefaultRow>): seq<Issue> {
    if rows == [] then []
    else
      var row := rows[|rows| - 1];
      DefaultIssues(rows[..|rows| - 1]) + When(!Truthy(row.granted), DefaultMissing(row.ownerRole, row.schemaName))
  }

  function Interpretation(
    options: Options, identityRows: seq<IdentityRow>, defaultRows: seq<DefaultRow>): Verification {
    if identityRows == [] then
      Verification(false, [NoIdentityRow])
    else
      var issues := IdentityIssues(options, identityRows[0])
                    + When(options.ownerRoles != [] && defaultRows == [], DefaultsUnreported)
                    + DefaultIssues(defaultRows);
      Verification(issues == [], issues)
  }

  method CheckDefaults(rows: seq<DefaultRow>) returns (issues: seq<Issue>)
    ensures issues == DefaultIssues(rows)
  {
    issues := [];
    for i := 0 to |rows|
      invariant issues == DefaultIssues(rows[..i])
    {
      assert rows[..i + 1][..i] == rows[..i];
      if !Truthy(rows[i].granted) {
        issues := issues + [DefaultMissing(rows[i].ownerRole, rows[i].schemaName)];
      }
    }
    assert rows[..|rows|] == rows;
  }

  method InterpretVerification(options: Options, identityRows: seq<IdentityRow>, defaultRows: seq<DefaultRow>)
    returns (v: Verification)
    ensures v == Interpretation(options, identityRows, defaultRows)
  {
    if identityRows == [] {
      return Verification(false, [NoIdentityRow]);
    }
    var issues := IdentityIssues(options, identityRows[0]);
    issues := issues + When(options.ownerRoles != [] && defaultRows == [], DefaultsUnreported);
    var defaultIssues := CheckDefaults(defaultRows);
    issues := issues + defaultIssues;
    v := Verification(issues == [], issues);
  }

  lemma {:induction false} NoDefaultIssuesIff(rows: seq<DefaultRow>)
    ensures DefaultIssues(rows) == [] <==> forall i | 0 <= i < |rows| :: Truthy(rows[i].granted)
  {
    if rows != [] {
      NoDefaultIssuesIff(rows[..|rows| - 1]);
    }
  }

  /** A report is verified exactly when it names the account on its database and shows nothing amiss. */
  lemma VerifiedIff(options: Options, identityRows: seq<IdentityRow>, defaultRows: seq<DefaultRow>)
    ensures var on := {Bool(true), Text("t"), Text("true")};
            Interpretation(options, identityRows, defaultRows).verified <==>
            && identityRows != []
            && var row := identityRows[0];
               && row.database == Text(options.database) && row.username == Text(options.account)
               && row.readOnly == Text("on")
               && row.schemaUsage in on && row.canReadAll in on
               && row.schemaCreate !in on && row.canWriteAny !in on
               && (options.ownerRoles == [] || defaultRows != [])
               && forall i | 0 <= i < |defaultRows| :: defaultRows[i].granted in on
  {
    NoDefaultIssuesIff(defaultRows);
  }

  /** Something amiss with the identity row. */
  predicate RowAmiss(options: Options, row: IdentityRow, issue: Issue) {
    || (issue == WrongDatabase && row.database != Text(options.database))
    || (issue == WrongUser && row.username != Text(options.account))
    || (issue == NotReadOnly && row.readOnly != Text("on"))
    || (issue == UsageMissing && !Truthy(row.schemaUsage))
    || (issue == CreateAllowed && Truthy(row.schemaCreate))
    || (issue == SelectMissing && !Truthy(row.canReadAll))
    || (issue == WriteAllowed && Truthy(row.canWriteAny))
  }

  /** A default SELECT that is reported missing. */
  ghost predicate DefaultAmiss(rows: seq<DefaultRow>, issue: Issue) {
    exists i | 0 <= i < |rows| ::
      issue == DefaultMissing(rows[i].ownerRole, rows[i].schemaName) && !Truthy(rows[i].granted)
  }

  /** And it lists an issue exactly for each thing amiss. */
  lemma IssuesIff(
    options: Options, identityRows: seq<IdentityRow>, defaultRows: seq<DefaultRow>, issue: Issue)
    requires identityRows != []
    ensures issue in Interpretation(options, identityRows, defaultRows).issues <==>
            || RowAmiss(options, identityRows[0], issue) || DefaultAmiss(defaultRows, issue)
            || (issue == DefaultsUnreported && options.ownerRoles != [] && defaultRows == [])
  {
    DefaultIssuesAre(defaultRows, issue);
    IdentityIssuesAre(options, identityRows[0], issue);
  }

  lemma IdentityIssuesAre(options: Options, row: IdentityRow, issue: Issue)
    ensures issue in IdentityIssues(options, row) <==> RowAmiss(options, row, issue)
  {
    InSeven(
      When(row.database != Text(options.database), WrongDatabase),
      When(row.username != Text(options.account), WrongUser),
      When(row.readOnly != Text("on"), NotReadOnly),
      When(!Truthy(row.schemaUsage), UsageMissing),
      When(Truthy(row.schemaCreate), CreateAllowed),
      When(!Truthy(row.canReadAll), SelectMissing),
      When(Truthy(row.canWriteAny), WriteAllowed), issue);
  }

  lemma InSeven(
    a: seq<Issue>, b: seq<Issue>, c: seq<Issue>, d: seq<Issue>, e: seq<Issue>, f: seq<Issue>, g: seq<Issue>, x: Issue)
    ensures x in a + b + c + d + e + f + g <==>
            x in a || x in b || x in c || x in d || x in e || x in f || x in g
  {
  }

  lemma {:induction false} DefaultIssuesAre(rows: seq<DefaultRow>, issue: Issue)
    ensures issue in DefaultIssues(rows) <==> DefaultAmiss(rows, issue)
  {
    if rows != [] {
      var before := rows[..|rows| - 1];
      DefaultIssuesAre(before, issue);
      if DefaultAmiss(before, issue) {
        var i :| && 0 <= i < |before| && issue == DefaultMissing(before[i].ownerRole, before[i].schemaName)
                 && !Truthy(before[i].granted);
        assert rows[i] == before[i];
      }
      if i :| && 0 <= i < |rows| && issue == DefaultMissing(rows[i].ownerRole, rows[i].schemaName)
              && !Truthy(rows[i].granted) {
        assert i < |before| ==> before[i] == rows[i];
      }
    }
  }

  // ---- What the queries report ----

  /** The roles whose privileges the account has: its own, and those it inherits (`PUBLIC` among them). */
  function RolesOf(db: Database, account: Name): set<Name> {
    {account} + if account in db.memberOf then db.memberOf[account] else {}
  }

  ghost predicate Has(grants: set<(Name, Name)>, schema: Name, roles: set<Name>) {
    exists r | r in roles :: (schema, r) in grants
  }

  ghost predicate UsesAll(db: Database, o: Options) {
    forall s | s in o.schemas :: Has(db.schemas.usage, s, RolesOf(db, o.account))
  }

  ghost predicate CreatesSomewhere(db: Database, o: Options) {
    exists s | s in o.schemas :: Has(db.schemas.create, s, RolesOf(db, o.account))
  }

  ghost predicate ReadsAll(db: Database, o: Options) {
    forall t | t in db.tables && db.tables[t].schema in o.schemas :: db.tables[t].readers * RolesOf(db, o.account) != {}
  }

  ghost predicate WritesSome(db: Database, o: Options) {
    exists t | t in db.tables && db.tables[t].schema in o.schemas :: db.tables[t].writers * RolesOf(db, o.account) != {}
  }

  /** The identity query, from a session of the account on the database. */
  ghost function IdentityOf(db: Database, o: Options): IdentityRow {
    IdentityRow(
      Text(o.database), Text(o.account), Text(if o.account in db.readOnlyByDefault then "on" else "off"),
      Bool(UsesAll(db, o)), Bool(CreatesSomewhere(db, o)), Bool(ReadsAll(db, o)), Bool(WritesSome(db, o)))
  }

  /** One row for every wanted owner and schema, in whatever order, saying whether the default SELECT is there. */
  ghost predicate ReportsDefaults(db: Database, o: Options, rows: seq<DefaultRow>) {
    && (forall r | r in rows ::
          r.ownerRole in o.ownerRoles && r.schemaName in o.schemas
          && r.granted == Bool(Default(r.ownerRole, r.schemaName, o.account, false) in db.defaults))
    && (forall role, s | role in o.ownerRoles && s in o.schemas ::
          DefaultRow(role, s, Bool(Default(role, s, o.account, false) in db.defaults)) in rows)
  }

  /** What the account may do, said of the database instead of the report. */
  ghost predicate ReadOnly(db: Database, o: Options) {
    && o.account in db.readOnlyByDefault
    && UsesAll(db, o) && !CreatesSomewhere(db, o) && ReadsAll(db, o) && !WritesSome(db, o)
    && forall role, s | role in o.ownerRoles && s in o.schemas :: Default(role, s, o.account, false) in db.defaults
  }

  /** The report says verified exactly when the database is as it should be. */
  lemma VerifiedMeansReadOnly(db: Database, o: Options, rows: seq<DefaultRow>)
    requires o.schemas != [] && ReportsDefaults(db, o, rows)
    ensures Interpretation(o, [IdentityOf(db, o)], rows).verified <==> ReadOnly(db, o)
  {
    NoDefaultIssuesIff(rows);
    var row := IdentityOf(db, o);
    assert IdentityIssues(o, row) == [] <==>
           o.account in db.readOnlyByDefault && UsesAll(db, o) && !CreatesSomewhere(db, o)
           && ReadsAll(db, o) && !WritesSome(db, o);
    if o.ownerRoles != [] {
      var role, schema := o.ownerRoles[0], o.schemas[0];
      assert DefaultRow(role, schema, Bool(Default(role, schema, o.account, false) in db.defaults)) in rows;
    }
    if forall role, s | role in o.ownerRoles && s in o.schemas :: Default(role, s, o.account, false) in db.defaults {
      assert forall i | 0 <= i < |rows| :: rows[i] in rows && Truthy(rows[i].granted);
    } else {
      var role, s :| role in o.ownerRoles && s in o.schemas && Default(role, s, o.account, false) !in db.defaults;
      assert DefaultRow(role, s, Bool(false)) in rows;
    }
  }

  // ---- Running the grants makes it so ----

  /** What a statement is for. */
  ghost predicate Achieved(db: Database, st: Statement) {
    match st
    case GrantConnect(d, a) => (d, a) in db.connect
    case DefaultReadOnly(a) => a in db.readOnlyByDefault
    case GrantUsage(s, a) => (s, a) in db.schemas.usage
    case GrantSelectOnAllTables(s, a) =>
      forall t | t in db.tables && db.tables[t].schema == s :: a in db.tables[t].readers
    case RevokeCreate(s, a) => (s, a) !in db.schemas.create
    case DefaultSelect(r, s, a) => Default(r, s, a, false) in db.defaults
  }

  /** What no grant statement touches: who may write, who inherits what, and other roles' CREATE. */
  ghost predicate SameOtherwise(before: Database, after: Database, account: Name) {
    && after.memberOf == before.memberOf && after.tables.Keys == before.tables.Keys
    && (forall t | t in before.tables ::
          && after.tables[t].writers == before.tables[t].writers && after.tables[t].schema == before.tables[t].schema
          && after.tables[t].owner == before.tables[t].owner)
    && (forall s, r | r != account :: (s, r) in after.schemas.create <==> (s, r) in before.schemas.create)
    && (forall d | d in after.defaults && d.write :: d in before.defaults)
    && (forall d | d in before.defaults :: d in after.defaults)
  }

  lemma ExecuteAchieves(db: Database, st: Statement, o: Options)
    requires Wanted(o, st)
    ensures Achieved(Execute(db, st), st) && SameOtherwise(db, Execute(db, st), o.account)
  {
  }

  lemma ExecuteKeepsAchieved(db: Database, st: Statement, achieved: Statement)
    requires Achieved(db, achieved)
    ensures Achieved(Execute(db, st), achieved)
  {
  }

  lemma {:induction false} RunKeepsAchieved(db: Database, statements: seq<Statement>, achieved: Statement)
    requires Achieved(db, achieved)
    ensures Achieved(Run(db, statements), achieved)
    decreases |statements|
  {
    if statements != [] {
      ExecuteKeepsAchieved(db, statements[0], achieved);
      RunKeepsAchieved(Execute(db, statements[0]), statements[1..], achieved);
    }
  }

  lemma {:induction false} RunAchieves(db: Database, statements: seq<Statement>, o: Options)
    requires forall i | 0 <= i < |statements| :: Wanted(o, statements[i])
    ensures forall st | st in statements :: Achieved(Run(db, statements), st)
    ensures SameOtherwise(db, Run(db, statements), o.account)
    decreases |statements|
  {
    if statements != [] {
      var next := Execute(db, statements[0]);
      ExecuteAchieves(db, statements[0], o);
      RunAchieves(next, statements[1..], o);
      RunKeepsAchieved(next, statements[1..], statements[0]);
    }
  }

  /** CREATE that revoking it from the account itself does not take away. */
  ghost predicate InheritsCreate(db: Database, o: Options) {
    exists s | s in o.schemas :: Has(db.schemas.create, s, RolesOf(db, o.account) - {o.account})
  }

  /**
   After all grants are run, the account is read-only, and the report says so, exactly when it had no
   write privilege on a listed table before and inherits no CREATE on a listed schema.
   */
  lemma GrantsMakeReadOnly(db: Database, o: Options)
    ensures ReadOnly(Run(db, Statements(o)), o) <==> !WritesSome(db, o) && !InheritsCreate(db, o)
  {
    var after := Run(db, Statements(o));
    forall i | 0 <= i < |Statements(o)|
      ensures Wanted(o, Statements(o)[i])
    {
      StatementsAreWanted(o, Statements(o)[i]);
    }
    RunAchieves(db, Statements(o), o);
    forall st | Wanted(o, st)
      ensures Achieved(after, st)
    {
      StatementsAreWanted(o, st);
    }
    assert Achieved(after, DefaultReadOnly(o.account));
    forall s | s in o.schemas
      ensures (s, o.account) in after.schemas.usage && (s, o.account) !in after.schemas.create
      ensures forall t | t in after.tables && after.tables[t].schema == s :: o.account in after.tables[t].readers
      ensures forall role | role in o.ownerRoles :: Default(role, s, o.account, false) in after.defaults
    {
      assert Achieved(after, GrantUsage(s, o.account)) && Achieved(after, RevokeCreate(s, o.account));
      assert Achieved(after, GrantSelectOnAllTables(s, o.account));
      assert forall role | role in o.ownerRoles :: Achieved(after, DefaultSelect(role, s, o.account));
    }
    forall t | t in after.tables && after.tables[t].schema in o.schemas
      ensures after.tables[t].readers * RolesOf(after, o.account) != {}
    {
      assert o.account in after.tables[t].readers * RolesOf(after, o.account);
    }
    assert UsesAll(after, o);
    assert WritesSome(after, o) == WritesSome(db, o);
    CreateAfterRun(db, after, o);
  }

  lemma CreateAfterRun(before: Database, after: Database, o: Options)
    requires SameOtherwise(before, after, o.account)
    requires forall s | s in o.schemas :: (s, o.account) !in after.schemas.create
    ensures CreatesSomewhere(after, o) == InheritsCreate(before, o)
  {
    forall s | s in o.schemas
      ensures Has(after.schemas.create, s, RolesOf(after, o.account)) ==
              Has(before.schemas.create, s, RolesOf(before, o.account) - {o.account})
    {
      assert RolesOf(after, o.account) == RolesOf(before, o.account);
    }
  }

  /** What a statement of the grants may touch: the account's own rights on the database and the listed schemas. */
  ghost predicate OnlyGranted(before: Database, after: Database, o: Options) {
    && after.memberOf == before.memberOf && after.tables.Keys == before.tables.Keys
    && (forall c | c in after.connect :: c in before.connect || c == (o.database, o.account))
    && (forall a | a in after.readOnlyByDefault :: a in before.readOnlyByDefault || a == o.account)
    && (forall s, r | (s, r) in after.schemas.usage ::
          (s, r) in before.schemas.usage || (s in o.schemas && r == o.account))
    && (forall s, r | (s, r) in before.schemas.create && !(s in o.schemas && r == o.account) ::
          (s, r) in after.schemas.create)
    && after.schemas.create <= before.schemas.create
    && (forall t | t in before.tables :: OnlyReadable(before.tables[t], after.tables[t], o))
    && (forall d | d in after.defaults ::
          d in before.defaults
          || (d.owner in o.ownerRoles && d.schema in o.schemas && d.grantee == o.account && !d.write))
  }

  ghost predicate OnlyReadable(before: Table, after: Table, o: Options) {
    && after == before.(readers := after.readers)
    && after.readers ==
       before.readers + if before.schema in o.schemas && o.account in after.readers then {o.account} else {}
  }

  lemma ExecuteGrantsOnly(db: Database, st: Statement, o: Options)
    requires Wanted(o, st)
    ensures OnlyGranted(db, Execute(db, st), o)
  {
    if st.GrantSelectOnAllTables? {
      var after := Execute(db, st);
      forall t | t in db.tables
        ensures OnlyReadable(db.tables[t], after.tables[t], o)
      {
      }
    }
  }

  lemma OnlyGrantedTwice(a: Database, b: Database, c: Database, o: Options)
    requires OnlyGranted(a, b, o) && OnlyGranted(b, c, o)
    ensures OnlyGranted(a, c, o)
  {
    forall t | t in a.tables
      ensures OnlyReadable(a.tables[t], c.tables[t], o)
    {
      assert OnlyReadable(a.tables[t], b.tables[t], o) && OnlyReadable(b.tables[t], c.tables[t], o);
    }
  }

  lemma {:induction false} RunGrantsOnly(db: Database, statements: seq<Statement>, o: Options)
    requires forall i | 0 <= i < |statements| :: Wanted(o, statements[i])
    ensures OnlyGranted(db, Run(db, statements), o)
    decreases |statements|
  {
    if statements != [] {
      var next := Execute(db, statements[0]);
      ExecuteGrantsOnly(db, statements[0], o);
      RunGrantsOnly(next, statements[1..], o);
      OnlyGrantedTwice(db, next, Run(next, statements[1..]), o);
    }
  }

  /** The grants give nobody else anything, and the account nothing outside the listed schemas and no write. */
  lemma GrantsGiveNothingElse(db: Database, o: Options)
    ensures OnlyGranted(db, Run(db, Statements(o)), o)
  {
    forall i | 0 <= i < |Statements(o)|
      ensures Wanted(o, Statements(o)[i])
    {
      StatementsAreWanted(o, Statements(o)[i]);
    }
    RunGrantsOnly(db, Statements(o), o);
  }

  /** Revoking CREATE from the account leaves the one it inherits, and the report says so. */
  lemma InheritedCreateStays(db: Database, o: Options, schema: Name, role: Name)
    requires schema in o.schemas && role != o.account && (schema, role) in db.schemas.create
    requires o.account in db.memberOf && role in db.memberOf[o.account]
    ensures var after := Run(db, Statements(o));
            && !ReadOnly(after, o)
            && forall rows | ReportsDefaults(after, o, rows) ::
                 !Interpretation(o, [IdentityOf(after, o)], rows).verified
  {
    var after := Run(db, Statements(o));
    assert Has(db.schemas.create, schema, RolesOf(db, o.account) - {o.account});
    GrantsMakeReadOnly(db, o);
    forall rows | ReportsDefaults(after, o, rows)
      ensures !Interpretation(o, [IdentityOf(after, o)], rows).verified
    {
      VerifiedMeansReadOnly(after, o, rows);
    }
  }

  // ---- Tables created afterwards ----

  /**
   A table created later in a listed schema keeps the account read-only exactly when its owner's default
   privileges let the account read and not write, and the owner is not the account or a role it inherits.
   */
  lemma NewTableKeepsReadOnlyIff(db: Database, o: Options, id: nat, owner: Name, schema: Name)
    requires ReadOnly(db, o) && id !in db.tables && schema in o.schemas
    ensures var roles := RolesOf(db, o.account);
            ReadOnly(CreateTable(db, id, owner, schema), o) <==>
            && owner !in roles
            && (exists r | r in roles :: Default(owner, schema, r, false) in db.defaults)
            && (forall r | r in roles :: Default(owner, schema, r, true) !in db.defaults)
  {
    var after := CreateTable(db, id, owner, schema);
    var roles := RolesOf(db, o.account);
    var t := after.tables[id];
    assert forall r :: r in t.readers <==> r == owner || Default(owner, schema, r, false) in db.defaults;
    assert forall r :: r in t.writers <==> r == owner || Default(owner, schema, r, true) in db.defaults;
    assert forall u | u in db.tables :: after.tables[u] == db.tables[u];
    SomeInCommon(t.readers, roles);
    SomeInCommon(t.writers, roles);
    assert ReadsAll(after, o) <==> t.readers * roles != {};
    assert WritesSome(after, o) <==> t.writers * roles != {};
    assert UsesAll(after, o) && !CreatesSomewhere(after, o);
  }

  /**
   A verified account that a listed owner gives default write: the grants leave the database read-only, and
   the owner's next table does not, though the default SELECT it is checked for is there.
   */
  lemma DefaultWriteSpoilsTheNext()
    ensures var o := Options("db", "a", ["s"], ["w"]);
            var before := Database({}, {}, SchemaGrants({}, {}), map[], {Default("w", "s", "a", true)}, map[]);
            var db := Run(before, Statements(o));
            && AlwaysVerified(db, o) && Default("w", "s", "a", false) in db.defaults
            && !ReadOnly(CreateTable(db, 0, "w", "s"), o)
  {
    var o := Options("db", "a", ["s"], ["w"]);
    var before := Database({}, {}, SchemaGrants({}, {}), map[], {Default("w", "s", "a", true)}, map[]);
    var db := Run(before, Statements(o));
    GrantsMakeReadOnly(before, o);
    ReadOnlyIsVerified(db, o);
    assert "w" in o.ownerRoles && "s" in o.schemas;
    RunKeepsTables(before, Statements(o));
    StatementsAreWanted(o, DefaultSelect("w", "s", "a"));
    RunAchieves(before, Statements(o), o);
    assert "a" in RolesOf(db, "a");
    NewTableKeepsReadOnlyIff(db, o, 0, "w", "s");
  }

  lemma SomeInCommon(names: set<Name>, roles: set<Name>)
    ensures names * roles != {} <==> exists r | r in roles :: r in names
  {
    if names * roles != {} {
      var r :| r in names * roles;
      assert r in roles && r in names;
    }
    if r :| r in roles && r in names {
      assert r in names * roles;
    }
  }

  /** A table in a schema that is not listed does not concern the account. */
  lemma UnlistedTablesDoNotMatter(db: Database, o: Options, id: nat, owner: Name, schema: Name)
    requires ReadOnly(db, o) && id !in db.tables && schema !in o.schemas
    ensures ReadOnly(CreateTable(db, id, owner, schema), o)
  {
    var after := CreateTable(db, id, owner, schema);
    assert forall t | t in db.tables :: after.tables[t] == db.tables[t];
    assert forall t | t in after.tables && after.tables[t].schema in o.schemas :: t in db.tables;
    assert UsesAll(after, o) && !CreatesSomewhere(after, o) && ReadsAll(after, o) && !WritesSome(after, o);
  }

  /** No listed owner is the account or a role it inherits, or gives one of them write by default. */
  ghost predicate OwnersGiveNoWrite(db: Database, o: Options) {
    forall owner | owner in o.ownerRoles ::
      && owner !in RolesOf(db, o.account)
      && forall schema, r | schema in o.schemas && r in RolesOf(db, o.account) ::
           Default(owner, schema, r, true) !in db.defaults
  }

  datatype NewTable = NewTable(id: nat, owner: Name, schema: Name)

  function CreateTables(db: Database, tables: seq<NewTable>): Database
    decreases |tables|
  {
    if tables == [] then db
    else CreateTables(CreateTable(db, tables[0].id, tables[0].owner, tables[0].schema), tables[1..])
  }

  /** New tables, under ids of their own, all made by listed owner roles. */
  ghost predicate NewAndListed(db: Database, o: Options, tables: seq<NewTable>) {
    && (forall i | 0 <= i < |tables| :: tables[i].id !in db.tables && tables[i].owner in o.ownerRoles)
    && (forall i, j | 0 <= i < j < |tables| :: tables[i].id != tables[j].id)
  }

  /** Each of the tables is there in the end, in its schema and with its owner. */
  lemma {:induction false} TablesAreMade(db: Database, tables: seq<NewTable>, i: nat)
    requires i < |tables| && forall j, k | 0 <= j < k < |tables| :: tables[j].id != tables[k].id
    ensures var t := tables[i];
            && t.id in CreateTables(db, tables).tables
            && CreateTables(db, tables).tables[t.id] == CreateTable(db, t.id, t.owner, t.schema).tables[t.id]
    decreases |tables|
  {
    var next := CreateTable(db, tables[0].id, tables[0].owner, tables[0].schema);
    if i == 0 {
      OthersKeepTable(next, tables[1..], tables[0].id);
    } else {
      assert tables[1..][i - 1] == tables[i];
      TablesAreMade(next, tables[1..], i - 1);
    }
  }

  lemma {:induction false} OthersKeepTable(db: Database, tables: seq<NewTable>, id: nat)
    requires id in db.tables && forall j | 0 <= j < |tables| :: tables[j].id != id
    ensures id in CreateTables(db, tables).tables && CreateTables(db, tables).tables[id] == db.tables[id]
    decreases |tables|
  {
    if tables != [] {
      OthersKeepTable(
        CreateTable(db, tables[0].id, tables[0].owner, tables[0].schema), tables[1..], id);
    }
  }

  /** For a listed owner role the default SELECT is in place, so only default write privileges can spoil it. */
  lemma {:induction false} ListedOwnersKeepReadOnly(db: Database, o: Options, tables: seq<NewTable>)
    requires ReadOnly(db, o) && OwnersGiveNoWrite(db, o) && NewAndListed(db, o, tables)
    ensures ReadOnly(CreateTables(db, tables), o)
    decreases |tables|
  {
    if tables != [] {
      var t := tables[0];
      var next := CreateTable(db, t.id, t.owner, t.schema);
      if t.schema in o.schemas {
        NewTableKeepsReadOnlyIff(db, o, t.id, t.owner, t.schema);
        assert Default(t.owner, t.schema, o.account, false) in db.defaults;
      } else {
        UnlistedTablesDoNotMatter(db, o, t.id, t.owner, t.schema);
      }
      ListedOwnersKeepReadOnly(next, o, tables[1..]);
    }
  }

  /** Every report the verification queries can give of the database. */
  ghost predicate AlwaysVerified(db: Database, o: Options) {
    forall rows | ReportsDefaults(db, o, rows) :: Interpretation(o, [IdentityOf(db, o)], rows).verified
  }

  lemma ReadOnlyIsVerified(db: Database, o: Options)
    requires o.schemas != [] && ReadOnly(db, o)
    ensures AlwaysVerified(db, o)
  {
    forall rows | ReportsDefaults(db, o, rows)
      ensures Interpretation(o, [IdentityOf(db, o)], rows).verified
    {
      VerifiedMeansReadOnly(db, o, rows);
    }
  }

  /** Running the statements adds no default write privilege and no membership. */
  lemma RunKeepsOwners(db: Database, o: Options)
    requires OwnersGiveNoWrite(db, o)
    ensures OwnersGiveNoWrite(Run(db, Statements(o)), o)
  {
    forall i | 0 <= i < |Statements(o)|
      ensures Wanted(o, Statements(o)[i])
    {
      StatementsAreWanted(o, Statements(o)[i]);
    }
    RunAchieves(db, Statements(o), o);
    assert RolesOf(Run(db, Statements(o)), o.account) == RolesOf(db, o.account);
  }

  /**
   The grants as a whole. Where the account could write to no listed table and inherits no CREATE: running
   all statements, whatever part of them ran before, makes every report verified; running them again
   changes nothing; and every report stays verified after listed owner roles, giving it no write by
   default, create any number of further tables.
   */
  lemma GrantsVerifyAndStayVerified(db: Database, o: Options, done: seq<Statement>, tables: seq<NewTable>)
    requires o.schemas != [] && !WritesSome(db, o) && !InheritsCreate(db, o)
    requires forall i | 0 <= i < |done| :: done[i] in Statements(o)
    requires OwnersGiveNoWrite(db, o) && NewAndListed(db, o, tables)
    ensures var after := Run(Run(db, done), Statements(o));
            && AlwaysVerified(after, o)
            && Run(after, Statements(o)) == after
            && AlwaysVerified(CreateTables(after, tables), o)
  {
    var after := Run(db, Statements(o));
    RerunConverges(db, done, Statements(o));
    RerunConverges(db, Statements(o), Statements(o));
    GrantsMakeReadOnly(db, o);
    ReadOnlyIsVerified(after, o);
    RunKeepsOwners(db, o);
    RunKeepsTables(db, Statements(o));
    ListedOwnersKeepReadOnly(after, o, tables);
    ReadOnlyIsVerified(CreateTables(after, tables), o);
  }

  lemma {:induction false} RunKeepsTables(db: Database, statements: seq<Statement>)
    ensures Run(db, statements).tables.Keys == db.tables.Keys
    decreases |statements|
  {
    if statements != [] {
      assert Execute(db, statements[0]).tables.Keys == db.tables.Keys;
      RunKeepsTables(Execute(db, statements[0]), statements[1..]);
    }
  }

  // ---- The statements as text ----

  /** The keywords before the first name. */
  function Opening(st: Statement): string {
    match st
    case GrantConnect(_, _) => "GRANT CONNECT ON DATABASE "
    case DefaultReadOnly(_) => "ALTER ROLE "
    case GrantUsage(_, _) => "GRANT USAGE ON SCHEMA "
    case GrantSelectOnAllTables(_, _) => "GRANT SELECT ON ALL TABLES IN SCHEMA "
    case RevokeCreate(_, _) => "REVOKE CREATE ON SCHEMA "
    case DefaultSelect(_, _, _) => "ALTER DEFAULT PRIVILEGES FOR ROLE "
  }

  /** The statement's names, in the order they are written. */
  function NamesOf(st: Statement): seq<Name> {
    match st
    case GrantConnect(d, a) => [d, a]
    case DefaultReadOnly(a) => [a]
    case GrantUsage(s, a) => [s, a]
    case GrantSelectOnAllTables(s, a) => [s, a]
    case RevokeCreate(s, a) => [s, a]
    case DefaultSelect(r, s, a) => [r, s, a]
  }

  const TO := " TO "
  const FROM := " FROM "
  const READ_ONLY := " SET default_transaction_read_only = on"
  const IN_SCHEMA := " IN SCHEMA "
  const SELECT_TO := " GRANT SELECT ON TABLES TO "

  /** What follows the first name. */
  function Closing(st: Statement): string {
    match st
    case GrantConnect(_, a) => TO + QuoteIdentifier(a)
    case DefaultReadOnly(_) => READ_ONLY
    case GrantUsage(_, a) => TO + QuoteIdentifier(a)
    case GrantSelectOnAllTables(_, a) => TO + QuoteIdentifier(a)
    case RevokeCreate(_, a) => FROM + QuoteIdentifier(a)
    case DefaultSelect(_, s, a) => IN_SCHEMA + (QuoteIdentifier(s) + (SELECT_TO + QuoteIdentifier(a)))
  }

  function Render(st: Statement): string {
    Opening(st) + (QuoteIdentifier(NamesOf(st)[0]) + Closing(st))
  }

  /** The first and the seventh character tell the kinds of statement apart. */
  predicate Tells(st: Statement, first: char, seventh: char) {
    match st
    case GrantConnect(_, _) => first == 'G' && seventh == 'C'
    case DefaultReadOnly(_) => first == 'A' && seventh == 'R'
    case GrantUsage(_, _) => first == 'G' && seventh == 'U'
    case GrantSelectOnAllTables(_, _) => first == 'G' && seventh == 'S'
    case RevokeCreate(_, _) => first == 'R'
    case DefaultSelect(_, _, _) => first == 'A' && seventh == 'D'
  }

  lemma OpeningsTell(st: Statement)
    ensures |Opening(st)| > 6 && Tells(st, Opening(st)[0], Opening(st)[6])
  {
  }

  lemma SameKind(a: Statement, b: Statement)
    requires Render(a) == Render(b)
    ensures Opening(a) == Opening(b) && |NamesOf(a)| == |NamesOf(b)|
    ensures exists first, seventh :: Tells(a, first, seventh) && Tells(b, first, seventh)
  {
    OpeningsTell(a);
    OpeningsTell(b);
    assert Render(a)[0] == Opening(a)[0] && Render(a)[6] == Opening(a)[6];
    assert Render(b)[0] == Opening(b)[0] && Render(b)[6] == Opening(b)[6];
    assert Tells(a, Render(a)[0], Render(a)[6]) && Tells(b, Render(a)[0], Render(a)[6]);
  }

  /** After equal keywords, equal texts have equal names and equal remainders. */
  lemma SameName(keywords: string, x: Name, rest: string, x': Name, rest': string)
    requires keywords + (QuoteIdentifier(x) + rest) == keywords + (QuoteIdentifier(x') + rest')
    requires (rest == "" || rest[0] != '"') && (rest' == "" || rest'[0] != '"')
    ensures x == x' && rest == rest'
  {
    var n := |keywords|;
    var text, text' := QuoteIdentifier(x) + rest, QuoteIdentifier(x') + rest';
    assert (keywords + text)[n..] == text && (keywords + text')[n..] == text';
    QuotedReadsBack(x, '"', rest);
    QuotedReadsBack(x', '"', rest');
  }

  lemma SameLastName(keywords: string, x: Name, x': Name)
    requires keywords + QuoteIdentifier(x) == keywords + QuoteIdentifier(x')
    ensures x == x'
  {
    assert QuoteIdentifier(x) + "" == QuoteIdentifier(x) && QuoteIdentifier(x') + "" == QuoteIdentifier(x');
    SameName(keywords, x, "", x', "");
  }

  lemma ClosingStart(st: Statement)
    ensures Closing(st) != "" && Closing(st)[0] != '"'
  {
  }

  /** Whatever characters the names hold, distinct statements are distinct texts. */
  lemma RenderIsInjective(a: Statement, b: Statement)
    requires Render(a) == Render(b)
    ensures a == b
  {
    SameKind(a, b);
    ClosingStart(a);
    ClosingStart(b);
    SameName(Opening(a), NamesOf(a)[0], Closing(a), NamesOf(b)[0], Closing(b));
    match a
    case DefaultReadOnly(_) =>
    case RevokeCreate(_, x) => SameLastName(FROM, x, b.account);
    case DefaultSelect(_, s, x) =>
      SameName(IN_SCHEMA, s, SELECT_TO + QuoteIdentifier(x), b.schema, SELECT_TO + QuoteIdentifier(b.account));
      SameLastName(SELECT_TO, x, b.account);
    case GrantConnect(_, x) => SameLastName(TO, x, b.account);
    case GrantUsage(_, x) => SameLastName(TO, x, b.account);
    case GrantSelectOnAllTables(_, x) => SameLastName(TO, x, b.account);
  }

  /** The schema list of the verification query: quoted literals, comma separated. */
  function SchemaList(schemas: seq<Name>): string
    decreases |schemas|, 1
  {
    if schemas == [] then "" else QuoteLiteral(schemas[0]) + ListTail(schemas)
  }

  function ListTail(schemas: seq<Name>): string
    requires schemas != []
    decreases |schemas|, 0
  {
    if |schemas| == 1 then "" else ", " + SchemaList(schemas[1..])
  }

  lemma OneListed(schema: Name)
    ensures SchemaList([schema]) == QuoteLiteral(schema)
  {
  }

  lemma HeadListed(schemas: seq<Name>)
    requires |schemas| > 1
    ensures SchemaList(schemas) == QuoteLiteral(schemas[0]) + ", " + SchemaList(schemas[1..])
  {
  }

  lemma Regroup(head: string, list: string, last: string)
    ensures head + ", " + (list + ", " + last) == head + ", " + list + ", " + last
  {
  }

  /** One more schema is written after a comma. */
  lemma {:induction false} ListGrows(schemas: seq<Name>, last: Name)
    requires schemas != []
    ensures SchemaList(schemas + [last]) == SchemaList(schemas) + ", " + QuoteLiteral(last)
    decreases |schemas|
  {
    var rest := schemas[1..];
    assert (schemas + [last])[1..] == rest + [last] && (schemas + [last])[0] == schemas[0];
    HeadListed(schemas + [last]);
    if rest == [] {
      assert rest + [last] == [last] && schemas == [schemas[0]];
      OneListed(last);
      OneListed(schemas[0]);
    } else {
      HeadListed(schemas);
      ListGrows(rest, last);
      Regroup(QuoteLiteral(schemas[0]), SchemaList(rest), QuoteLiteral(last));
    }
  }

  lemma SameHead(a: seq<Name>, b: seq<Name>)
    requires a != [] && b != [] && SchemaList(a) == SchemaList(b)
    ensures a[0] == b[0] && ListTail(a) == ListTail(b)
  {
    QuotedReadsBack(a[0], '\'', ListTail(a));
    QuotedReadsBack(b[0], '\'', ListTail(b));
  }

  /** Distinct schema lists are distinct texts, so the query asks about exactly the schemas named. */
  lemma {:induction false} SchemaListIsInjective(a: seq<Name>, b: seq<Name>)
    requires SchemaList(a) == SchemaList(b)
    ensures a == b
  {
    if a != [] && b != [] {
      SameHead(a, b);
      assert a == [a[0]] + a[1..] && b == [b[0]] + b[1..];
      if |a| > 1 && |b| > 1 {
        assert ListTail(a)[2..] == SchemaList(a[1..]) && ListTail(b)[2..] == SchemaList(b[1..]);
        SchemaListIsInjective(a[1..], b[1..]);
      }
    }
  }
}
