// ddl/exec.go, forward direction: the loop that creates, changes and adds until the
// database has every struct's columns.
module Migration {
  import opened Prelude

  // What a CREATE, CHANGE or ADD statement says about a column.
  datatype Definition = Definition(typ: string, nullable: bool, autoincrement: bool, default: string, extra: string)

  datatype Column = Column(name: string, def: Definition)
  datatype Table = Table(name: string, columns: seq<Column>)

  type Columns = map<string, Definition>
  type Schema = map<string, Columns>

  datatype Statement =
    | CreateTable(created: Table)
    | ChangeColumn(table: string, column: Column)
    | AddColumn(table: string, column: Column)

  predicate DistinctColumns(columns: seq<Column>) {
    forall i, j :: 0 <= i < j < |columns| ==> columns[i].name != columns[j].name
  }

  predicate DistinctTables(tables: seq<Table>) {
    && (forall i, j :: 0 <= i < j < |tables| ==> tables[i].name != tables[j].name)
    && (forall i :: 0 <= i < |tables| ==> DistinctColumns(tables[i].columns))
  }

  // When the database accepts a statement.
  predicate Accepts(db: Schema, s: Statement) {
    match s
    case CreateTable(t) => t.name !in db && DistinctColumns(t.columns)
    case ChangeColumn(t, c) => t in db && c.name in db[t]
    case AddColumn(t, c) => t in db && c.name !in db[t]
  }

  function Defined(columns: seq<Column>): Columns {
    Overlay(map[], columns)
  }

  function After(db: Schema, s: Statement): Schema
    requires Accepts(db, s)
  {
    match s
    case CreateTable(t) => db[t.name := Defined(t.columns)]
    case ChangeColumn(t, c) => db[t := db[t][c.name := c.def]]
    case AddColumn(t, c) => db[t := db[t][c.name := c.def]]
  }

  // `log` holds every statement that was executed, and whether it succeeded.
  class Database {
    var schema: Schema
    var log: seq<(Statement, bool)>

    constructor (initial: Schema)
      ensures schema == initial && log == []
    {
      schema, log := initial, [];
    }

    // A statement that is not accepted reports an error and changes nothing.
    method Exec(s: Statement) returns (ok: bool)
      modifies this
      ensures ok == Accepts(old(schema), s)
      ensures schema == if ok then After(old(schema), s) else old(schema)
      ensures log == old(log) + [(s, ok)]
    {
      ok := Accepts(schema, s);
      log := log + [(s, ok)];
      if ok {
        schema := After(schema, s);
      }
    }
  }

  // --- What a run should lead to --------------------------------------------------------

  // The columns of a table once those of a struct were written over or next to them.
  function Overlay(old_: Columns, columns: seq<Column>): Columns {
    if columns == [] then old_
    else
      var c := columns[|columns| - 1];
      Overlay(old_, columns[..|columns| - 1])[c.name := c.def]
  }

  function ColumnsAt(db: Schema, name: string): Columns {
    if name in db then db[name] else map[]
  }

  function Target(db: Schema, tables: seq<Table>): Schema {
    if tables == [] then db
    else
      var t := tables[|tables| - 1];
      Target(db, tables[..|tables| - 1])[t.name := Overlay(ColumnsAt(db, t.name), t.columns)]
  }

  // The statements for one struct: its columns are changed or added one by one when the
  // table is there, and the table is created when not.
  function TablePlan(db: Schema, t: Table): seq<Statement> {
    if t.name in db then ColumnPlan(db[t.name], t.name, t.columns) else [CreateTable(t)]
  }

  function ColumnPlan(existing: Columns, table: string, columns: seq<Column>): (plan: seq<Statement>)
    ensures |plan| == |columns|
    ensures forall k :: 0 <= k < |plan| ==>
              plan[k] == if columns[k].name in existing then ChangeColumn(table, columns[k]) else AddColumn(table, columns[k])
  {
    seq(|columns|, k requires 0 <= k < |columns| =>
      if columns[k].name in existing then ChangeColumn(table, columns[k]) else AddColumn(table, columns[k]))
  }

  // The statements for all structs, decided by what the database had at the start.
  function Plan(db: Schema, tables: seq<Table>): seq<Statement> {
    if tables == [] then [] else Plan(db, tables[..|tables| - 1]) + TablePlan(db, tables[|tables| - 1])
  }

  // The database executed exactly these statements, in this order, and accepted them all.
  predicate Executed(ran: seq<(Statement, bool)>, plan: seq<Statement>) {
    |ran| == |plan| && forall i :: 0 <= i < |ran| ==> ran[i] == (plan[i], true)
  }

  lemma ExecutedMore(a: seq<(Statement, bool)>, p: seq<Statement>, b: seq<(Statement, bool)>, q: seq<Statement>)
    requires Executed(a, p) && Executed(b, q)
    ensures Executed(a + b, p + q)
  {
  }

  // What the inner loop has reached after k columns.
  predicate Rewritten(start: Schema, now: Schema, ran: seq<(Statement, bool)>, t: Table, k: nat)
    requires t.name in start && k <= |t.columns|
  {
    && now == start[t.name := Overlay(start[t.name], t.columns[..k])]
    && Executed(ran, ColumnPlan(start[t.name], t.name, t.columns)[..k])
  }

  lemma RewrittenMore(start: Schema, now: Schema, ran: seq<(Statement, bool)>, t: Table, k: nat)
    requires t.name in start && k < |t.columns| && DistinctColumns(t.columns) && Rewritten(start, now, ran, t, k)
    ensures var s := ColumnPlan(start[t.name], t.name, t.columns)[k];
            Accepts(now, s) && Rewritten(start, After(now, s), ran + [(s, true)], t, k + 1)
  {
    var plan, col := ColumnPlan(start[t.name], t.name, t.columns), t.columns[k];
    OverlayElsewhere(start[t.name], t.columns[..k], col.name);
    assert t.columns[..k + 1] == t.columns[..k] + [col];
    assert plan[..k + 1] == plan[..k] + [plan[k]];
    ExecutedMore(ran, plan[..k], [(plan[k], true)], [plan[k]]);
  }

  // Lines 92-104: the columns of a table that is there. Failing statements are logged and
  // skipped.
  method ChangeColumns(db: Database, t: Table) returns (ghost ran: seq<(Statement, bool)>)
    requires t.name in db.schema
    modifies db
    ensures db.schema.Keys == old(db.schema).Keys
    ensures db.log == old(db.log) + ran
    ensures DistinctColumns(t.columns) ==> Rewritten(old(db.schema), db.schema, ran, t, |t.columns|)
  {
    var existColSet := db.schema[t.name].Keys;
    ghost var start := db.schema;
    ran := [];
    for k := 0 to |t.columns|
      invariant db.schema.Keys == start.Keys
      invariant db.log == old(db.log) + ran
      invariant DistinctColumns(t.columns) ==> Rewritten(start, db.schema, ran, t, k)
    {
      var col := t.columns[k];
      if DistinctColumns(t.columns) { RewrittenMore(start, db.schema, ran, t, k); }
      var s := if col.name in existColSet then ChangeColumn(t.name, col) else AddColumn(t.name, col);
      var ok := db.Exec(s);
      ran := ran + [(s, ok)];
    }
  }

  // What the loop has reached after some of the structs.
  predicate Reached(start: Schema, now: Schema, ran: seq<(Statement, bool)>, tables: seq<Table>) {
    now == Target(start, tables) && Executed(ran, Plan(start, tables))
  }

  // What one turn does for a struct.
  predicate Turned(start: Schema, t: Table, before: Schema, after: Schema, more: seq<(Statement, bool)>)
    requires t.name in start ==> t.name in before
  {
    if t.name in start then
      Rewritten(before, after, more, t, |t.columns|)
    else
      var ok := Accepts(before, CreateTable(t));
      more == [(CreateTable(t), ok)] && after == if ok then After(before, CreateTable(t)) else before
  }

  lemma ReachedMore(start: Schema, tables: seq<Table>, n: nat, before: Schema, ran: seq<(Statement, bool)>,
                    after: Schema, more: seq<(Statement, bool)>)
    requires DistinctTables(tables) && n < |tables| && Reached(start, before, ran, tables[..n])
    requires tables[n].name in start ==> tables[n].name in before
    requires Turned(start, tables[n], before, after, more)
    ensures Reached(start, after, ran + more, tables[..n + 1])
  {
    var t := tables[n];
    TargetElsewhere(start, tables[..n], t.name);
    assert tables[..n + 1] == tables[..n] + [t];
    assert t.columns[..|t.columns|] == t.columns;
    assert Executed(more, TablePlan(start, t));
    ExecutedMore(ran, Plan(start, tables[..n]), more, TablePlan(start, t));
  }

  // Lines 83-111.
  method Migrate(db: Database, tables: seq<Table>)
    modifies db
    ensures old(db.log) <= db.log
    ensures DistinctTables(tables) ==>
              && db.schema == Target(old(db.schema), tables)
              && Executed(db.log[|old(db.log)|..], Plan(old(db.schema), tables))
  {
    var existTables := db.schema.Keys;
    ghost var start, ran: seq<(Statement, bool)> := db.schema, [];
    for n := 0 to |tables|
      invariant existTables == start.Keys <= db.schema.Keys
      invariant db.log == old(db.log) + ran
      invariant DistinctTables(tables) ==> Reached(start, db.schema, ran, tables[..n])
    {
      var t := tables[n];
      ghost var before, more := db.schema, [];
      if t.name in existTables {
        more := ChangeColumns(db, t);
      } else {
        var ok := db.Exec(CreateTable(t));
        more := [(CreateTable(t), ok)];
      }
      if DistinctTables(tables) { ReachedMore(start, tables, n, before, ran, db.schema, more); }
      ran := ran + more;
    }
    assert tables[..|tables|] == tables;
  }

  // A table is created or a column added only if it was missing.
  predicate Needed(db: Schema, s: Statement) {
    match s
    case CreateTable(t) => t.name !in db
    case ChangeColumn(t, c) => t in db && c.name in db[t]
    case AddColumn(t, c) => t in db && c.name !in db[t]
  }

  // The statement is about a struct or one of its columns.
  predicate Planned(tables: seq<Table>, s: Statement) {
    match s
    case CreateTable(t) => t in tables
    case ChangeColumn(t, c) => exists i :: 0 <= i < |tables| && tables[i].name == t && c in tables[i].columns
    case AddColumn(t, c) => exists i :: 0 <= i < |tables| && tables[i].name == t && c in tables[i].columns
  }

  // Every statement of the plan is about a struct and needed.
  lemma {:induction false} PlanJustified(db: Schema, tables: seq<Table>)
    ensures forall i :: 0 <= i < |Plan(db, tables)| ==> Planned(tables, Plan(db, tables)[i]) && Needed(db, Plan(db, tables)[i])
  {
    if tables != [] {
      var n := |tables| - 1;
      var plan := TablePlan(db, tables[n]);
      PlanJustified(db, tables[..n]);
      forall i | 0 <= i < |plan| ensures Planned(tables, plan[i]) && Needed(db, plan[i]) {
      }
      forall i | 0 <= i < |Plan(db, tables[..n])| ensures Planned(tables, Plan(db, tables[..n])[i]) {
        PlannedMore(tables, n, Plan(db, tables[..n])[i]);
      }
    }
  }

  lemma PlannedMore(tables: seq<Table>, n: nat, s: Statement)
    requires n <= |tables| && Planned(tables[..n], s)
    ensures Planned(tables, s)
  {
  }

  lemma {:induction false} OverlayElsewhere(old_: Columns, columns: seq<Column>, name: string)
    requires forall i :: 0 <= i < |columns| ==> columns[i].name != name
    ensures name in Overlay(old_, columns) <==> name in old_
    ensures name in old_ ==> Overlay(old_, columns)[name] == old_[name]
  {
    if columns != [] { OverlayElsewhere(old_, columns[..|columns| - 1], name); }
  }

  lemma {:induction false} TargetElsewhere(db: Schema, tables: seq<Table>, name: string)
    requires forall i :: 0 <= i < |tables| ==> tables[i].name != name
    ensures name in Target(db, tables) <==> name in db
    ensures name in db ==> Target(db, tables)[name] == db[name]
  {
    if tables != [] { TargetElsewhere(db, tables[..|tables| - 1], name); }
  }

  // --- What the target is ---------------------------------------------------------------

  lemma {:induction false} OverlayHas(old_: Columns, columns: seq<Column>, k: nat)
    requires DistinctColumns(columns) && k < |columns|
    ensures columns[k].name in Overlay(old_, columns) && Overlay(old_, columns)[columns[k].name] == columns[k].def
  {
    var n := |columns| - 1;
    if k < n {
      OverlayHas(old_, columns[..n], k);
    }
  }

  lemma {:induction false} TargetHas(db: Schema, tables: seq<Table>, k: nat)
    requires DistinctTables(tables) && k < |tables|
    ensures tables[k].name in Target(db, tables)
    ensures Target(db, tables)[tables[k].name] == Overlay(ColumnsAt(db, tables[k].name), tables[k].columns)
  {
    var n := |tables| - 1;
    if k < n {
      TargetHas(db, tables[..n], k);
    }
  }

  predicate InTables(tables: seq<Table>, name: string) {
    exists i :: 0 <= i < |tables| && tables[i].name == name
  }

  predicate InColumns(columns: seq<Column>, name: string) {
    exists i :: 0 <= i < |columns| && columns[i].name == name
  }

  // Every struct column is there with the struct's definition, nothing that was there is
  // lost or redefined by anything but a struct, and nothing else appears.
  lemma TargetMeets(db: Schema, tables: seq<Table>)
    requires DistinctTables(tables)
    ensures var to := Target(db, tables);
            && (forall i, k :: 0 <= i < |tables| && 0 <= k < |tables[i].columns| ==>
                  var c := tables[i].columns[k];
                  tables[i].name in to && c.name in to[tables[i].name] && to[tables[i].name][c.name] == c.def)
            && (forall name :: name in to <==> name in db || InTables(tables, name))
            && (forall name :: name in db && !InTables(tables, name) ==> to[name] == db[name])
            && (forall i, col :: 0 <= i < |tables| ==>
                  var t := tables[i];
                  && (col in to[t.name] <==> col in ColumnsAt(db, t.name) || InColumns(t.columns, col))
                  && (col in ColumnsAt(db, t.name) && !InColumns(t.columns, col) ==>
                        to[t.name][col] == ColumnsAt(db, t.name)[col]))
  {
    var to := Target(db, tables);
    forall i, k | 0 <= i < |tables| && 0 <= k < |tables[i].columns|
      ensures var c := tables[i].columns[k];
              tables[i].name in to && c.name in to[tables[i].name] && to[tables[i].name][c.name] == c.def
    {
      TargetHas(db, tables, i);
      OverlayHas(ColumnsAt(db, tables[i].name), tables[i].columns, k);
    }
    forall name ensures name in to <==> name in db || InTables(tables, name)
      ensures name in db && !InTables(tables, name) ==> to[name] == db[name]
    {
      if InTables(tables, name) {
        var i :| 0 <= i < |tables| && tables[i].name == name;
        TargetHas(db, tables, i);
      } else {
        TargetElsewhere(db, tables, name);
      }
    }
    forall i, col | 0 <= i < |tables|
      ensures var t := tables[i];
              && (col in to[t.name] <==> col in ColumnsAt(db, t.name) || InColumns(t.columns, col))
              && (col in ColumnsAt(db, t.name) && !InColumns(t.columns, col) ==> to[t.name][col] == ColumnsAt(db, t.name)[col])
    {
      var t := tables[i];
      TargetHas(db, tables, i);
      if InColumns(t.columns, col) {
        var k :| 0 <= k < |t.columns| && t.columns[k].name == col;
        OverlayHas(ColumnsAt(db, t.name), t.columns, k);
      } else {
        OverlayElsewhere(ColumnsAt(db, t.name), t.columns, col);
      }
    }
  }

  lemma OverlayAgain(old_: Columns, columns: seq<Column>)
    requires DistinctColumns(columns)
    requires forall k :: 0 <= k < |columns| ==> columns[k].name in old_ && old_[columns[k].name] == columns[k].def
    ensures Overlay(old_, columns) == old_
    decreases |columns|
  {
  }

  lemma {:induction false} TargetAgain(db: Schema, tables: seq<Table>)
    requires DistinctTables(tables)
    requires forall i, k :: 0 <= i < |tables| && 0 <= k < |tables[i].columns| ==>
               var c := tables[i].columns[k];
               tables[i].name in db && c.name in db[tables[i].name] && db[tables[i].name][c.name] == c.def
    requires forall i :: 0 <= i < |tables| ==> tables[i].name in db
    ensures Target(db, tables) == db
  {
    if tables != [] {
      var t := tables[|tables| - 1];
      TargetAgain(db, tables[..|tables| - 1]);
      OverlayAgain(db[t.name], t.columns);
    }
  }

  // A second run over the result changes nothing and needs no CREATE and no ADD.
  lemma Converges(db: Schema, tables: seq<Table>)
    requires DistinctTables(tables)
    ensures Target(Target(db, tables), tables) == Target(db, tables)
    ensures forall s :: Planned(tables, s) && Needed(Target(db, tables), s) ==> s.ChangeColumn?
  {
    TargetMeets(db, tables);
    forall i | 0 <= i < |tables| ensures tables[i].name in Target(db, tables) {
      assert InTables(tables, tables[i].name);
    }
    TargetAgain(Target(db, tables), tables);
  }

  // Migrating twice in a row.
  method MigrateTwice(db: Database, tables: seq<Table>) returns (first: nat)
    requires DistinctTables(tables)
    modifies db
    ensures db.schema == Target(old(db.schema), tables)
    ensures |old(db.log)| <= first <= |db.log|
    ensures forall i :: first <= i < |db.log| ==> db.log[i].1 && db.log[i].0.ChangeColumn?
  {
    Migrate(db, tables);
    first := |db.log|;
    Migrate(db, tables);
    Converges(old(db.schema), tables);
    PlanJustified(Target(old(db.schema), tables), tables);
  }
}
