/**
 * The statements a schema migration runs to drop a table's primary key, per
 * database dialect: the generator's results as its unit tests fix them.
 */
module DropPrimaryKeySqlGenerator {
  import opened Wrappers

  datatype Dialect = PostgreSql | MsSql | Oracle | H2 | Unknown(id: string)

  datatype Result = Statements(sql: seq<string>) | IllegalState

  /** What the primary-key constraint finder reports about the table. */
  datatype Catalog = Catalog(constraintName: string, postgresSequence: Option<string>)

  function DropConstraint(table: string, constraint: string): string {
    "ALTER TABLE " + table + " DROP CONSTRAINT " + constraint
  }

  function DropDefault(table: string, column: string): string {
    "ALTER TABLE " + table + " ALTER COLUMN " + column + " DROP DEFAULT"
  }

  function DropSequence(sequence: string): string {
    "DROP SEQUENCE " + sequence
  }

  function DropTrigger(trigger: string): string {
    "DROP TRIGGER " + trigger
  }

  /**
   * `generate(table, pkColumn, autogenerated)`. Only Oracle's statements
   * depend on `autogenerated`: it keeps a trigger and a sequence named after
   * the table for generated keys, and its constraint goes with its index.
   */
  function Generate(dialect: Dialect, catalog: Catalog, table: string, pkColumn: string, autogenerated: bool): (r: Result)
    ensures r == IllegalState <==> dialect.Unknown?
    ensures r.Statements? ==> |r.sql| >= 1
    ensures r.Statements? && !dialect.Oracle? ==> r.sql[|r.sql| - 1] == DropConstraint(table, catalog.constraintName)
    ensures r.Statements? && dialect.Oracle? ==> r.sql[|r.sql| - 1] == DropConstraint(table, catalog.constraintName) + " DROP INDEX"
    ensures dialect.PostgreSql? ==>
      r.Statements? && r.sql[0] == DropDefault(table, pkColumn) && (|r.sql| == 3 <==> catalog.postgresSequence.Some?)
  {
    match dialect
    case PostgreSql =>
      Statements([DropDefault(table, pkColumn)]
        + (if catalog.postgresSequence.Some? then [DropSequence(catalog.postgresSequence.value)] else [])
        + [DropConstraint(table, catalog.constraintName)])
    case MsSql => Statements([DropConstraint(table, catalog.constraintName)])
    case H2 => Statements([DropConstraint(table, catalog.constraintName)])
    case Oracle =>
      Statements(
        (if autogenerated then [DropTrigger(table + "_IDT"), DropSequence(table + "_SEQ")] else [])
        + [DropConstraint(table, catalog.constraintName) + " DROP INDEX"])
    case Unknown(_) => IllegalState
  }

  /** MSSQL and H2 drop the constraint and nothing else. */
  lemma MsSqlAndH2AgreeAndOnlyDropTheConstraint(catalog: Catalog, table: string, pkColumn: string, autogenerated: bool)
    ensures Generate(MsSql, catalog, table, pkColumn, autogenerated)
      == Generate(H2, catalog, table, pkColumn, autogenerated)
      == Statements([DropConstraint(table, catalog.constraintName)])
  {
  }

  /** Without a sequence PostgreSQL runs the same statements less the DROP SEQUENCE. */
  lemma PostgreSqlWithoutSequenceOmitsOnlyDropSequence(catalog: Catalog, table: string, pkColumn: string, autogenerated: bool)
    requires catalog.postgresSequence.Some?
    ensures var with := Generate(PostgreSql, catalog, table, pkColumn, autogenerated).sql;
      var without := Generate(PostgreSql, catalog.(postgresSequence := None), table, pkColumn, autogenerated).sql;
      with == [without[0], DropSequence(catalog.postgresSequence.value), without[1]]
  {
  }

  /** For Oracle, a key that is not generated needs only the last of the generated key's statements. */
  lemma OracleNotAutogeneratedIsSuffix(catalog: Catalog, table: string, pkColumn: string)
    ensures var generated := Generate(Oracle, catalog, table, pkColumn, true).sql;
      Generate(Oracle, catalog, table, pkColumn, false).sql == generated[2..]
  {
  }

  // The cases the generator's unit tests fix, on table issues, column id and constraint pk_id.

  const ISSUES_CATALOG := Catalog("pk_id", Some("issues_id_seq"))

  lemma UnknownDialectIsRefused()
    ensures Generate(Unknown("unknown-db-vendor"), ISSUES_CATALOG, "issues", "id", true) == IllegalState
  {
  }

  // The statements on table issues, column id and constraint pk_id, spelt out one at a time.

  lemma DropConstraintSpelt()
    ensures DropConstraint("issues", "pk_id") == "ALTER TABLE issues DROP CONSTRAINT pk_id"
    ensures DropConstraint("issues", "pk_id") + " DROP INDEX" == "ALTER TABLE issues DROP CONSTRAINT pk_id DROP INDEX"
  {
    assert "ALTER TABLE " + "issues" == "ALTER TABLE issues";
    assert "ALTER TABLE issues" + " DROP CONSTRAINT " == "ALTER TABLE issues DROP CONSTRAINT ";
    assert "ALTER TABLE issues DROP CONSTRAINT " + "pk_id" == "ALTER TABLE issues DROP CONSTRAINT pk_id";
  }

  lemma DropDefaultSpelt()
    ensures DropDefault("issues", "id") == "ALTER TABLE issues ALTER COLUMN id DROP DEFAULT"
  {
    assert "ALTER TABLE " + "issues" == "ALTER TABLE issues";
    assert "ALTER TABLE issues" + " ALTER COLUMN " == "ALTER TABLE issues ALTER COLUMN ";
    assert "ALTER TABLE issues ALTER COLUMN " + "id" == "ALTER TABLE issues ALTER COLUMN id";
  }

  lemma SequenceAndTriggerDropsSpelt()
    ensures DropTrigger("issues" + "_IDT") == "DROP TRIGGER issues_IDT"
    ensures DropSequence("issues" + "_SEQ") == "DROP SEQUENCE issues_SEQ"
    ensures DropSequence("issues_id_seq") == "DROP SEQUENCE issues_id_seq"
  {
  }

  lemma PostgreSqlStatements()
    ensures Generate(PostgreSql, ISSUES_CATALOG, "issues", "id", true) == Statements([
      "ALTER TABLE issues ALTER COLUMN id DROP DEFAULT",
      "DROP SEQUENCE issues_id_seq",
      "ALTER TABLE issues DROP CONSTRAINT pk_id"])
    ensures Generate(PostgreSql, ISSUES_CATALOG.(postgresSequence := None), "issues", "id", true) == Statements([
      "ALTER TABLE issues ALTER COLUMN id DROP DEFAULT",
      "ALTER TABLE issues DROP CONSTRAINT pk_id"])
  {
    DropDefaultSpelt();
    SequenceAndTriggerDropsSpelt();
    DropConstraintSpelt();
  }

  lemma MsSqlAndH2Statements()
    ensures Generate(MsSql, ISSUES_CATALOG, "issues", "id", true) == Statements(["ALTER TABLE issues DROP CONSTRAINT pk_id"])
    ensures Generate(H2, ISSUES_CATALOG, "issues", "id", true) == Statements(["ALTER TABLE issues DROP CONSTRAINT pk_id"])
  {
    DropConstraintSpelt();
  }

  lemma OracleStatements()
    ensures Generate(Oracle, ISSUES_CATALOG, "issues", "id", true) == Statements([
      "DROP TRIGGER issues_IDT",
      "DROP SEQUENCE issues_SEQ",
      "ALTER TABLE issues DROP CONSTRAINT pk_id DROP INDEX"])
    ensures Generate(Oracle, ISSUES_CATALOG, "issues", "id", false) == Statements([
      "ALTER TABLE issues DROP CONSTRAINT pk_id DROP INDEX"])
  {
    SequenceAndTriggerDropsSpelt();
    DropConstraintSpelt();
  }
}
