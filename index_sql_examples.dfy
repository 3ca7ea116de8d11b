/** The test data of `generate_sql_index_diff` in tests/index_diff_test.rs:
    the statements it expects, spelled out. */
module IndexSqlExamples {
  import opened Wrappers
  import opened NumericField
  import opened StatementMap
  import opened Indexes
  import opened IndexDiffs
  import opened IndexSql

  function EmailIndex(nonUnique: Option<U8>): IndexInfo
  {
    IndexInfo("public", "users", "idx_users_email", "email", None, None, None, None, None, "YES", "BTREE", nonUnique)
  }

  function NameIndex(): IndexInfo
  {
    IndexInfo("public", "users", "idx_users_name", "name", None, None, None, None, None, "YES", "BTREE", None)
  }

  /** The index, schema and table as both statements of the tests name
      them. */
  lemma EmailTarget()
    ensures IndexTarget("idx_users_email", "public", "users") == "`idx_users_email` ON `public`.users"
  {
    assert "`" + "idx_users_email" == "`idx_users_email";
    assert "`idx_users_email" + "` ON `" == "`idx_users_email` ON `";
    assert "`idx_users_email` ON `" + "public" == "`idx_users_email` ON `public";
    assert "`idx_users_email` ON `public" + "`." == "`idx_users_email` ON `public`.";
  }

  lemma NameTarget()
    ensures IndexTarget("idx_users_name", "public", "users") == "`idx_users_name` ON `public`.users"
  {
    assert "`" + "idx_users_name" == "`idx_users_name";
    assert "`idx_users_name" + "` ON `" == "`idx_users_name` ON `";
    assert "`idx_users_name` ON `" + "public" == "`idx_users_name` ON `public";
    assert "`idx_users_name` ON `public" + "`." == "`idx_users_name` ON `public`.";
  }

  /** One index only in each schema: its DROP under the first key and the
      other's CREATE under the second. */
  lemma GenerateExample(sql: StatementMap)
    requires Describes(IndexCategories(IndexDiff([EmailIndex(None)], [NameIndex()], [])), sql)
    ensures DropIndexInFirst in sql && AddIndexInFirst in sql && ModifyIndexInFirst !in sql
    ensures sql[DropIndexInFirst] == "DROP INDEX " + "`idx_users_email` ON `public`.users" + ";"
    ensures sql[AddIndexInFirst] == "CREATE INDEX " + ("`idx_users_name` ON `public`.users" + " (" + "name" + ");")
  {
    var cats := IndexCategories(IndexDiff([EmailIndex(None)], [NameIndex()], []));
    CategoryValue(cats, sql, 0);
    CategoryValue(cats, sql, 1);
    assert |cats[2].statements| == 0;
    EmailTarget();
    NameTarget();
  }

  /** An index that is unique only in schema 1 is re-created UNIQUE when
      schema 2 is modified. */
  lemma UniqueModifyExample(sql: StatementMap)
    requires Describes(IndexCategories(IndexDiff([], [], [IndexDifference("users", "idx_users_email",
               EmailIndex(Some(0)), EmailIndex(Some(1)))])), sql)
    ensures ModifyIndexInSecond in sql
    ensures sql[ModifyIndexInSecond] ==
      "DROP INDEX " + "`idx_users_email` ON `public`.users" + ";" + "\n" +
      ("CREATE UNIQUE INDEX " + ("`idx_users_email` ON `public`.users" + " (" + "email" + ");"))
  {
    var d := IndexDifference("users", "idx_users_email", EmailIndex(Some(0)), EmailIndex(Some(1)));
    var cats := IndexCategories(IndexDiff([], [], [d]));
    CategoryValue(cats, sql, 5);
    EmailTarget();
  }
}
