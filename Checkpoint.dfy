/**
  Respawn's `Checkpoint` object: it asks the database for its tables and
  foreign keys once, plans the deletion, has the database adapter render the
  plan as one command text, keeps that text, and on every `Reset` executes the
  kept text again without looking at the database schema a second time.

  The metadata the adapter's queries return is a `Connection` value, and the
  adapter's rendering of a plan is a function value; executing a script
  appends it to a log of the scripts the database has been sent.
 */
module Checkpoint {
  import opened Planner

  datatype Option<T> = None | Some(value: T)

  /** What the metadata queries of a connection yield: the tables to empty
      (already filtered by the ignore and schema settings) and the foreign-key
      relationships the adapter's query returns. */
  datatype Connection = Connection(tables: seq<string>, relationships: seq<Relationship>)

  /** The part of a database adapter the cache depends on: how it renders
      the tables to delete and the constraints to disable as one command. */
  datatype DbAdapter = DbAdapter(buildDeleteCommandText: (seq<string>, seq<Constraint>) -> string)

  /** .NET's `Char.IsWhiteSpace`: the Unicode space, line and paragraph
      separators and the control characters U+0009 to U+000D, U+0085. */
  predicate IsWhiteSpace(c: char)
  {
    var n := c as int;
    (0x09 <= n <= 0x0D) || n == 0x20 || n == 0x85 || n == 0xA0 || n == 0x1680
    || (0x2000 <= n <= 0x200A) || n == 0x2028 || n == 0x2029 || n == 0x202F
    || n == 0x205F || n == 0x3000
  }

  /** .NET's `String.IsNullOrWhiteSpace`: no string, the empty string, or a
      string of white space only. */
  predicate IsNullOrWhiteSpace(s: Option<string>)
  {
    match s
    case None => true
    case Some(text) => forall i :: 0 <= i < |text| ==> IsWhiteSpace(text[i])
  }

  /** The script a plan of `connection` renders to under `adapter`. */
  function DeleteScript(connection: Connection, adapter: DbAdapter): string
  {
    var plan := Plan(connection.tables, connection.relationships);
    adapter.buildDeleteCommandText(plan.tablesToDelete, plan.foreignKeysToDisable)
  }

  class Checkpoint {
    var tablesToDelete: seq<string>
    var foreignKeysToDisable: seq<Constraint>
    var deleteSql: Option<string>
    var dbAdapter: DbAdapter

    /** The connection and adapter the cached plan and script were built
        from, if they have been built. */
    ghost var builtFrom: Option<(Connection, DbAdapter)>

    /** The scripts sent to the database so far, oldest first. */
    ghost var executedScripts: seq<string>

    /** The cache is either empty, or holds the plan of the connection it was
        built from and that plan rendered by the adapter in use at the time. */
    ghost predicate Consistent()
      reads this
    {
      match builtFrom
      case None =>
        tablesToDelete == [] && foreignKeysToDisable == [] && deleteSql == None
      case Some((connection, adapter)) =>
        var plan := Plan(connection.tables, connection.relationships);
        && tablesToDelete == plan.tablesToDelete
        && foreignKeysToDisable == plan.foreignKeysToDisable
        && deleteSql == Some(DeleteScript(connection, adapter))
    }

    /** A new checkpoint has nothing cached. */
    constructor (adapter: DbAdapter)
      ensures dbAdapter == adapter
      ensures deleteSql == None && builtFrom == None
      ensures executedScripts == []
      ensures Consistent()
    {
      tablesToDelete := [];
      foreignKeysToDisable := [];
      deleteSql := None;
      dbAdapter := adapter;
      builtFrom := None;
      executedScripts := [];
    }

    /** The `DbAdapter` setter: it replaces the adapter and leaves a script
        that is already cached as it is. */
    method SetDbAdapter(adapter: DbAdapter)
      requires Consistent()
      modifies this
      ensures dbAdapter == adapter
      ensures tablesToDelete == old(tablesToDelete) && foreignKeysToDisable == old(foreignKeysToDisable)
      ensures deleteSql == old(deleteSql) && builtFrom == old(builtFrom)
      ensures executedScripts == old(executedScripts)
      ensures Consistent()
    {
      dbAdapter := adapter;
    }

    /** Plans the deletion for the connection's tables and relationships,
        starting from empty accumulators, keeps the plan and caches the
        adapter's rendering of it. */
    method BuildDeleteTables(connection: Connection)
      modifies this
      ensures tablesToDelete == Plan(connection.tables, connection.relationships).tablesToDelete
      ensures foreignKeysToDisable == Plan(connection.tables, connection.relationships).foreignKeysToDisable
      ensures deleteSql == Some(DeleteScript(connection, dbAdapter))
      ensures dbAdapter == old(dbAdapter)
      ensures builtFrom == Some((connection, dbAdapter))
      ensures executedScripts == old(executedScripts)
      ensures Consistent()
    {
      var tables, keys := BuildObjectsList(connection.tables, connection.relationships, [], []);
      tablesToDelete := tables;
      foreignKeysToDisable := keys;
      deleteSql := Some(dbAdapter.buildDeleteCommandText(tablesToDelete, foreignKeysToDisable));
      builtFrom := Some((connection, dbAdapter));
    }

    /** Sends the cached script to the database, in one transaction; the
        cache itself is left as it is. */
    method ExecuteDeleteSql()
      requires deleteSql.Some?
      modifies this
      ensures executedScripts == old(executedScripts) + [old(deleteSql).value]
      ensures tablesToDelete == old(tablesToDelete) && foreignKeysToDisable == old(foreignKeysToDisable)
      ensures deleteSql == old(deleteSql) && dbAdapter == old(dbAdapter) && builtFrom == old(builtFrom)
    {
      executedScripts := executedScripts + [deleteSql.value];
    }

    /** Builds the script only when none, or only white space, is cached, and
        then executes the cached script. A script once built is executed on
        every later call whatever the connection now holds. */
    method Reset(connection: Connection)
      requires Consistent()
      modifies this
      ensures Consistent()
      ensures old(IsNullOrWhiteSpace(deleteSql)) ==>
                builtFrom == Some((connection, dbAdapter))
                && deleteSql == Some(DeleteScript(connection, dbAdapter))
      ensures !old(IsNullOrWhiteSpace(deleteSql)) ==>
                tablesToDelete == old(tablesToDelete) && foreignKeysToDisable == old(foreignKeysToDisable)
                && deleteSql == old(deleteSql) && builtFrom == old(builtFrom)
      ensures dbAdapter == old(dbAdapter) && deleteSql.Some?
      ensures executedScripts == old(executedScripts) + [deleteSql.value]
    {
      if IsNullOrWhiteSpace(deleteSql) {
        BuildDeleteTables(connection);
      }
      ExecuteDeleteSql();
    }
  }

  /** Two resets of one new checkpoint, and the scripts they send: the second
      executes the script built by the first, even against a connection
      whose schema has changed, unless that script was white space only, in
      which case it is built anew. */
  method ResetTwice(adapter: DbAdapter, first: Connection, second: Connection)
    returns (firstScript: string, secondScript: string, ghost executed: seq<string>)
    ensures firstScript == DeleteScript(first, adapter)
    ensures secondScript == if IsNullOrWhiteSpace(Some(firstScript)) then DeleteScript(second, adapter)
                            else firstScript
    ensures executed == [firstScript, secondScript]
  {
    var checkpoint := new Checkpoint(adapter);
    checkpoint.Reset(first);
    firstScript := checkpoint.deleteSql.value;
    checkpoint.Reset(second);
    secondScript := checkpoint.deleteSql.value;
    executed := checkpoint.executedScripts;
  }
}
