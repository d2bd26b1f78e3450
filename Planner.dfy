/**
  The deletion planner of Respawn's `Checkpoint`: from the tables to empty and
  the foreign-key relationships between them it computes an order in which the
  tables can be emptied without violating a foreign key, and the constraints
  it disables when a pass finds no table to emit: when the relationships form
  a cycle, or when a relationship that is not self-referencing has a child
  table that is not among the tables.

  Each pass drops the self-referencing relationships, collects the tables that
  some remaining relationship still points to as its primary-key (parent)
  table, emits every other table, forgets the relationships whose
  foreign-key (child) table was just emitted, and recurses on the tables left.
 */
module Planner {
  import opened Linq

  /** A foreign-key constraint: its name and the table that owns it.
      Compared by value. */
  datatype Constraint = Constraint(foreignKey: string, foreignKeyTable: string)

  /** One foreign key: `foreignKeyTable` (the child) refers to
      `primaryKeyTable` (the parent) through `constraint`. */
  datatype Relationship = Relationship(primaryKeyTable: string, foreignKeyTable: string, constraint: Constraint)
  {
    /** A table that refers to itself. */
    predicate IsSelfReferencing()
    {
      primaryKeyTable == foreignKeyTable
    }
  }

  /** The planner's result: the tables in the order they are to be emptied,
      and the constraints to disable first. */
  datatype ObjectsList = ObjectsList(tablesToDelete: seq<string>, foreignKeysToDisable: seq<Constraint>)

  // ---------------------------------------------------------------------------
  // One pass, as the LINQ expressions of the source compute it
  // ---------------------------------------------------------------------------

  /** The relationships that are not self-referencing, in order. */
  function NonSelfReferencing(relationships: seq<Relationship>): seq<Relationship>
  {
    if relationships == [] then []
    else if relationships[0].IsSelfReferencing() then NonSelfReferencing(relationships[1..])
    else [relationships[0]] + NonSelfReferencing(relationships[1..])
  }

  /** The parent table of each relationship, in order. */
  function PrimaryKeyTables(relationships: seq<Relationship>): seq<string>
  {
    if relationships == [] then []
    else [relationships[0].primaryKeyTable] + PrimaryKeyTables(relationships[1..])
  }

  /** The constraint of each relationship, in order. */
  function Constraints(relationships: seq<Relationship>): seq<Constraint>
  {
    if relationships == [] then []
    else [relationships[0].constraint] + Constraints(relationships[1..])
  }

  /** The tables some other table still depends on: the distinct parents of
      the relationships that are not self-referencing. */
  function ReferencedTables(relationships: seq<Relationship>): seq<string>
  {
    Distinct(PrimaryKeyTables(NonSelfReferencing(relationships)))
  }

  /** The tables nothing depends on any more, without repeats, in input order. */
  function LeafTables(tables: seq<string>, referencedTables: seq<string>): seq<string>
  {
    Except(tables, referencedTables)
  }

  /** The constraints disabled when a pass finds no leaf (a cycle, or a
      relationship that is not self-referencing whose child table is not
      being emptied): those of every
      relationship still under consideration, self-referencing ones included,
      each once. */
  function ConstraintsToDisable(relationships: seq<Relationship>): seq<Constraint>
  {
    Distinct(Constraints(relationships))
  }

  /** The relationships whose child table has not been emitted yet. */
  function RemainingRelationships(relationships: seq<Relationship>, leafTables: seq<string>): seq<Relationship>
  {
    if relationships == [] then []
    else if relationships[0].foreignKeyTable in leafTables then RemainingRelationships(relationships[1..], leafTables)
    else [relationships[0]] + RemainingRelationships(relationships[1..], leafTables)
  }

  /** The tables not emitted yet, without repeats, in input order. */
  function RemainingTables(tables: seq<string>, leafTables: seq<string>): seq<string>
  {
    Except(tables, leafTables)
  }

  /** The planner recurses only after emitting at least one of its tables, so
      every recursive call gets strictly fewer tables. */
  lemma RemainingTablesShrink(tables: seq<string>, referencedTables: seq<string>)
    requires |LeafTables(tables, referencedTables)| > 0
    ensures |RemainingTables(tables, LeafTables(tables, referencedTables))| < |tables|
  {
    var leafTables := LeafTables(tables, referencedTables);
    ExceptMembers(tables, referencedTables);
    assert leafTables[0] in tables;
    FirstOccurrencesShrinks(tables, (set x | x in leafTables), leafTables[0]);
  }

  // ---------------------------------------------------------------------------
  // The whole plan
  // ---------------------------------------------------------------------------

  /** The plan the recursion produces, as a value: the tables emitted by this
      pass followed by those of the recursive call, and the constraints
      disabled by the pass that found no leaf, if any. Its properties are
      proved in module PlannerProperties. */
  function Plan(allTables: seq<string>, allRelationships: seq<Relationship>): ObjectsList
    decreases |allTables|
  {
    var referencedTables := ReferencedTables(allRelationships);
    var leafTables := LeafTables(allTables, referencedTables);
    if |referencedTables| > 0 && |leafTables| == 0 then
      ObjectsList(allTables, ConstraintsToDisable(allRelationships))
    else if |referencedTables| > 0 then
      RemainingTablesShrink(allTables, referencedTables);
      var rest := Plan(RemainingTables(allTables, leafTables),
                       RemainingRelationships(allRelationships, leafTables));
      ObjectsList(leafTables + rest.tablesToDelete, rest.foreignKeysToDisable)
    else
      ObjectsList(leafTables, [])
  }

  /** `BuildObjectsList`: appends the plan for `allTables` and
      `allRelationships` to the accumulators `tablesToDelete` and
      `foreignKeysToDisable` that the recursion threads through its calls
      (the first call passes empty ones). */
  method BuildObjectsList(allTables: seq<string>, allRelationships: seq<Relationship>,
                          tablesToDelete: seq<string>, foreignKeysToDisable: seq<Constraint>)
    returns (tables: seq<string>, keys: seq<Constraint>)
    ensures tables == tablesToDelete + Plan(allTables, allRelationships).tablesToDelete
    ensures keys == foreignKeysToDisable + Plan(allTables, allRelationships).foreignKeysToDisable
    decreases |allTables|
  {
    tables, keys := tablesToDelete, foreignKeysToDisable;

    var referencedTables := ReferencedTables(allRelationships);
    var leafTables := LeafTables(allTables, referencedTables);

    if |referencedTables| > 0 && |leafTables| == 0 {
      keys := keys + ConstraintsToDisable(allRelationships);
      leafTables := allTables;
      referencedTables := [];
    }

    tables := tables + leafTables;

    if |referencedTables| > 0 {
      var relationships := RemainingRelationships(allRelationships, leafTables);
      var remaining := RemainingTables(allTables, leafTables);
      RemainingTablesShrink(allTables, referencedTables);
      tables, keys := BuildObjectsList(remaining, relationships, tables, keys);
    }
  }
}
