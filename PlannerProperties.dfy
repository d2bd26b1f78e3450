/**
  What the deletion planner guarantees: every table is emitted exactly once
  and nothing else is, a child table is emptied before the table it refers to
  unless the constraint between them is disabled, constraints are disabled
  only when a pass finds no leaf, which happens on a cycle or when a
  relationship that is not self-referencing has a child table that is not
  among the tables being emptied, and
  never for an acyclic schema whose child tables are all being emptied, and
  self-referencing relationships never influence the order.
 */
module PlannerProperties {
  import opened Linq
  import opened Planner

  // ---------------------------------------------------------------------------
  // One pass
  // ---------------------------------------------------------------------------

  /** Dropping the self-referencing relationships keeps exactly the
      relationships between two different tables. */
  lemma {:induction false} NonSelfReferencingKeeps(relationships: seq<Relationship>)
    ensures forall rel :: rel in NonSelfReferencing(relationships) <==>
      rel in relationships && !rel.IsSelfReferencing()
  {
    if relationships != [] {
      assert relationships == [relationships[0]] + relationships[1..];
      NonSelfReferencingKeeps(relationships[1..]);
    }
  }

  /** Projecting relationships onto their primary-key tables yields exactly
      their parents. */
  lemma {:induction false} PrimaryKeyTablesAreParents(relationships: seq<Relationship>)
    ensures forall t :: t in PrimaryKeyTables(relationships) <==>
      exists rel :: rel in relationships && rel.primaryKeyTable == t
  {
    if relationships != [] {
      assert relationships == [relationships[0]] + relationships[1..];
      PrimaryKeyTablesAreParents(relationships[1..]);
    }
  }

  /** Projecting relationships onto their constraints yields exactly the
      constraints of the relationships. */
  lemma {:induction false} ConstraintsAreOwned(relationships: seq<Relationship>)
    ensures forall c :: c in Constraints(relationships) <==>
      exists rel :: rel in relationships && rel.constraint == c
  {
    if relationships != [] {
      assert relationships == [relationships[0]] + relationships[1..];
      ConstraintsAreOwned(relationships[1..]);
    }
  }

  /** A table is referenced exactly when it is the parent of a relationship
      that is not self-referencing; each referenced table is listed once. */
  lemma ReferencedTablesAreParents(relationships: seq<Relationship>)
    ensures NoDuplicates(ReferencedTables(relationships))
    ensures forall t :: t in ReferencedTables(relationships) <==>
      exists rel :: rel in relationships && !rel.IsSelfReferencing() && rel.primaryKeyTable == t
  {
    NonSelfReferencingKeeps(relationships);
    PrimaryKeyTablesAreParents(NonSelfReferencing(relationships));
    DistinctMembers(PrimaryKeyTables(NonSelfReferencing(relationships)));
  }

  /** When a pass finds no leaf it disables the constraint of every
      relationship still under consideration, self-referencing ones included,
      each once, and no other constraint. */
  lemma ConstraintsToDisableAreAllOwned(relationships: seq<Relationship>)
    ensures NoDuplicates(ConstraintsToDisable(relationships))
    ensures forall c :: c in ConstraintsToDisable(relationships) <==>
      exists rel :: rel in relationships && rel.constraint == c
  {
    ConstraintsAreOwned(relationships);
    DistinctMembers(Constraints(relationships));
  }

  /** Exactly the relationships whose child table was not just emitted
      survive into the next pass. */
  lemma {:induction false} RemainingRelationshipsKeep(relationships: seq<Relationship>, leafTables: seq<string>)
    ensures forall rel :: rel in RemainingRelationships(relationships, leafTables) <==>
      rel in relationships && rel.foreignKeyTable !in leafTables
  {
    if relationships != [] {
      assert relationships == [relationships[0]] + relationships[1..];
      RemainingRelationshipsKeep(relationships[1..], leafTables);
    }
  }

  // ---------------------------------------------------------------------------
  // Completeness
  // ---------------------------------------------------------------------------

  /** Every input table is emitted, and no other name is. */
  lemma {:induction false} PlanEmitsExactlyTheInputTables(tables: seq<string>, relationships: seq<Relationship>)
    ensures forall t :: t in Plan(tables, relationships).tablesToDelete <==> t in tables
    decreases |tables|
  {
    var referencedTables := ReferencedTables(relationships);
    var leafTables := LeafTables(tables, referencedTables);
    ExceptMembers(tables, referencedTables);
    if |referencedTables| > 0 && |leafTables| > 0 {
      RemainingTablesShrink(tables, referencedTables);
      ExceptMembers(tables, leafTables);
      PlanEmitsExactlyTheInputTables(RemainingTables(tables, leafTables),
                                     RemainingRelationships(relationships, leafTables));
    }
  }

  /** Every disabled constraint is the constraint of an input relationship. */
  lemma {:induction false} PlanDisablesOnlyInputConstraints(tables: seq<string>, relationships: seq<Relationship>)
    ensures forall c :: c in Plan(tables, relationships).foreignKeysToDisable ==>
      exists rel :: rel in relationships && rel.constraint == c
    decreases |tables|
  {
    var referencedTables := ReferencedTables(relationships);
    var leafTables := LeafTables(tables, referencedTables);
    if |referencedTables| > 0 && |leafTables| == 0 {
      ConstraintsToDisableAreAllOwned(relationships);
    } else if |referencedTables| > 0 {
      RemainingTablesShrink(tables, referencedTables);
      var remaining := RemainingRelationships(relationships, leafTables);
      PlanDisablesOnlyInputConstraints(RemainingTables(tables, leafTables), remaining);
      RemainingRelationshipsKeep(relationships, leafTables);
    }
  }

  /** For input tables without repeats, no table is emitted twice. */
  lemma {:induction false} PlanHasNoDuplicates(tables: seq<string>, relationships: seq<Relationship>)
    requires NoDuplicates(tables)
    ensures NoDuplicates(Plan(tables, relationships).tablesToDelete)
    decreases |tables|
  {
    var referencedTables := ReferencedTables(relationships);
    var leafTables := LeafTables(tables, referencedTables);
    ExceptMembers(tables, referencedTables);
    if |referencedTables| > 0 && |leafTables| > 0 {
      RemainingTablesShrink(tables, referencedTables);
      var remaining := RemainingTables(tables, leafTables);
      var next := RemainingRelationships(relationships, leafTables);
      ExceptMembers(tables, leafTables);
      PlanHasNoDuplicates(remaining, next);
      PlanEmitsExactlyTheInputTables(remaining, next);
      NoDuplicatesAppend(leafTables, Plan(remaining, next).tablesToDelete);
    }
  }

  /** For input tables without repeats, the deletion order is a permutation
      of the input: every table is emitted exactly once. */
  lemma PlanIsPermutation(tables: seq<string>, relationships: seq<Relationship>)
    requires NoDuplicates(tables)
    ensures multiset(Plan(tables, relationships).tablesToDelete) == multiset(tables)
  {
    PlanHasNoDuplicates(tables, relationships);
    PlanEmitsExactlyTheInputTables(tables, relationships);
    SameElementsPermutation(Plan(tables, relationships).tablesToDelete, tables);
  }

  // ---------------------------------------------------------------------------
  // Ordering
  // ---------------------------------------------------------------------------

  /** Both `child` and `parent` occur in `order`, and every occurrence of
      `child` comes before every occurrence of `parent`. */
  ghost predicate DeletedBefore(order: seq<string>, child: string, parent: string)
  {
    && child in order
    && parent in order
    && forall i, j :: 0 <= i < |order| && 0 <= j < |order| && order[i] == child && order[j] == parent ==> i < j
  }

  /** A table emitted by this pass precedes a table left for later passes. */
  lemma EmittedBeforeRemaining(first: seq<string>, rest: seq<string>, child: string, parent: string)
    requires child in first && child !in rest
    requires parent !in first && parent in rest
    ensures DeletedBefore(first + rest, child, parent)
  {
  }

  /** The order found among later passes survives the tables emitted before
      them. */
  lemma DeletedBeforeAfterPrefix(first: seq<string>, rest: seq<string>, child: string, parent: string)
    requires child !in first && parent !in first
    requires DeletedBefore(rest, child, parent)
    ensures DeletedBefore(first + rest, child, parent)
  {
  }

  /** Ordering soundness: for a relationship between two different input
      tables whose constraint stays enabled, the child table is emptied
      before the parent table it refers to. */
  lemma {:induction false} ChildDeletedBeforeParent(tables: seq<string>, relationships: seq<Relationship>, rel: Relationship)
    requires rel in relationships && !rel.IsSelfReferencing()
    requires rel.foreignKeyTable in tables && rel.primaryKeyTable in tables
    requires rel.constraint !in Plan(tables, relationships).foreignKeysToDisable
    ensures DeletedBefore(Plan(tables, relationships).tablesToDelete, rel.foreignKeyTable, rel.primaryKeyTable)
    decreases |tables|
  {
    var referencedTables := ReferencedTables(relationships);
    var leafTables := LeafTables(tables, referencedTables);
    ReferencedTablesAreParents(relationships);
    assert rel.primaryKeyTable in referencedTables;
    if |leafTables| == 0 {
      ConstraintsToDisableAreAllOwned(relationships);
      assert false;
    }
    RemainingTablesShrink(tables, referencedTables);
    var remaining := RemainingTables(tables, leafTables);
    ExceptMembers(tables, referencedTables);
    ExceptMembers(tables, leafTables);
    var next := RemainingRelationships(relationships, leafTables);
    var rest := Plan(remaining, next).tablesToDelete;
    PlanEmitsExactlyTheInputTables(remaining, next);
    if rel.foreignKeyTable in leafTables {
      EmittedBeforeRemaining(leafTables, rest, rel.foreignKeyTable, rel.primaryKeyTable);
    } else {
      RemainingRelationshipsKeep(relationships, leafTables);
      ChildDeletedBeforeParent(remaining, next, rel);
      DeletedBeforeAfterPrefix(leafTables, rest, rel.foreignKeyTable, rel.primaryKeyTable);
    }
  }

  // ---------------------------------------------------------------------------
  // Self-referencing relationships
  // ---------------------------------------------------------------------------

  /** Forgetting the relationships of emitted child tables commutes with
      dropping the self-referencing ones. */
  lemma {:induction false} NonSelfReferencingOfRemaining(relationships: seq<Relationship>, leafTables: seq<string>)
    ensures NonSelfReferencing(RemainingRelationships(relationships, leafTables))
         == RemainingRelationships(NonSelfReferencing(relationships), leafTables)
  {
    if relationships != [] {
      NonSelfReferencingOfRemaining(relationships[1..], leafTables);
    }
  }

  /** Two sets of relationships that differ only in their self-referencing
      relationships give the same deletion order: a table that refers to
      itself is never kept from being a leaf. */
  lemma {:induction false} SelfReferencesDoNotAffectOrder(tables: seq<string>, relationships: seq<Relationship>, others: seq<Relationship>)
    requires NonSelfReferencing(relationships) == NonSelfReferencing(others)
    ensures Plan(tables, relationships).tablesToDelete == Plan(tables, others).tablesToDelete
    decreases |tables|
  {
    var referencedTables := ReferencedTables(relationships);
    var leafTables := LeafTables(tables, referencedTables);
    assert ReferencedTables(others) == referencedTables;
    if |referencedTables| > 0 && |leafTables| > 0 {
      RemainingTablesShrink(tables, referencedTables);
      NonSelfReferencingOfRemaining(relationships, leafTables);
      NonSelfReferencingOfRemaining(others, leafTables);
      SelfReferencesDoNotAffectOrder(RemainingTables(tables, leafTables),
                                     RemainingRelationships(relationships, leafTables),
                                     RemainingRelationships(others, leafTables));
    }
  }

  /** Relationships that all refer to their own table leave nothing for the
      planner to order. */
  lemma {:induction false} OnlySelfReferencing(relationships: seq<Relationship>)
    requires forall rel :: rel in relationships ==> rel.IsSelfReferencing()
    ensures NonSelfReferencing(relationships) == []
    ensures ReferencedTables(relationships) == []
  {
    if relationships != [] {
      assert relationships[0].IsSelfReferencing();
      assert forall rel :: rel in relationships[1..] ==> rel in relationships;
      OnlySelfReferencing(relationships[1..]);
    }
  }

  /** Without any relationship between two different tables, the tables are
      emptied in input order and no constraint is disabled. */
  lemma PlanWithoutDependencies(tables: seq<string>, relationships: seq<Relationship>)
    requires NoDuplicates(tables)
    requires forall rel :: rel in relationships ==> rel.IsSelfReferencing()
    ensures Plan(tables, relationships) == ObjectsList(tables, [])
  {
    OnlySelfReferencing(relationships);
    assert (set x: string | x in []) == {};
    FirstOccurrencesOfFresh(tables, {});
  }

  // ---------------------------------------------------------------------------
  // Disabled constraints
  // ---------------------------------------------------------------------------

  /** Some pass of the planner finds tables still referenced but no leaf:
      the remaining tables form a cycle, or a remaining relationship that is
      not self-referencing has a child table that is not among them. */
  ghost predicate NoLeafReached(tables: seq<string>, relationships: seq<Relationship>)
    decreases |tables|
  {
    var referencedTables := ReferencedTables(relationships);
    var leafTables := LeafTables(tables, referencedTables);
    if |referencedTables| > 0 && |leafTables| == 0 then true
    else if |referencedTables| > 0 then
      RemainingTablesShrink(tables, referencedTables);
      NoLeafReached(RemainingTables(tables, leafTables), RemainingRelationships(relationships, leafTables))
    else false
  }

  /** Constraints are disabled exactly when some pass finds no leaf, and
      then each of them once. */
  lemma {:induction false} DisablesOnlyWithoutLeaf(tables: seq<string>, relationships: seq<Relationship>)
    ensures Plan(tables, relationships).foreignKeysToDisable != [] <==> NoLeafReached(tables, relationships)
    ensures NoDuplicates(Plan(tables, relationships).foreignKeysToDisable)
    decreases |tables|
  {
    var referencedTables := ReferencedTables(relationships);
    var leafTables := LeafTables(tables, referencedTables);
    if |referencedTables| > 0 && |leafTables| == 0 {
      ReferencedTablesAreParents(relationships);
      ConstraintsToDisableAreAllOwned(relationships);
      assert referencedTables[0] in referencedTables;
      var rel :| rel in relationships && !rel.IsSelfReferencing() && rel.primaryKeyTable == referencedTables[0];
      assert rel.constraint in ConstraintsToDisable(relationships);
    } else if |referencedTables| > 0 {
      RemainingTablesShrink(tables, referencedTables);
      DisablesOnlyWithoutLeaf(RemainingTables(tables, leafTables), RemainingRelationships(relationships, leafTables));
    }
  }

  /** A pass that finds every table still referenced gives up ordering: it
      emits the remaining tables as they are, in input order, disables the
      constraints of all remaining relationships (self-referencing ones
      included) each once, and stops. */
  lemma NoLeafDisablesEverything(tables: seq<string>, relationships: seq<Relationship>)
    requires exists rel :: rel in relationships && !rel.IsSelfReferencing()
    requires forall t :: t in tables ==>
      exists rel :: rel in relationships && !rel.IsSelfReferencing() && rel.primaryKeyTable == t
    ensures Plan(tables, relationships).tablesToDelete == tables
    ensures NoDuplicates(Plan(tables, relationships).foreignKeysToDisable)
    ensures forall rel :: rel in relationships ==> rel.constraint in Plan(tables, relationships).foreignKeysToDisable
  {
    ReferencedTablesAreParents(relationships);
    ConstraintsToDisableAreAllOwned(relationships);
    var rel :| rel in relationships && !rel.IsSelfReferencing();
    assert rel.primaryKeyTable in ReferencedTables(relationships);
    ExceptMembers(tables, ReferencedTables(relationships));
  }

  /** The table of least rank in a non-empty list. */
  lemma {:induction false} LowestRanked(tables: seq<string>, rank: string -> nat) returns (lowest: string)
    requires |tables| > 0
    ensures lowest in tables
    ensures forall t :: t in tables ==> rank(lowest) <= rank(t)
  {
    if |tables| == 1 {
      lowest := tables[0];
    } else {
      var others := LowestRanked(tables[1..], rank);
      lowest := if rank(tables[0]) <= rank(others) then tables[0] else others;
      assert tables == [tables[0]] + tables[1..];
    }
  }

  /** An acyclic schema never needs a constraint disabled: when every child
      table is among the tables being emptied and some ranking of the tables
      puts every child strictly below the table it refers to, every pass finds
      a leaf. */
  lemma {:induction false} AcyclicNeverDisables(tables: seq<string>, relationships: seq<Relationship>, rank: string -> nat)
    requires forall rel :: rel in relationships && !rel.IsSelfReferencing() ==>
      rel.foreignKeyTable in tables && rank(rel.foreignKeyTable) < rank(rel.primaryKeyTable)
    ensures Plan(tables, relationships).foreignKeysToDisable == []
    decreases |tables|
  {
    var referencedTables := ReferencedTables(relationships);
    var leafTables := LeafTables(tables, referencedTables);
    if |referencedTables| > 0 {
      ReferencedTablesAreParents(relationships);
      assert referencedTables[0] in referencedTables;
      var some :| some in relationships && !some.IsSelfReferencing() && some.primaryKeyTable == referencedTables[0];
      var lowest := LowestRanked(tables, rank);
      assert lowest !in referencedTables;
      ExceptMembers(tables, referencedTables);
      assert lowest in leafTables;
      RemainingTablesShrink(tables, referencedTables);
      ExceptMembers(tables, leafTables);
      var remaining := RemainingTables(tables, leafTables);
      var next := RemainingRelationships(relationships, leafTables);
      RemainingRelationshipsKeep(relationships, leafTables);
      AcyclicNeverDisables(remaining, next, rank);
    }
  }

  /** A relationship that is not self-referencing and whose child table is
      not among the tables being emptied always has its constraint disabled: its parent stays referenced in every
      pass, so the planner ends in a pass without a leaf, whether or not the
      tables form a cycle. */
  lemma {:induction false} ChildOutsideTablesAlwaysDisabled(tables: seq<string>, relationships: seq<Relationship>, rel: Relationship)
    requires rel in relationships && !rel.IsSelfReferencing()
    requires rel.foreignKeyTable !in tables
    ensures rel.constraint in Plan(tables, relationships).foreignKeysToDisable
    decreases |tables|
  {
    var referencedTables := ReferencedTables(relationships);
    var leafTables := LeafTables(tables, referencedTables);
    ReferencedTablesAreParents(relationships);
    assert rel.primaryKeyTable in referencedTables;
    if |leafTables| == 0 {
      ConstraintsToDisableAreAllOwned(relationships);
    } else {
      RemainingTablesShrink(tables, referencedTables);
      ExceptMembers(tables, referencedTables);
      ExceptMembers(tables, leafTables);
      RemainingRelationshipsKeep(relationships, leafTables);
      ChildOutsideTablesAlwaysDisabled(RemainingTables(tables, leafTables),
                                       RemainingRelationships(relationships, leafTables), rel);
    }
  }

  // ---------------------------------------------------------------------------
  // Scenarios
  // ---------------------------------------------------------------------------

  /** A child and its parent: the child is emptied first, nothing is disabled. */
  lemma OrderItemsBeforeOrders()
    ensures Plan(["Orders", "OrderItems"],
                 [Relationship("Orders", "OrderItems", Constraint("FK_OrderItems_Orders", "OrderItems"))])
         == ObjectsList(["OrderItems", "Orders"], [])
  {
    var tables := ["Orders", "OrderItems"];
    var rel := Relationship("Orders", "OrderItems", Constraint("FK_OrderItems_Orders", "OrderItems"));
    assert NonSelfReferencing([rel]) == [rel];
    assert PrimaryKeyTables([rel]) == ["Orders"];
    assert FirstOccurrences(["Orders"], {}) == ["Orders"];
    assert ReferencedTables([rel]) == ["Orders"];
    assert (set x | x in ["Orders"]) == {"Orders"};
    assert FirstOccurrences(["OrderItems"], {"Orders"}) == ["OrderItems"];
    assert LeafTables(tables, ["Orders"]) == ["OrderItems"];
    assert RemainingRelationships([rel], ["OrderItems"]) == [];
    assert (set x | x in ["OrderItems"]) == {"OrderItems"};
    assert tables[1..] == ["OrderItems"];
    assert FirstOccurrences(["OrderItems"], {"OrderItems"} + {"Orders"}) == [];
    assert RemainingTables(tables, ["OrderItems"]) == ["Orders"];
    assert ReferencedTables([]) == [];
    assert (set x: string | x in []) == {};
    assert LeafTables(["Orders"], []) == ["Orders"];
  }

  /** Three tables in a cycle are emitted together, in input order, with all
      three constraints disabled. */
  lemma ThreeTableCycle()
    ensures Plan(["A", "B", "C"],
                 [Relationship("B", "A", Constraint("FK_A_B", "A")),
                  Relationship("C", "B", Constraint("FK_B_C", "B")),
                  Relationship("A", "C", Constraint("FK_C_A", "C"))])
         == ObjectsList(["A", "B", "C"],
                        [Constraint("FK_A_B", "A"), Constraint("FK_B_C", "B"), Constraint("FK_C_A", "C")])
  {
    var relationships := [Relationship("B", "A", Constraint("FK_A_B", "A")),
                          Relationship("C", "B", Constraint("FK_B_C", "B")),
                          Relationship("A", "C", Constraint("FK_C_A", "C"))];
    var constraints := [Constraint("FK_A_B", "A"), Constraint("FK_B_C", "B"), Constraint("FK_C_A", "C")];
    assert NonSelfReferencing(relationships) == relationships;
    assert PrimaryKeyTables(relationships) == ["B", "C", "A"];
    FirstOccurrencesOfFresh(["B", "C", "A"], {});
    assert ReferencedTables(relationships) == ["B", "C", "A"];
    ExceptMembers(["A", "B", "C"], ["B", "C", "A"]);
    assert LeafTables(["A", "B", "C"], ["B", "C", "A"]) == [];
    assert Constraints(relationships) == constraints;
    FirstOccurrencesOfFresh(constraints, {});
    assert ConstraintsToDisable(relationships) == constraints;
  }

  /** A single relationship whose child table is not among the tables being
      emptied: its parent is referenced and no table is a leaf, so the
      planner disables the constraint although there is no cycle. */
  lemma ChildOutsideTablesDisables()
    ensures Plan(["P"], [Relationship("P", "C", Constraint("FK", "C"))])
         == ObjectsList(["P"], [Constraint("FK", "C")])
  {
    var rel := Relationship("P", "C", Constraint("FK", "C"));
    assert NonSelfReferencing([rel]) == [rel];
    assert PrimaryKeyTables([rel]) == ["P"];
    FirstOccurrencesOfFresh(["P"], {});
    assert ReferencedTables([rel]) == ["P"];
    ExceptMembers(["P"], ["P"]);
    assert LeafTables(["P"], ["P"]) == [];
    assert Constraints([rel]) == [rel.constraint];
    FirstOccurrencesOfFresh([rel.constraint], {});
  }
}
