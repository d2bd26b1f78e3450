# Respawn's deletion planner and script cache, in Dafny

Respawn resets a test database by deleting the rows of every table. It does this in an order that does not violate foreign keys. A `Checkpoint` reads the database's tables and foreign-key relationships once. It then computes that order with `BuildObjectsList` and has the database adapter render the result as one delete script. It keeps the script and runs it again on every later `Reset`.

This project models that planner and that cache:

- **`Linq.dfy`**: the two .NET LINQ operators the planner relies on, `Distinct` and `Except`.
  - Both walk their first sequence once, keep each element's first occurrence and drop repeats.
  - `Except` also drops every element of its second sequence.
- **`Planner.dfy`**: the relationship and constraint values, the passes of `BuildObjectsList`, the plan as a function (`Plan`) and the recursive method `BuildObjectsList`.
  - Each pass works as follows. It drops self-referencing relationships. It collects the distinct parent tables that are still referenced. It emits every other table, which is a leaf. It forgets the relationships owned by the emitted tables, then recurses on the tables that are left.
  - A pass can find referenced tables but no leaf. This happens when the remaining tables form a cycle, or when a remaining relationship that is not self-referencing has a child table that is not among the tables being emptied. In that case the pass disables the constraints of every relationship still under consideration, emits all remaining tables and stops.
  - The method threads the two accumulator lists through its recursive calls as sequence values and is proved equal to `Plan`.
- **`PlannerProperties.dfy`**: what the plan guarantees.
  - Every input table is emitted. On input without repeats, each table is emitted once, as a permutation.
  - Take a relationship that is not self-referencing, with both its tables among those being emptied. Its child table is emptied before its parent, unless the constraint between them is disabled.
  - A relationship that is not self-referencing, whose child table is not being emptied, always has its constraint disabled.
  - Self-referencing relationships never change the order. On input tables without repeats and only self-references, the tables are emptied in input order.
  - Constraints are disabled exactly when a pass finds no leaf. An acyclic schema whose child tables are all being emptied disables nothing. Suppose at least one relationship is not self-referencing, and every table is the parent of such a relationship. Then every constraint is disabled.
  - Three worked scenarios are included.
- **`Checkpoint.dfy`**: the `Checkpoint` class.
  - When no call fails, its plan fields and the cached script (`_deleteSql`) stay consistent with the plan of the connection they were built from.
  - `Reset` builds the script only when the cached one is null or white space, and otherwise runs the cached script whatever the database now holds.
  - Running a script appends it to a ghost log of the scripts the database has been sent.

The planner follows the C# code where it differs from the intent the code itself records. Lines 110-114 are a commented-out error for a pass without a leaf. That error names a circular reference as the cause. It also tells users who ignore tables to ignore the tables those have primary-key relationships with. The model follows the code that replaced it.

- **Self-referencing constraints when no leaf is found.** When a pass finds no leaf, the code disables the constraints of all remaining relationships (`allRelationships.Select(r => r.Constraint)`). That includes self-referencing ones, and the model does the same.
- **No leaf without a cycle.** The commented-out error treats a pass without a leaf as a circular reference. The code also takes that branch when a relationship that is not self-referencing has a child table that is not among the tables being emptied. The constraint is then disabled although there is no cycle. `PlannerProperties.ChildOutsideTablesAlwaysDisabled` proves this for every such relationship, and `PlannerProperties.ChildOutsideTablesDisables` shows it on one.
- **Table order when no leaf is found.** The planner emits the remaining tables in their input order. On this branch they are not de-duplicated (`allTables.ToList()`). Every other pass de-duplicates its tables through `Except`.

## Model

| member | source | states |
|---|---|---|
| Planner.Relationship.IsSelfReferencing | Respawn/Checkpoint.cs:32 | A relationship is self-referencing when its parent and child tables are the same; `PlannerProperties.NonSelfReferencingKeeps` and `PlannerProperties.SelfReferencesDoNotAffectOrder` state what follows from it. |
| Linq.Distinct | Respawn/Checkpoint.cs:103 | `Distinct`, used again at line 116; `Linq.DistinctMembers` states its contents. |
| Linq.Except | Respawn/Checkpoint.cs:106 | `Except`, used again at line 127; `Linq.ExceptMembers` states its contents. |
| Planner.Plan | Respawn/Checkpoint.cs:87-132 | The plan `BuildObjectsList` produces, as a value; the `PlannerProperties` rows below state its properties. |
| Checkpoint.IsNullOrWhiteSpace | Respawn/Checkpoint.cs:50 | `String.IsNullOrWhiteSpace` over `Char.IsWhiteSpace`'s characters; `Checkpoint.Checkpoint.Reset` states when it triggers a rebuild. |
| Planner.NonSelfReferencing | Respawn/Checkpoint.cs:101 | The relationships that are not self-referencing, in order; `PlannerProperties.NonSelfReferencingKeeps` states its contents. |
| Planner.PrimaryKeyTables | Respawn/Checkpoint.cs:102 | The parent table of each relationship, in order; `PlannerProperties.PrimaryKeyTablesAreParents` states its contents. |
| Planner.Constraints | Respawn/Checkpoint.cs:116 | The constraint of each relationship, in order; `PlannerProperties.ConstraintsAreOwned` states its contents. |
| Planner.ReferencedTables | Respawn/Checkpoint.cs:100-104 | The distinct parents of the relationships that are not self-referencing; `PlannerProperties.ReferencedTablesAreParents` states its contents. |
| Planner.LeafTables | Respawn/Checkpoint.cs:106 | The tables not referenced, without repeats; `Linq.ExceptMembers` states its contents. |
| Planner.ConstraintsToDisable | Respawn/Checkpoint.cs:116 | The distinct constraints of all remaining relationships; `PlannerProperties.ConstraintsToDisableAreAllOwned` states its contents. |
| Planner.RemainingRelationships | Respawn/Checkpoint.cs:126 | The relationships whose child table was not emitted; `PlannerProperties.RemainingRelationshipsKeep` states its contents. |
| Planner.RemainingTables | Respawn/Checkpoint.cs:127 | The tables not emitted, without repeats; `Linq.ExceptMembers` states its contents and `Planner.RemainingTablesShrink` that it is shorter than the input once a leaf was found. |
| Checkpoint.DeleteScript | Respawn/Checkpoint.cs:84 | The adapter's rendering of the plan of a connection; `Checkpoint.Checkpoint.BuildDeleteTables` caches it and `Checkpoint.ResetTwice` states which one is sent. |
| Checkpoint.IsWhiteSpace | Respawn/Checkpoint.cs:50 | The white-space characters of `Char.IsWhiteSpace` that `String.IsNullOrWhiteSpace` tests; `Checkpoint.Checkpoint.Reset` states when they trigger a rebuild. |
| Linq.FirstOccurrencesMembers | Respawn/Checkpoint.cs:100-106 | The walk behind `Distinct` and `Except` yields exactly the elements of the input that are not excluded. It yields none of them twice and never more than the input has. It yields nothing when every element is excluded. |
| Linq.DistinctMembers | Respawn/Checkpoint.cs:100-104 | `Distinct` keeps every element of its source and repeats none. |
| Linq.ExceptMembers | Respawn/Checkpoint.cs:106 | `first.Except(second)` holds exactly the elements of `first` absent from `second`, each once. It is empty when `second` covers `first`. |
| Linq.FirstOccurrencesOfFresh | Respawn/Checkpoint.cs:100-106 | On a sequence without repeats and with nothing excluded, `Distinct`/`Except` return the sequence unchanged, order included. |
| Linq.FirstOccurrencesShrinks | Respawn/Checkpoint.cs:127 | Excluding an element that occurs in the input makes the result strictly shorter than the input. |
| Planner.RemainingTablesShrink | Respawn/Checkpoint.cs:124-129 | Once a pass has found a leaf, the recursive call receives strictly fewer tables, so the recursion terminates. |
| Planner.BuildObjectsList | Respawn/Checkpoint.cs:87-132 | Started from any accumulators, the method returns them extended by the plan's tables to delete and constraints to disable. |
| PlannerProperties.NonSelfReferencingKeeps | Respawn/Checkpoint.cs:32 | The filter before the parents are collected keeps exactly the relationships whose two tables differ, that is, those that are not self-referencing. |
| PlannerProperties.PrimaryKeyTablesAreParents | Respawn/Checkpoint.cs:102 | Projecting relationships onto their primary-key tables yields exactly the parents of those relationships. |
| PlannerProperties.ConstraintsAreOwned | Respawn/Checkpoint.cs:116 | Projecting relationships onto their constraints yields exactly those relationships' constraints. |
| PlannerProperties.ReferencedTablesAreParents | Respawn/Checkpoint.cs:100-104 | The referenced tables are without repeats. A table is referenced iff it is the parent of some relationship that is not self-referencing. |
| PlannerProperties.ConstraintsToDisableAreAllOwned | Respawn/Checkpoint.cs:116 | The constraints disabled when a pass finds no leaf are without repeats. A constraint is among them iff it is the constraint of some remaining relationship, self-referencing ones included. |
| PlannerProperties.RemainingRelationshipsKeep | Respawn/Checkpoint.cs:126 | The relationships passed on are exactly those whose child table was not emitted in this pass. |
| PlannerProperties.PlanEmitsExactlyTheInputTables | Respawn/Checkpoint.cs:87-132 | Every input table is emptied, and nothing else is. |
| PlannerProperties.PlanDisablesOnlyInputConstraints | Respawn/Checkpoint.cs:108-120 | Every disabled constraint belongs to an input relationship. |
| PlannerProperties.PlanHasNoDuplicates | Respawn/Checkpoint.cs:106-129 | For input tables without repeats, no table is emptied twice. |
| PlannerProperties.PlanIsPermutation | Respawn/Checkpoint.cs:87-132 | For input tables without repeats, the delete order is a permutation of the input tables. |
| PlannerProperties.ChildDeletedBeforeParent | Respawn/Checkpoint.cs:87-132 | Take a relationship that is not self-referencing, whose child and parent tables are both among the tables being emptied. Its child is emptied before its parent, unless the relationship's constraint is disabled. |
| PlannerProperties.NonSelfReferencingOfRemaining | Respawn/Checkpoint.cs:126 | Forgetting the relationships of emitted tables commutes with dropping the self-referencing ones. |
| PlannerProperties.SelfReferencesDoNotAffectOrder | Respawn/Checkpoint.cs:32 | Two relationship lists that agree once self-references are dropped give the same delete order. |
| PlannerProperties.OnlySelfReferencing | Respawn/Checkpoint.cs:100-104 | When every relationship is self-referencing, no table counts as referenced. |
| PlannerProperties.PlanWithoutDependencies | Respawn/Checkpoint.cs:100-132 | For input tables without repeats and only self-referencing relationships, the tables are emptied in input order and no constraint is disabled. |
| PlannerProperties.DisablesOnlyWithoutLeaf | Respawn/Checkpoint.cs:108-120 | Constraints are disabled iff some pass finds referenced tables but no leaf, that is, a cycle or a relationship that is not self-referencing whose child table is not being emptied. The disabled constraints are without repeats. |
| PlannerProperties.NoLeafDisablesEverything | Respawn/Checkpoint.cs:108-120 | Suppose at least one relationship is not self-referencing, and every table is the parent of such a relationship. Then all tables are emitted at once in input order, and every relationship's constraint is disabled once. |
| PlannerProperties.AcyclicNeverDisables | Respawn/Checkpoint.cs:108-120 | Suppose the child table of every relationship that is not self-referencing is among the tables being emptied. Suppose also that some ranking puts every child strictly below its parent, so the dependencies are acyclic. Then no constraint is ever disabled. |
| PlannerProperties.OrderItemsBeforeOrders | Respawn/Checkpoint.cs:87-132 | For `Orders` and `OrderItems` with a key from the second to the first, the plan empties `OrderItems` and then `Orders`, and disables nothing. |
| PlannerProperties.ThreeTableCycle | Respawn/Checkpoint.cs:108-120 | For three tables in a cycle, all three are emptied in input order with all three constraints disabled. |
| PlannerProperties.ChildOutsideTablesAlwaysDisabled | Respawn/Checkpoint.cs:100-128 | A relationship that is not self-referencing, whose child table is not among the tables being emptied, always has its constraint disabled. |
| PlannerProperties.ChildOutsideTablesDisables | Respawn/Checkpoint.cs:100-120 | Take one relationship that is not self-referencing, whose child table is not among the tables being emptied. Its parent is emitted, and its constraint is disabled even though there is no cycle. |
| Checkpoint.Checkpoint.constructor | Respawn/Checkpoint.cs:15-22 | A new checkpoint has no cached plan, no script and no executed script. |
| Checkpoint.Checkpoint.SetDbAdapter | Respawn/Checkpoint.cs:22 | Replacing the adapter leaves the cached plan and script as they were. |
| Checkpoint.Checkpoint.BuildDeleteTables | Respawn/Checkpoint.cs:73-85 | The plan fields become the plan of the connection's tables and relationships. The cached script becomes the adapter's rendering of that plan. |
| Checkpoint.Checkpoint.ExecuteDeleteSql | Respawn/Checkpoint.cs:58-71 | It needs a cached script. It adds that script to the log of executed scripts and leaves the cache as it was. |
| Checkpoint.Checkpoint.Reset | Respawn/Checkpoint.cs:48-56 | With no script cached, or only white space, the script is built from this connection. Otherwise the cached plan and script stay as they were. In both cases the cached script is appended to the log of executed scripts, and the cache stays consistent with the connection it was built from. |
| Checkpoint.ResetTwice | Respawn/Checkpoint.cs:48-56 | Two resets send exactly two scripts. The second is the first reset's script, even against a changed schema, unless that script was white space. |

## Left out

- Connection handling and execution. This covers opening a connection from a connection string, the transaction, the command object and `CommandTimeout`. `ExecuteDeleteSql` records the script in a ghost log instead of sending it.
- Checkpoint.Checkpoint.Reset and Checkpoint.Checkpoint.BuildDeleteTables: exceptions from the metadata queries, the adapter and the execution are not modelled, because every call in the model succeeds. In the source these failures leave the cache in one of three states:
  - A failing metadata query (lines 75 and 77) leaves nothing changed, so the next `Reset` rebuilds.
  - A throwing `BuildDeleteCommandText` (line 84) leaves `_tablesToDelete` and `_foreignKeysToDisable` overwritten (lines 81-82) while `_deleteSql` keeps its old value. `Consistent()` cannot describe that state.
  - A failed execution (line 67) keeps the script cached, and the database keeps its rows.
- The metadata queries `GetAllTables` and `GetRelationships`, with their handling of `TablesToIgnore`, `SchemasToInclude` and `SchemasToExclude`. A `Connection` value stands for what they return.
- The `Constraint` class is not part of this model. Constraints are compared by value, by name and owning table. The `Distinct` at line 116, and every claim that the disabled constraints have no repeats, rest on that equality. If the class compared by reference, two relationships with equal constraints would each contribute theirs, for example one per column of a composite key.
- The adapters' SQL text. The adapter is a function value from a plan to a string.
- Asynchrony and concurrency. The `async`/`await` structure is sequential in the model. Two concurrent `Reset` calls on one `Checkpoint` are not modelled. Both can see a null `_deleteSql` at line 50, and then both build and overwrite the cache.
- Mutation of the accumulator lists. `BuildObjectsList` passes them as sequence values and returns the extended ones. The source appends to shared `List` objects instead, and the two agree because each list has a single owner.
- Null. Null accumulators are the empty sequence. A null `_deleteSql` is `None`, and the planner's arrays start empty.
- `IsWhiteSpace` uses the white-space characters of `Char.IsWhiteSpace` as a fixed code-point table. It does not use .NET's Unicode category data.
