# Column-definition tree differ, modelled in Dafny

This project models the column-definition differ of an ag-grid-style table configuration. The differ has two operations.

- `flattenColDefs` walks a forest of column definitions depth-first, in pre-order. For every node whose `colId` is truthy, it writes a copy of the node without `children` into a map keyed by that id. A later write to the same key overwrites the earlier one, and the key keeps the position of its first insertion. Nodes without an id are still descended into.
- `diffColDefs` flattens an origin and an edited forest, then runs two passes.
  - Pass 1 walks origin's keys. An id missing from edited is reported as removed. Otherwise every attribute in the union of both key sets, except `colId`, is compared by deep equality; any difference makes the column updated.
  - Pass 2 walks edited's keys. An id missing from origin is reported as added, with one change item per attribute other than `colId`, each from `undefined`.

The modules follow the program's structure:

- `Values`:
  - attribute values (`Value`), with lodash deep equality as structural equality;
  - insertion-ordered attribute records (`Attrs`) and property access (`Get`);
  - `??` as `Coalesce`;
  - `_.omit` as `Omit`;
  - `Object.keys(..).filter` as `Without`;
  - the iteration order of `new Set([...a, ...b])` as `DedupFrom` and `UnionKeys`.
- `Flatten`:
  - column nodes and the truthy-id test;
  - the pre-order traversal;
  - the flattened map as an ordered key list beside a key/value map;
  - the specification `FlattenOf`, a fold of single-node writes over the traversal;
  - the loop-and-recursion method `FlattenColDefs`, proved equal to that fold.
- `Diff`:
  - the report types and the specification `DiffOf`, which collects one record per id and list;
  - the source's loops as methods proved equal to `DiffOf`: `ColumnChanges` for the inner key loop, `UpdatedAndRemoved` for pass 1, `Added` for pass 2, and `DiffColDefs` for the whole function;
  - lemmas stating what the report means.
- `Fixture`: the demonstration scenario at the end of the source file, with its flattened maps and its exact report.

## Model

| member | source | states |
|---|---|---|
| Flatten.FlattenColDefs | with-exports-conditions/packages/app/src/index.ts:37-53 | The loop over `cols`, with its recursive descent into non-empty `children` sharing the accumulator, returns the accumulator after recording every node of the pre-order traversal, in order. |
| Flatten.FlattenKeys | with-exports-conditions/packages/app/src/index.ts:41-50 | A key is in the flattened map exactly when some node reached in pre-order carries it as a truthy `colId`. Descendants of nodes without an id are reached too. |
| Flatten.FlattenLastWins | with-exports-conditions/packages/app/src/index.ts:41-49 | On duplicate ids, the stored entry is the copy, without `children`, of the last node in pre-order carrying the id. |
| Flatten.ChildOverridesParent | with-exports-conditions/packages/app/src/index.ts:41-49 | When a descendant reuses an id, its own parent's included, the descendant's entry is the one stored. |
| Flatten.FlattenOrder | with-exports-conditions/packages/app/src/index.ts:41-44 | The key order lists each stored id once, in the order of first insertion along the traversal. |
| Flatten.FlattenStored | with-exports-conditions/packages/app/src/index.ts:42-44 | For a forest of proper objects, every entry is a proper object whose `colId` equals its key and which has no `children` attribute. |
| Flatten.RecordAllOrder | with-exports-conditions/packages/app/src/index.ts:41-44 | An assignment appends a new key and leaves an existing key in place, so the key order stays an index of the keys. |
| Flatten.RecordAllUntouched | with-exports-conditions/packages/app/src/index.ts:41-45 | An id that no node of the sequence carries keeps its earlier entry or its absence. |
| Flatten.RecordAllLast | with-exports-conditions/packages/app/src/index.ts:41-49 | The entry for an id is written by the last node of the sequence that carries it. |
| Flatten.RecordAllOverride | with-exports-conditions/packages/app/src/index.ts:41-49 | Once a node of the sequence carries an id, that id's entry no longer depends on the map the walk started from. |
| Flatten.RecordStored | with-exports-conditions/packages/app/src/index.ts:42-44 | A single write of a proper object keeps every entry a proper object keyed by its own id, without `children`. |
| Flatten.RecordAllStored | with-exports-conditions/packages/app/src/index.ts:41-50 | The same holds for any sequence of writes. |
| Flatten.PreOrderAppend | with-exports-conditions/packages/app/src/index.ts:41-49 | The traversal of two concatenated forests is the concatenation of their traversals. |
| Flatten.FlattenContent | with-exports-conditions/packages/app/src/index.ts:41-49 | When every node of the traversal that carries the id of a node has that node's attributes, the node is stored under its id as its copy without `children`; only colliding ids with different attributes make the order matter. |
| Flatten.FlattenPermutation | with-exports-conditions/packages/app/src/index.ts:41-49 | Two forests whose traversals carry the same attribute records, and in which nodes sharing an id agree, flatten to the same entries, whatever the order of their nodes and children. |
| Values.OmitSpec | with-exports-conditions/packages/app/src/index.ts:44 | `_.omit(col, 'children')` lacks `children`, agrees with the node on every other key, and is still a proper object. |
| Values.OmitAbsent | with-exports-conditions/packages/app/src/index.ts:44 | Omitting a key the object does not have copies it unchanged. |
| Values.UnionKeysSpec | with-exports-conditions/packages/app/src/index.ts:83-86 | The key set lists every key of either column once, with origin's keys first and in origin's order. |
| Values.UnionKeysAfter | with-exports-conditions/packages/app/src/index.ts:83-86 | The key set is origin's keys followed by edited's keys that origin lacks, in edited's order. |
| Values.DedupFromSpec | with-exports-conditions/packages/app/src/index.ts:83-86 | Adding elements to an insertion-ordered set keeps its elements in place, adds exactly the new ones, and lists none twice. |
| Values.WithoutSpec | with-exports-conditions/packages/app/src/index.ts:115 | `filter((k) => k !== 'colId')` keeps exactly the other keys, and keeps them distinct. |
| Values.WithoutAppend | with-exports-conditions/packages/app/src/index.ts:115 | The filter keeps the keys' order: filtering a concatenation is concatenating the filtered parts. |
| Diff.ColumnChanges | with-exports-conditions/packages/app/src/index.ts:88-99 | The inner `keys.forEach` loop yields the change items of the column over the key union. |
| Diff.UpdatedAndRemoved | with-exports-conditions/packages/app/src/index.ts:68-108 | Pass 1 yields the `updated` and `removed` lists that one record per origin key, in origin's key order, gives. |
| Diff.Added | with-exports-conditions/packages/app/src/index.ts:111-129 | Pass 2 yields the `added` list that one record per edited key, in edited's key order, gives. |
| Diff.DiffColDefs | with-exports-conditions/packages/app/src/index.ts:56-132 | `diffColDefs(origin, edited)` returns the report of the two flattened forests. |
| Diff.ChangesOfSpec | with-exports-conditions/packages/app/src/index.ts:90-99 | Each change item's key is one of the walked keys, is not `colId`, and carries both sides' values, which differ. Every differing non-`colId` key has an item. Distinct keys give distinct items. |
| Diff.ChangesOfSelf | with-exports-conditions/packages/app/src/index.ts:90-99 | Comparing a column with itself gives no change item. |
| Diff.AttrChangesSpec | with-exports-conditions/packages/app/src/index.ts:83-101 | A column's change list reports every difference of a non-`colId` attribute exactly once, and nothing else. It is empty exactly when both sides agree on every attribute but `colId`. |
| Diff.AddedChangesSpec | with-exports-conditions/packages/app/src/index.ts:115-121 | An added column's change list has exactly one item per attribute other than `colId`, each from `undefined` to the edited value. |
| Diff.CollectSpec | with-exports-conditions/packages/app/src/index.ts:68-129 | A collected record belongs to a walked id and is that id's record. Every id that yields a record is reported. Distinct ids give distinct records. |
| Diff.DiffSelf | with-exports-conditions/packages/app/src/index.ts:68-131 | Diffing a flattened forest against itself reports nothing in any of the three lists. |
| Diff.RemovedRecords | with-exports-conditions/packages/app/src/index.ts:73-79 | A removed record's id is in origin's map and not in edited's; it has no change items and carries origin's `headerName`. Every such id is reported. |
| Diff.UpdatedRecords | with-exports-conditions/packages/app/src/index.ts:83-107 | An updated record's id is on both sides. Its change list is non-empty and exactly the differing attributes. Its `headerName` is origin's, or edited's when origin's is null or undefined. Every differing column is reported. |
| Diff.AddedRecords | with-exports-conditions/packages/app/src/index.ts:111-128 | An added record's id is in edited's map and not in origin's. It carries edited's `headerName` and one item per attribute other than `colId`, each from `undefined`. Every such id is reported. |
| Diff.MentionsUpdated | with-exports-conditions/packages/app/src/index.ts:83-107 | An id is in `updated` exactly when it is on both sides and the two columns differ in an attribute other than `colId`. |
| Diff.MentionsAdded | with-exports-conditions/packages/app/src/index.ts:111-128 | An id is in `added` exactly when it is in edited only. |
| Diff.MentionsRemoved | with-exports-conditions/packages/app/src/index.ts:73-79 | An id is in `removed` exactly when it is in origin only. |
| Diff.DiffDisjoint | with-exports-conditions/packages/app/src/index.ts:63-131 | None of the three lists repeats an id, and the three lists are pairwise disjoint by id. |
| Diff.DiffReportsChanged | with-exports-conditions/packages/app/src/index.ts:63-131 | The ids reported in some list are exactly those that changed, so an unchanged column, nested or not, is in no list. |
| Fixture.FixturePreOrder | with-exports-conditions/packages/app/src/index.ts:133-186 | The traversal visits the group column before its two option columns. |
| Fixture.FixtureFlatten | with-exports-conditions/packages/app/src/index.ts:133-186 | Origin flattens to five entries and edited to four, with the group container stored under its own id. |
| Fixture.FixtureTitleChanges | with-exports-conditions/packages/app/src/index.ts:133-168 | The title column changes in `field` from `title` to `title2` and in `addedOption` from `undefined` to `title`. |
| Fixture.FixtureUpdated | with-exports-conditions/packages/app/src/index.ts:133-188 | `updated` holds just `col_title`. |
| Fixture.FixtureRemoved | with-exports-conditions/packages/app/src/index.ts:133-188 | `removed` holds just `col_chart`, with header `chart` and no change items. |
| Fixture.FixtureAdded | with-exports-conditions/packages/app/src/index.ts:133-188 | `added` is empty. |
| Fixture.FixtureDiff | with-exports-conditions/packages/app/src/index.ts:133-188 | The complete report of the scenario. |

## Left out

- The imports of `@test/lib` and the `console.log` of the result (index.ts lines 1-3 and 189): they are foreign modules and output.
- The optional caller-supplied `map` of `flattenColDefs` (line 39) is modelled only as the accumulator of the recursion. The accumulator is passed in and returned by value, so aliasing of a map the caller still holds is not modelled.
- lodash's `_.isEqual` and `_.omit` are modelled as structural equality of `Value` and as key removal. NaN, `Map`/`Set`, typed arrays, prototypes and other lodash details are not modelled.
- Floating-point or other non-integer attribute values: `Value` has strings, integers, booleans, null, arrays and unordered plain objects. `VInt` is unbounded, while the program's numbers are doubles: two different integers beyond 2^53 that round to the same double are equal to `_.isEqual` but are reported as a change by the model.
- An attribute explicitly set to `undefined` is the same as a missing one. An attribute record holds only defined values.
- Ids and attribute names that name members of `Object.prototype` (`__proto__`, `constructor`, `toString`, `hasOwnProperty`, and the like) are not modelled. The program's maps and columns are plain objects, so a lookup such as `editedMap[colId]` (lines 70, 73), `originMap[colId]` (line 112) or `originCol[key]` (lines 93-94) sees an inherited member when the key is missing, and assigning `map['__proto__']` (line 44) replaces the prototype instead of adding a key. The model's maps hold only their own keys. For such ids the program's report differs from the one the model describes; for example, an origin-only column with id `constructor` is reported as updated rather than removed. Flatten.FlattenKeys, Diff.MentionsRemoved, Diff.MentionsAdded and the other properties hold for the program only for ids and attribute names that avoid these members.
- `Object.keys` lists integer-like keys first; the model keeps plain insertion order, so integer-like attribute names and ids are not modelled.
- Flatten.ColId: a `colId` that is present but not a string is treated as absent. The declared type allows only strings; a truthy non-string id is not modelled.
- Flatten.Node: `children` is its own field, empty when the attribute is absent. A `children` value that is not an array of columns is not modelled.
- Flatten.FlattenPermutation: order independence is stated for forests that carry the same attribute records. That a reordered `children` list carries the same records as the original is not proved as a separate lemma.
- `with-tsconfig-paths/packages/app/vite.config.ts` and `with-tsconfig-paths/packages/app/src/index.ts` are not part of this model: they are build configuration and calls into foreign modules.
