# ember-headless-table, modelled in Dafny

This project models the logic of ember-headless-table, a headless data
table for Ember. The library itself renders nothing: a `Table` holds rows
and columns built from the host's data and column configuration, and
plugins layer behaviour on top of it. The model covers:

- **Plugin machinery.** Normalising and verifying the plugin
  configuration, including features, requirements and duplicate providers.
  Also the queries plugins use on the table: `columns.for` and its
  neighbours, `meta.forTable/forColumn/forRow/withFeature`, `options.*`,
  `preferences.*`, `hasPlugin`, `findPlugin` and `availableFeatures`.
- **The preferences store.** `TablePreferences`, `TrackedPreferences` and
  `TrackedPluginPrefs`: get-or-create buckets, serialising and restoring,
  persisting through the adapter, and the deprecated per-column
  preferences.
- **The table, its rows and its columns.** Plugin construction,
  `pluginOf`, the column defaults, row index, parity and neighbours, cell
  values with their default, the row count and the selection getters.
- **The plugins:**
  - column reordering: `orderOf`, `ColumnOrder`, the legacy
    `reorderColumns`, and the column and table meta;
  - column visibility;
  - column resizing: widths, the greedy transfer of `resizeColumn`, the
    even `distributeDelta`, the default width, and the style string;
  - sticky columns;
  - data sorting;
  - row selection.
- **The sort-string codec.** `deserializeSorts` and `serializeSorts`.

**How each part is modelled.**

- **Stateful parts are classes.** The source mutates these in place: the
  meta store, the preferences classes, `ColumnOrder`, the resizing and
  visibility meta, and `Table.modify`. Each method states its whole new
  state, usually as a function of the old state. The functions on that
  state carry the lemmas: get after set, frames, and the save/restore round
  trip.
- **Loops are methods with invariants**, each proved equal to a recursive
  specification. These are `orderOf`, `normalizePluginsConfig`,
  `collectFeatures`/`collectRequirements`, `verifyPlugins`,
  `reorderColumns`, `orderedColumns`, `styleStringFor`, `resizeColumn` and
  `distributeDelta`.
- **Pure getters are functions.**
- **JavaScript semantics are written out**: values, truthiness, `??`,
  `indexOf`, `slice` with negative bounds, `split` and `join`.
- **Ember's `assert` is a failure.** It becomes `Err`/`Fail` carrying the
  source's message.
- **Foreign helpers are parameters.** Ember's `camelize`/`underscore`,
  `isEmpty`, `get`, the user's `value`/`options`/`key` functions, number
  rendering and DOM measurements are passed in.
- **Callbacks are returned.** The host's callbacks (`onSort`, `onSelect`,
  `onDeselect`, the adapter's `persist`) become the lists or events the
  code would hand them.

Where the code and its tests or documentation disagree, the model follows
the code:

- `orderOf` never throws, and it drops a recorded key whose position is
  not below the number of columns.
- `columns.for` looks up the sizing plugin by the feature name
  `columnResizing`, while `ColumnResizing` advertises `columnWidth`.
- The visibility and reordering plugins define no `columns`. A plugin's
  `columns` is therefore optional, and the asserts check for it.
- Visibility reads only the stored preference and the column's own
  option. The table's `isVisible: true` column default is not consulted.
- The sorting plugin's documentation (data-sorting/plugin.ts:64) gives the
  cycle as ascending → descending → none. The code cycles none →
  descending → ascending → none, and so does `Sorting.HandleSort`.
- `ColumnOrder.set` only stores the position. It does not swap with the
  column that held that position.
- The three defects under "## Findings" are modelled as written wherever
  the code uses them: the visibility meta's `hide`, `show` and `toggle`;
  `ColumnOrder.get` with `getPosition` and the moves built on it; and the
  resizing meta's `isResizable` with `hasResizeHandle` and
  `distributeDelta`. The corrected reading of each is defined beside it,
  with the intended property proved about it.

## Model

Paths are relative to the repository root.

| member | source | states |
|---|---|---|
| Base.HasPlugin | ember-headless-table/src/plugins/-private/base.ts:136-141 | true exactly when some plugin on the table was constructed by the class |
| Base.FindPlugin | ember-headless-table/src/plugins/-private/base.ts:621-635 | the first plugin whose instance or class features contain the tag; nothing exactly when no plugin provides it |
| Base.AllFeatures | ember-headless-table/src/plugins/-private/base.ts:637-654 | lists exactly the non-empty feature names some plugin provides |
| Base.Filter | ember-headless-table/src/plugins/-private/base.ts:648-650 | keeps exactly the truthy (non-empty) names |
| Base.AllFeaturesAppend | ember-headless-table/src/plugins/-private/base.ts:637-654 | the feature list of two plugin lists is the first's followed by the second's, and one plugin contributes its own non-empty names in declaration order, repeats included |
| Base.FilterAppend | ember-headless-table/src/plugins/-private/base.ts:648-650 | filtering keeps order and multiplicity: it distributes over concatenation and keeps a single name exactly when it is non-empty |
| Base.AvailableFeatures | ember-headless-table/src/plugins/-private/base.ts:637-654 | `[none]` when no plugin provides a non-empty feature name; otherwise every provided non-empty name, in plugin order and with repeats, joined by ", " |
| Base.PluginOf | ember-headless-table/src/plugins/-private/base.ts:292-296 | a plugin on the table that is an instance of the class, and nothing exactly when none is |
| Base.PluginOfFirst | ember-headless-table/src/plugins/-private/base.ts:292-296 | the plugin `pluginOf` finds is the first instance of the class: no plugin before it is one |
| Base.ColumnsOf | ember-headless-table/src/plugins/-private/base.ts:316-349 | a plugin's `columns` when it defines them, otherwise the assert's failure naming the plugin |
| Base.Hierarchy | ember-headless-table/src/plugins/-private/base.ts:318-387 | the column-order provider's columns, else the column-visibility provider's, else the column-resizing provider's, else the table's; a chosen provider without `columns` fails with the invalid-columns message |
| Base.ColumnsFor | ember-headless-table/src/plugins/-private/base.ts:284-388 | no requester gets the chain; a requester not on the table fails with the not-used message; the first column-resizing or column-visibility provider gets the table's columns; the first column-order provider gets the visibility provider's columns, or the table's without one; any other requester gets the chain; every failure is one of these messages |
| Base.ColumnsForHierarchy | ember-headless-table/src/plugins/-private/base.ts:284-388 | with a requester, the sizing and visibility plugins get the table's own columns; reordering gets visibility's columns when visibility is present; with no ordering, visibility or sizing plugin, every caller gets the table's columns |
| Base.ColumnsForUnusedRequester | ember-headless-table/src/plugins/-private/base.ts:298-303 | a requester that is not one of the table's plugins fails with the "is not used in this table" message |
| Base.IndexOf | ember-headless-table/src/plugins/-private/base.ts:403 | `indexOf`: the first position holding the element, −1 exactly when it is absent |
| Base.SliceBound | ember-headless-table/src/plugins/-private/base.ts:458-478 | a `slice` bound, resolved against the length as JavaScript does, stays within the list |
| Base.Next | ember-headless-table/src/plugins/-private/base.ts:400-421 | fails exactly when the reference column is not in the list |
| Base.Previous | ember-headless-table/src/plugins/-private/base.ts:430-450 | fails exactly when the reference column is not in the list |
| Base.BeforeAfterSlices | ember-headless-table/src/plugins/-private/base.ts:458-478 | for a present column, `before` is the slice up to its index and `after` the slice past it |
| Base.NeighboursPartition | ember-headless-table/src/plugins/-private/base.ts:400-478 | `before(c) ++ [c] ++ after(c)` is the list; `next` is the first of `after` and `previous` the last of `before`, `undefined` at the ends |
| Base.Before | ember-headless-table/src/plugins/-private/base.ts:458-464 | for a present column the columns before it, without it; for an absent one all columns but the last (JavaScript `slice(0, -1)`) |
| Base.After | ember-headless-table/src/plugins/-private/base.ts:472-478 | for a present column the columns after it; for an absent one all columns (`slice(0)`) |
| Base.NextPreviousInverse | ember-headless-table/src/plugins/-private/base.ts:400-450 | in a list without repeats, `previous(next(c))` is `c` |
| Base.NeighboursOfAbsentColumn | ember-headless-table/src/plugins/-private/base.ts:458-478 | for an absent column (index −1), `before` drops the last column and `after` is the whole list, as `slice` computes them |
| Base.FindTuple | ember-headless-table/src/plugins/-private/base.ts:663-677 | the first normalised entry whose class is the requested one |
| Base.OptionsForTableFromEntries | ember-headless-table/src/plugins/-private/base.ts:663-677 | `options.forTable` is the thunk result of the first entry for the class, `{}` for a bare class, and `{}` when no entry names the class |
| Base.FindColumnOption | ember-headless-table/src/plugins/-private/base.ts:679-691 | finds an option entry of the class in the column's `pluginOptions`, nothing exactly when there is none |
| Base.OptionsForColumn | ember-headless-table/src/plugins/-private/base.ts:679-691 | `{}` without `pluginOptions` or without an entry for the class |
| Base.OptionsForColumnFirstEntry | ember-headless-table/src/plugins/-private/base.ts:679-691 | otherwise the result of the first entry's thunk, and the plugin need not be registered |
| Base.FirstColumnOption | ember-headless-table/src/plugins/-private/base.ts:683-686 | the entry found is the first one of the class |
| PluginPreferences.ColumnGet | ember-headless-table/src/plugins/-private/base.ts:171-177 | `preferences.forColumn(...).get` returns the stored value, creates only empty buckets and does not persist |
| PluginPreferences.ColumnSet | ember-headless-table/src/plugins/-private/base.ts:181-189 | stores the value for that plugin, column and key, and persists exactly once |
| PluginPreferences.ColumnDelete | ember-headless-table/src/plugins/-private/base.ts:159-167 | removes that key only, and persists exactly once |
| PluginPreferences.AllColumnsDelete | ember-headless-table/src/plugins/-private/base.ts:204-216 | removes the key from every listed column, and persists exactly once |
| PluginPreferences.WithoutColumnValuesGet | ember-headless-table/src/plugins/-private/base.ts:204-216 | after `forAllColumns.delete(key)` the key reads `undefined` on every listed column, and every other preference is unchanged |
| PluginPreferences.TableGet | ember-headless-table/src/plugins/-private/base.ts:246-251 | `preferences.forTable(...).get` returns the stored value and does not persist |
| PluginPreferences.TableSet | ember-headless-table/src/plugins/-private/base.ts:255-262 | stores the table value, and persists exactly once |
| PluginPreferences.TableDelete | ember-headless-table/src/plugins/-private/base.ts:235-242 | removes the table value, and persists exactly once |
| Meta.FactoryCheck | ember-headless-table/src/plugins/-private/base.ts:496-557 | a meta factory succeeds exactly when the class is registered and declares `meta` with a constructor of that kind; an unregistered class fails first with its own message |
| Meta.MetaStore.constructor | ember-headless-table/src/plugins/-private/base.ts:699-766 | the store starts with no meta |
| Meta.MetaStore.ForColumn | ember-headless-table/src/plugins/-private/base.ts:490-505 | returns the stored instance when there is one, with nothing else changing; otherwise runs the checks and files exactly one new instance under the column and class, or fails with the check's message |
| Meta.MetaStore.ForRow | ember-headless-table/src/plugins/-private/base.ts:515-530 | the same get-or-create for rows |
| Meta.MetaStore.ForTable | ember-headless-table/src/plugins/-private/base.ts:538-558 | the same get-or-create for the table, keyed by class |
| Meta.MetaStore.WithFeatureForColumn | ember-headless-table/src/plugins/-private/base.ts:574-590 | fails with the feature-missing message listing the available features when no plugin provides the feature; otherwise behaves as `forColumn` for the first provider's class: its cached instance is returned unchanged, else the factory check fails leaving only the new bucket, or a new instance is stored |
| Meta.MetaStore.WithFeatureForTable | ember-headless-table/src/plugins/-private/base.ts:601-617 | the same for table meta, behaving as `forTable` for the first provider's class |
| Meta.ColumnMetaIsSingleton | ember-headless-table/src/plugins/-private/base.ts:699-766 | two lookups of the same column meta return the identical instance, or the same failure, and together change the store exactly as one `forColumn` does: nothing for a cached instance, only the new bucket on failure, else one new instance under the column and class with the counter advanced |
| PluginConfig.NormalizePluginsConfig | ember-headless-table/src/plugins/-private/utils.ts:17-44 | the loop computes the normalised configuration |
| PluginConfig.NormalizedCharacterized | ember-headless-table/src/plugins/-private/utils.ts:17-44 | normalising succeeds exactly when every entry's head is a class; it gives one tuple per entry, in order; a bare class or an array whose length is not 2 gets the default `() => ({})` thunk |
| PluginConfig.Find | ember-headless-table/src/plugins/-private/utils.ts:49-78 | finds the first index entry of a tag, −1 exactly when the tag is absent |
| PluginConfig.Repeat | ember-headless-table/src/plugins/-private/utils.ts:49-78 | n copies of a provider |
| PluginConfig.CollectTags | ember-headless-table/src/plugins/-private/utils.ts:49-78 | the `collectFeatures`/`collectRequirements` loop builds the tag index |
| PluginConfig.CollectLookup | ember-headless-table/src/plugins/-private/utils.ts:49-78 | the index has each tag once and lists, for every tag, exactly the plugins that declare it, in plugin order |
| PluginConfig.AddLookup | ember-headless-table/src/plugins/-private/utils.ts:54-58 | recording one tag adds the plugin to that tag's providers only |
| PluginConfig.AddAllLookup | ember-headless-table/src/plugins/-private/utils.ts:53-59 | recording a plugin's tags adds it once per occurrence of the tag |
| PluginConfig.AddWellFormed | ember-headless-table/src/plugins/-private/utils.ts:54-58 | recording a tag keeps each tag listed once |
| PluginConfig.AddAllWellFormed | ember-headless-table/src/plugins/-private/utils.ts:53-59 | recording a plugin's tags keeps each tag listed once |
| PluginConfig.LookupAt | ember-headless-table/src/plugins/-private/utils.ts:49-78 | in an index with each tag once, the entry at a position is the tag's lookup |
| PluginConfig.KeysIffLookup | ember-headless-table/src/plugins/-private/utils.ts:81-83 | a tag is among the keys exactly when it has providers |
| PluginConfig.ProvidersNonEmpty | ember-headless-table/src/plugins/-private/utils.ts:49-78 | a tag has providers exactly when some plugin declares it |
| PluginConfig.DuplicateScan | ember-headless-table/src/plugins/-private/utils.ts:86-94 | the loop yields one error line per over-provided feature, naming every provider |
| PluginConfig.DuplicateErrorsStep | ember-headless-table/src/plugins/-private/utils.ts:86-94 | each feature adds its line exactly when it has more than one provider |
| PluginConfig.MissingScan | ember-headless-table/src/plugins/-private/utils.ts:96-104 | the loop yields one error line per unmet requirement, naming the tag and every requester |
| PluginConfig.MissingErrorsStep | ember-headless-table/src/plugins/-private/utils.ts:96-104 | each requirement adds its line exactly when no plugin provides the tag |
| PluginConfig.VerifyPlugins | ember-headless-table/src/plugins/-private/utils.ts:80-109 | the loop yields the verdict: duplicate errors before missing ones, all joined by newlines in one failure |
| PluginConfig.DuplicateErrorsEmpty | ember-headless-table/src/plugins/-private/utils.ts:86-94 | there are no duplicate errors exactly when every feature has at most one provider |
| PluginConfig.MissingErrorsEmpty | ember-headless-table/src/plugins/-private/utils.ts:96-104 | there are no missing errors exactly when every required tag is provided |
| PluginConfig.NoDuplicatesIff | ember-headless-table/src/plugins/-private/utils.ts:86-94 | there are no duplicate errors exactly when no feature has two providers |
| PluginConfig.MissingErrorsEmptyByLookup | ember-headless-table/src/plugins/-private/utils.ts:96-104 | there are no missing errors exactly when every requirement with a requester has a provider |
| PluginConfig.NoMissingIff | ember-headless-table/src/plugins/-private/utils.ts:96-104 | there are no missing errors exactly when every required tag has a provider |
| PluginConfig.VerifiedIff | ember-headless-table/src/plugins/-private/utils.ts:80-109 | verification passes exactly when no feature has two providers and every requirement is provided |
| PluginConfig.RequirementMetIndependentOfOrder | ember-headless-table/src/plugins/-private/utils.ts:81-83 | whether a tag is provided does not depend on the order of the plugins |
| Preferences.CopyRecord | ember-headless-table/src/-private/preferences.ts:207-219 | the copying loop reproduces the map |
| Preferences.UpdateOfUnion | ember-headless-table/src/-private/preferences.ts:120-130 | updating a merged map updates the later map |
| Preferences.TrackedPluginPrefs.constructor | ember-headless-table/src/-private/preferences.ts:181-184 | empty table and column preferences |
| Preferences.TrackedPluginPrefs.ForColumn | ember-headless-table/src/-private/preferences.ts:190-199 | returns the column's map, inserting an empty one only when it is missing; nothing else changes, and a store at its default stays there |
| Preferences.TrackedPluginPrefs.SetColumnValue | ember-headless-table/src/-private/preferences.ts:190-199 | sets one key of one column and nothing else |
| Preferences.TrackedPluginPrefs.DeleteColumnValue | ember-headless-table/src/-private/preferences.ts:190-199 | deletes one key of one column and keeps the emptied map |
| Preferences.TrackedPluginPrefs.Serialize | ember-headless-table/src/-private/preferences.ts:201-223 | the serialized table and columns, with emptied column maps kept as `{}` |
| Preferences.TrackedPluginPrefs.Restore | ember-headless-table/src/-private/preferences.ts:225-239 | merges the restored columns over the existing ones and replaces the table; a document missing `table` or `columns` fails, as `Object.entries(undefined)` throws a TypeError |
| Preferences.TrackedPreferences.constructor | ember-headless-table/src/-private/preferences.ts:132-134 | no plugin buckets |
| Preferences.TrackedPreferences.AtDefaultIsView | ember-headless-table/src/-private/preferences.ts:136-138 | `isAtDefault` is decided by the serialized view alone |
| Preferences.TrackedPreferences.ForPlugin | ember-headless-table/src/-private/preferences.ts:140-149 | get-or-create: the first call inserts a fresh empty bucket and later calls return that same bucket; no other plugin changes |
| Preferences.TrackedPreferences.Put | ember-headless-table/src/-private/preferences.ts:140-149 | stores a new bucket under the name |
| Preferences.TrackedPreferences.ColumnBucket | ember-headless-table/src/-private/preferences.ts:140-199 | `forPlugin(name).forColumn(key)` returns the column's map and inserts only empty maps |
| Preferences.TrackedPreferences.SetColumnValue | ember-headless-table/src/-private/preferences.ts:140-199 | the view afterwards has the column value set |
| Preferences.TrackedPreferences.DeleteColumnValue | ember-headless-table/src/-private/preferences.ts:140-199 | the view afterwards has the column value deleted |
| Preferences.TrackedPreferences.SetTableValue | ember-headless-table/src/-private/preferences.ts:140-149 | the view afterwards has the table value set |
| Preferences.TrackedPreferences.DeleteTableValue | ember-headless-table/src/-private/preferences.ts:140-149 | the view afterwards has the table value deleted |
| Preferences.TrackedPreferences.Serialize | ember-headless-table/src/-private/preferences.ts:151-167 | the serialized document of every plugin, by name |
| Preferences.TrackedPreferences.RestorePlugin | ember-headless-table/src/-private/preferences.ts:169-239 | restoring one plugin replaces its document in the view when that document is complete |
| Preferences.TrackedPreferences.Restore | ember-headless-table/src/-private/preferences.ts:169-179 | passes exactly when every restored plugin document is complete, and then merges them over the view |
| Preferences.PluginStep | ember-headless-table/src/-private/preferences.ts:140-149 | replacing a plugin's document right after `forPlugin` is replacing it in the view before |
| Preferences.ColumnValueSetGet | ember-headless-table/src/-private/preferences.ts:183-213 | a set column value reads back; a deleted one reads `undefined`; every other plugin, column and key is untouched |
| Preferences.TableValueSetGet | ember-headless-table/src/-private/preferences.ts:140-149 | the same for table values |
| Preferences.GetOrCreateKeepsDefault | ember-headless-table/src/-private/preferences.ts:136-199 | a store with no buckets is at its default; `forPlugin`/`forColumn` keep it there; any set value takes it away |
| Preferences.SaveRestoreRoundTrip | ember-headless-table/src/-private/preferences.ts:95-179 | restoring the persisted document gives back the plugins tree, and the non-empty column preferences |
| Preferences.TablePreferences.Init | ember-headless-table/src/-private/preferences.ts:21-25 | a store with the key and adapter, no preferences and nothing persisted |
| Preferences.TablePreferences.Create | ember-headless-table/src/-private/preferences.ts:21-130 | construction restores from the adapter when it offers data, and fails exactly when a restored plugin document is incomplete |
| Preferences.TablePreferences.ToTablePreferencesData | ember-headless-table/src/-private/preferences.ts:95-111 | the legacy document: `columns` omitted when no column preference is non-empty, empty entries dropped |
| Preferences.TablePreferences.Persist | ember-headless-table/src/-private/preferences.ts:113-118 | calls the adapter's `persist` once with the key and the saved document, when there is an adapter that persists |
| Preferences.TablePreferences.GetColumnPreferences | ember-headless-table/src/-private/preferences.ts:59-61 | the column's stored preferences, or an empty record when it has none |
| Preferences.TablePreferences.GetIsAtDefault | ember-headless-table/src/-private/preferences.ts:63-65 | exactly when the stored view holds, for no plugin, a table preference or a non-empty column preference |
| Preferences.TablePreferences.Snapshot | ember-headless-table/src/-private/preferences.ts:113-118 | the document `persist` sends |
| Preferences.TablePreferences.Restore | ember-headless-table/src/-private/preferences.ts:120-130 | without data nothing changes; otherwise merges the column preferences and restores the plugins tree, failing exactly when a plugin document is incomplete |
| Preferences.TablePreferences.CopyColumns | ember-headless-table/src/-private/preferences.ts:120-130 | the copying loop merges the incoming column preferences |
| Preferences.TablePreferences.DeleteColumnPreference | ember-headless-table/src/-private/preferences.ts:34-54 | false with nothing persisted when the key is absent; otherwise removes the key, drops an emptied column, persists and returns true |
| Preferences.TablePreferences.SetColumnPreferences | ember-headless-table/src/-private/preferences.ts:70-73 | replaces the column's preferences and persists |
| Preferences.TablePreferences.SetColumnPreference | ember-headless-table/src/-private/preferences.ts:78-89 | sets one key of the column's preferences and persists |
| TableModel.Heads | ember-headless-table/src/-private/table.ts:108-133 | the class or object of each normalised entry, in order |
| TableModel.NormalizedHeads | ember-headless-table/src/plugins/-private/utils.ts:17-44 | every head of a normalised configuration is a plugin reference |
| TableModel.InstantiateOk | ember-headless-table/src/-private/table.ts:122-130 | a class is constructed with the table (its instance has that constructor and prototype); an object passes through unchanged |
| TableModel.InstantiateAllCharacterized | ember-headless-table/src/-private/table.ts:122-130 | plugins are instantiated one-to-one in order, failing with the first failing entry's message |
| TableModel.PluginsCharacterized | ember-headless-table/src/-private/table.ts:108-133 | `plugins` normalises, then verifies, then instantiates, and a failure of any step is the result |
| TableModel.TablePluginOf | ember-headless-table/src/-private/table.ts:135-137 | `pluginOf` is the first plugin of the table that is an instance of the class, nothing when none is, and fails when `plugins` fails |
| TableModel.RowsOf | ember-headless-table/src/-private/table.ts:181-190 | no rows without data; otherwise one distinct row per item, in order |
| TableModel.ColumnsOf | ember-headless-table/src/-private/table.ts:192-203 | one column per configuration, in order, with the defaults applied |
| TableModel.WithDefaultsUserWins | ember-headless-table/src/-private/table.ts:20-203 | `{isVisible: true, minWidth: 128}` overlaid by the user's config, whose keys win |
| TableModel.TotalRowCount | ember-headless-table/src/-private/table.ts:205-207 | `pagination.totalItems`, else `meta.totalRowCount`, else the number of rows |
| TableModel.HasActiveRow | ember-headless-table/src/-private/table.ts:147-149 | `rowSelection` exists and returns a truthy value |
| TableModel.IsCheckboxSelectable | ember-headless-table/src/-private/table.ts:159-161 | the option, else whether `bulkSelection` is given |
| TableModel.IsRowSelectable | ember-headless-table/src/-private/table.ts:163-165 | the option, else whether `onRowSelectionChange` is given |
| TableModel.RowSelection | ember-headless-table/src/-private/table.ts:175-179 | the set holding `rowSelection()` when configured, else the empty set |
| TableModel.Table.constructor | ember-headless-table/src/-private/table.ts:35-46 | a table with its arguments and no preferences yet |
| TableModel.Table.Modify | ember-headless-table/src/-private/table.ts:48-63 | replaces the arguments; creates the preferences on the first call only, keyed by the given key or the guid; resets the scroll container when the page changes |
| TableModel.PreferencesCreatedOnce | ember-headless-table/src/-private/table.ts:48-63 | a second `modify` keeps the store created by the first |
| RowModel.IndexOfRow | ember-headless-table/src/-private/row.ts:10-16 | `indexOf` over the rows |
| RowModel.Index | ember-headless-table/src/-private/row.ts:10-16 | the row's position, failing when it is no longer in the table |
| RowModel.IsOdd | ember-headless-table/src/-private/row.ts:18-20 | the index is odd |
| RowModel.Next | ember-headless-table/src/-private/row.ts:26-28 | the row after, `undefined` for the last |
| RowModel.Prev | ember-headless-table/src/-private/row.ts:30-32 | the row before, `undefined` for the first |
| RowModel.IsSelected | ember-headless-table/src/-private/row.ts:22-24 | the row's data is the table's selected row |
| RowModel.IsSelectable | ember-headless-table/src/-private/row.ts:34-36 | never nullish: the table's `isRowSelectable` when given, otherwise whether `onRowSelectionChange` is truthy |
| RowModel.IndexOfDistinct | ember-headless-table/src/-private/row.ts:10-16 | in rows without repeats, each row's index is its position |
| RowModel.BuiltRowIndex | ember-headless-table/src/-private/row.ts:10-20 | the i-th row the table builds has index i and parity of i |
| RowModel.NextPrevInverse | ember-headless-table/src/-private/row.ts:26-32 | `next.prev` is the row itself |
| ColumnModel.OptionsForRow | ember-headless-table/src/-private/column.ts:46-54 | `{defaultValue: '--'}` overlaid by the column's `options(...)` |
| ColumnModel.Name | ember-headless-table/src/-private/column.ts:23-25 | the configured `name`, or `undefined` when none is configured |
| ColumnModel.Cell | ember-headless-table/src/-private/column.ts:15-17 | the configured `Cell`, or `undefined` when none is configured |
| ColumnModel.DefaultValueFor | ember-headless-table/src/-private/column.ts:42-44 | the row's `defaultValue` option, else `'--'` |
| ColumnModel.ValueForRow | ember-headless-table/src/-private/column.ts:29-40 | `value(...)` when the config has one; else the row's value at the key, or the default when that is empty |
| ColumnModel.EmptyCellShowsDash | ember-headless-table/src/-private/column.ts:29-54 | an empty cell without a `defaultValue` option shows `'--'` |
| ColumnModel.ValueFunctionWins | ember-headless-table/src/-private/column.ts:30-33 | with a `value` function nothing else is consulted |
| ColumnOrdering.Lookup | ember-headless-table/src/plugins/column-reordering/plugin.ts:174-213 | a `Map.get` over the insertion-ordered entries |
| ColumnOrdering.LookupUnique | ember-headless-table/src/plugins/column-reordering/plugin.ts:174-213 | with distinct keys, each entry is the lookup of its key |
| ColumnOrdering.MapSetFrame | ember-headless-table/src/plugins/column-reordering/plugin.ts:114-118 | `Map.set` changes only the given key's entry, appending a new key and keeping the order of existing ones |
| ColumnOrdering.MapSetDistinct | ember-headless-table/src/plugins/column-reordering/plugin.ts:114-118 | `Map.set` keeps the keys distinct |
| ColumnOrdering.PositionKeyLookup | ember-headless-table/src/plugins/column-reordering/plugin.ts:185-190 | the key found recorded at a position looks that position up |
| ColumnOrdering.OrderOf | ember-headless-table/src/plugins/column-reordering/plugin.ts:174-213 | positions are below n, in increasing order, each key and each position used once; a recorded key keeps its recorded position; every unrecorded key is a column key; under the precondition the result is the expected order |
| ColumnOrdering.FillPosition | ember-headless-table/src/plugins/column-reordering/plugin.ts:185-209 | one iteration of `orderOf` keeps the loop's invariants |
| ColumnOrdering.NextAvailable | ember-headless-table/src/plugins/column-reordering/plugin.ts:192-206 | the `shift` loop finds the next column key that has no recorded position |
| ColumnOrdering.Expected | ember-headless-table/src/plugins/column-reordering/plugin.ts:174-213 | the expected order: one entry per position, in position order |
| ColumnOrdering.ExpectedBijection | ember-headless-table/src/plugins/column-reordering/plugin.ts:174-213 | when the recorded keys are column keys with distinct positions below n, the result is a bijection from the column keys onto 0..n-1 |
| ColumnOrdering.RecordedKeyPlaced | ember-headless-table/src/plugins/column-reordering/plugin.ts:185-190 | every recorded key is placed |
| ColumnOrdering.RecordedSlot | ember-headless-table/src/plugins/column-reordering/plugin.ts:185-190 | a recorded key keeps its recorded position |
| ColumnOrdering.UnrecordedKeyPlaced | ember-headless-table/src/plugins/column-reordering/plugin.ts:192-209 | every unrecorded column key is placed |
| ColumnOrdering.FreeSlot | ember-headless-table/src/plugins/column-reordering/plugin.ts:192-209 | a free position gets the next unrecorded key, in the columns' original order |
| ColumnOrdering.EmptyOrderIsIdentity | ember-headless-table/src/plugins/column-reordering/plugin.ts:184-212 | with no recorded positions, the i-th column key gets position i |
| ColumnOrdering.FullOrderUnchanged | ember-headless-table/src/plugins/column-reordering/plugin.ts:174-213 | a full permutation is returned unchanged |
| Reordering.Keys | ember-headless-table/src/plugins/column-reordering/plugin.ts:184 | the key of each column, in order |
| Reordering.ByKey | ember-headless-table/src/plugins/column-reordering/plugin.ts:141-145 | the columns by key |
| Reordering.GetAsWritten | ember-headless-table/src/plugins/column-reordering/plugin.ts:120-129 | `get` as written: succeeds exactly when the key has a recorded position that is not 0 |
| Reordering.FirstColumnRejected | ember-headless-table/src/plugins/column-reordering/plugin.ts:126 | `get` as written fails for the column at position 0 that the corrected reading finds |
| Reordering.GetResolved | ember-headless-table/src/plugins/column-reordering/plugin.ts:120-129 | `get` as intended: succeeds exactly when the key has a position, 0 included |
| Reordering.ResolvedPosition | ember-headless-table/src/plugins/column-reordering/plugin.ts:120-213 | every column key has its position, and the ordered map holds it there |
| Reordering.SlotEntry | ember-headless-table/src/plugins/column-reordering/plugin.ts:147-155 | a filled slot holds the column of an entry at that position |
| Reordering.SlotsStep | ember-headless-table/src/plugins/column-reordering/plugin.ts:147-155 | placing one column keeps the slots matching the entries |
| Reordering.Filled | ember-headless-table/src/plugins/column-reordering/plugin.ts:157-162 | counts the filled slots |
| Reordering.FilledAll | ember-headless-table/src/plugins/column-reordering/plugin.ts:157-162 | every slot is filled exactly when the count is the length |
| Reordering.Unwrap | ember-headless-table/src/plugins/column-reordering/plugin.ts:164 | the filled slots as columns |
| Reordering.Arranged | ember-headless-table/src/plugins/column-reordering/plugin.ts:139-165 | full slots hold distinct columns that are all available, cover every available column, and follow the ordered map |
| Reordering.CoversAll | ember-headless-table/src/plugins/column-reordering/plugin.ts:139-165 | n distinct available columns, out of n, are all of them |
| Reordering.PlacedColumns | ember-headless-table/src/plugins/column-reordering/plugin.ts:139-165 | the placed columns are distinct, available and cover every available column |
| Reordering.StrayEntry | ember-headless-table/src/plugins/column-reordering/plugin.ts:185-190 | a recorded key that is not a column key makes the ordered map hold a stray entry |
| Reordering.CanonicalEntries | ember-headless-table/src/plugins/column-reordering/plugin.ts:174-213 | under the precondition the ordered map has one entry per position, each for a column |
| ReorderingTable.ColumnOrder.constructor | ember-headless-table/src/plugins/column-reordering/plugin.ts:99-112 | an empty order map |
| ReorderingTable.ColumnOrder.Set | ember-headless-table/src/plugins/column-reordering/plugin.ts:114-118 | a plain `Map.set`: only the key's entry changes |
| ReorderingTable.ColumnOrder.OrderedMap | ember-headless-table/src/plugins/column-reordering/plugin.ts:134-137 | `orderOf` over the available columns' keys |
| ReorderingTable.ColumnOrder.Get | ember-headless-table/src/plugins/column-reordering/plugin.ts:120-129 | `get` as written: a position strictly between 0 and n; otherwise the no-position failure; on a canonical order it is the as-written lookup in `orderOf`'s map, so a column key fails exactly when it is placed first and otherwise reads its own position |
| ReorderingTable.ColumnOrder.OrderedColumns | ember-headless-table/src/plugins/column-reordering/plugin.ts:139-165 | on success, a permutation of the available columns; it fails when a recorded key is not a column; under the precondition it succeeds in `orderOf`'s order |
| ReorderingTable.Slotted | ember-headless-table/src/plugins/column-reordering/plugin.ts:147-155 | the slot-filling loop, failing on an entry with no column |
| ReorderingTable.TableMeta.constructor | ember-headless-table/src/plugins/column-reordering/plugin.ts:62-70 | a fresh, empty column order |
| ReorderingTable.TableMeta.GetPosition | ember-headless-table/src/plugins/column-reordering/plugin.ts:72-75 | the visible columns' `get` for the column's key: fails for the column placed first, and otherwise reads its position in the ordered map |
| ReorderingTable.TableMeta.SetPosition | ember-headless-table/src/plugins/column-reordering/plugin.ts:77-80 | records the column's new position only |
| ReorderingTable.TableMeta.Columns | ember-headless-table/src/plugins/column-reordering/plugin.ts:91-94 | the visible columns in the merged order: as many as there are visible columns, each one of them, with distinct keys, and every visible column present when their keys are distinct; a recorded key that is not a visible column's fails; on a canonical order the keys follow the expected order |
| ReorderingColumn.ColumnMeta.constructor | ember-headless-table/src/plugins/column-reordering/plugin.ts:35-40 | meta for the column and table |
| ReorderingColumn.ColumnMeta.Move | ember-headless-table/src/plugins/column-reordering/plugin.ts:42-58 | records the current position plus a delta, or changes nothing when the as-written lookup fails, which it does for the column placed first |
| ReorderingColumn.ColumnMeta.MoveLeft | ember-headless-table/src/plugins/column-reordering/plugin.ts:53 | records position − 1 after the as-written lookup; the column placed first cannot move |
| ReorderingColumn.ColumnMeta.MoveRight | ember-headless-table/src/plugins/column-reordering/plugin.ts:58 | records position + 1 after the as-written lookup; the column placed first cannot move |
| ReorderColumns.Find | ember-headless-table/src/plugins/column-reordering/utils.ts:19 | the ordered entry for the key, nothing exactly when there is none |
| ReorderColumns.Write | ember-headless-table/src/plugins/column-reordering/utils.ts:12-27 | a JavaScript array write: the slot reads the column, the others are unchanged; a negative index only adds a property; writing past the end leaves holes |
| ReorderColumns.Place | ember-headless-table/src/plugins/column-reordering/utils.ts:17-36 | the column's meta is fetched first and its failure is the result; then a listed column goes to its slot when that slot is empty, else it is appended; an unlisted one is written at its meta position when that is ≥ 0, overwriting, and dropped otherwise; reading that position can fail |
| ReorderColumns.ReorderColumns | ember-headless-table/src/plugins/column-reordering/utils.ts:8-41 | without an order the input is returned unchanged; otherwise it fails whenever some column's meta cannot be fetched (the table does not register the plugin), and only then or for an unlisted column whose position cannot be read; a success has no holes and each input column at most once; a full arrangement whose metas are all fetched puts every column at its listed slot |
| ReorderColumns.ArrangementStep | ember-headless-table/src/plugins/column-reordering/utils.ts:29-35 | placing a listed column into its empty slot keeps the arrangement |
| ReorderColumns.ArrangementDone | ember-headless-table/src/plugins/column-reordering/utils.ts:38 | a finished arrangement has every column at its slot and no holes |
| ReorderColumns.PlaceCounts | ember-headless-table/src/plugins/column-reordering/utils.ts:17-36 | placing a column adds at most that one column |
| ReorderColumns.WriteCounts | ember-headless-table/src/plugins/column-reordering/utils.ts:21-27 | writing a slot adds at most that column |
| Visibility.BucketKeepsValues | ember-headless-table/src/plugins/column-visibility/plugin.ts:48-53 | reading visibility creates only empty buckets, which change no value |
| Visibility.ColumnMeta.constructor | ember-headless-table/src/plugins/column-visibility/plugin.ts:44-46 | meta for the column over the table's preferences |
| Visibility.ColumnMeta.IsVisible | ember-headless-table/src/plugins/column-visibility/plugin.ts:48-53 | the stored `isVisible` preference, else the column's option |
| Visibility.ColumnMeta.Hide | ember-headless-table/src/plugins/column-visibility/plugin.ts:55-69 | does nothing unless visible; otherwise deletes the preference when the option is truthy, else stores `false`, and persists |
| Visibility.ColumnMeta.Show | ember-headless-table/src/plugins/column-visibility/plugin.ts:71-85 | does nothing when visible; otherwise deletes the preference when the option is falsy, else stores `true`, and persists |
| Visibility.ColumnMeta.Toggle | ember-headless-table/src/plugins/column-visibility/plugin.ts:87-95 | `hide` on a visible column and `show` on any other, as written, persisting once |
| Visibility.HideAsWrittenKeepsVisible | ember-headless-table/src/plugins/column-visibility/plugin.ts:55-69 | as written, `hide` on a column shown by its option deletes the preference and leaves it visible |
| Visibility.ShowAsWrittenKeepsHidden | ember-headless-table/src/plugins/column-visibility/plugin.ts:71-85 | as written, `show` on a column without the option that is hidden by preference deletes the preference and leaves it hidden |
| Visibility.HideAsWrittenEffect | ember-headless-table/src/plugins/column-visibility/plugin.ts:55-69 | as written, a visible column stays visible after `hide` exactly when its option shows it; a hidden one stays hidden; no other preference changes |
| Visibility.ShowAsWrittenEffect | ember-headless-table/src/plugins/column-visibility/plugin.ts:71-85 | as written, a hidden column becomes visible after `show` exactly when its option shows it; a visible one stays visible; no other preference changes |
| Visibility.ToggleAsWrittenEffect | ember-headless-table/src/plugins/column-visibility/plugin.ts:87-95 | as written, after `toggle` the column is visible exactly when its option shows it; no other preference changes |
| Visibility.HideHides | ember-headless-table/src/plugins/column-visibility/plugin.ts:55-69 | the corrected `hide` hides; it stores no preference exactly when the option alone hides; no other preference changes |
| Visibility.ShowShows | ember-headless-table/src/plugins/column-visibility/plugin.ts:71-85 | the corrected `show` shows; it stores no preference exactly when the option alone shows; no other preference changes |
| Visibility.ToggleFlips | ember-headless-table/src/plugins/column-visibility/plugin.ts:87-95 | the corrected `toggle` flips visibility and no other preference changes |
| Visibility.VisibleColumnsMembers | ember-headless-table/src/plugins/column-visibility/plugin.ts:101-110 | `visibleColumns` holds exactly the visible columns, with their multiplicities |
| Visibility.VisibleMember | ember-headless-table/src/plugins/column-visibility/plugin.ts:101-110 | a column is listed exactly when it is a table column and visible |
| Visibility.VisibleColumnsAppend | ember-headless-table/src/plugins/column-visibility/plugin.ts:101-110 | the filter keeps order |
| Visibility.PreviousColumn | ember-headless-table/src/plugins/column-visibility/plugin.ts:122-140 | fails exactly for a reference that is not a visible column; otherwise a visible column or none |
| Visibility.NextColumn | ember-headless-table/src/plugins/column-visibility/plugin.ts:142-160 | fails exactly for a reference that is not a visible column; otherwise a visible column or none |
| Visibility.VisibleNeighbours | ember-headless-table/src/plugins/column-visibility/plugin.ts:122-176 | `columnsBefore ++ [c] ++ columnsAfter` is the visible list; `previousColumn` is the last before and `nextColumn` the first after, none at the ends |
| Sizing.Filtered | ember-headless-table/src/plugins/column-resizing/plugin.ts:119-134 | falsy column options are dropped and truthy ones kept |
| Sizing.MinWidth | ember-headless-table/src/plugins/column-resizing/plugin.ts:100-138 | the truthy `minWidth` option, else 128; an absent or zero `minWidth` gives 128 |
| Sizing.ColumnOptOutIgnored | ember-headless-table/src/plugins/column-resizing/plugin.ts:119-154 | as written `isResizable: false` is dropped, so the column stays resizable on a resizable table; the corrected reading honours it; the two agree otherwise |
| Sizing.IsResizable | ember-headless-table/src/plugins/column-resizing/plugin.ts:152-154 | the corrected `isResizable`: resizable when the column's option is `true`, or when it is absent and the table is resizable |
| Sizing.IsResizableAsWritten | ember-headless-table/src/plugins/column-resizing/plugin.ts:119-154 | resizable exactly when the column option is `true` or the table is resizable; that is the corrected reading, or a column opting out on a resizable table |
| Sizing.Width | ember-headless-table/src/plugins/column-resizing/plugin.ts:165-175 | the stored width, else the initial width; else the default width but at least the minimum (`Math.max(default, minWidth)`), or the minimum without a default |
| Sizing.RoomToShrink | ember-headless-table/src/plugins/column-resizing/plugin.ts:144-150 | a column that can shrink has room, which is exactly its width above the minimum |
| Sizing.LossesNearestFirst | ember-headless-table/src/plugins/column-resizing/plugin.ts:346-358 | the k-th shrinking column loses its room or what the nearer ones left over, whichever is smaller |
| Sizing.LossesTotal | ember-headless-table/src/plugins/column-resizing/plugin.ts:346-358 | the total lost is min(\|delta\|, total room) |
| Sizing.LossSchedule | ember-headless-table/src/plugins/column-resizing/plugin.ts:346-358 | the loop's `remainder` sequence |
| Sizing.Transfer | ember-headless-table/src/plugins/column-resizing/plugin.ts:346-358 | no shrinking column drops below its minimum; the widths lost sum to min(amount, total room) |
| Sizing.GrownSum | ember-headless-table/src/plugins/column-resizing/plugin.ts:355 | the growing column gains exactly the sum of the losses |
| Sizing.SpreadEach | ember-headless-table/src/plugins/column-resizing/plugin.ts:218-221 | each resized column becomes max(width + share, minWidth) |
| Sizing.SpreadSum | ember-headless-table/src/plugins/column-resizing/plugin.ts:218-221 | growing adds the share to every column |
| Sizing.SpreadGrows | ember-headless-table/src/plugins/column-resizing/plugin.ts:207-222 | growing distributes exactly delta across the columns |
| Resizing.ColumnMeta.constructor | ember-headless-table/src/plugins/column-resizing/plugin.ts:110-113 | no stored width, not resizing |
| Resizing.ColumnMeta.Width | ember-headless-table/src/plugins/column-resizing/plugin.ts:165-175 | never 0; a non-zero stored width wins, otherwise the initial width when there is no stored width |
| Resizing.ColumnMeta.CanShrink | ember-headless-table/src/plugins/column-resizing/plugin.ts:144-146 | exactly when the width exceeds the minimum |
| Resizing.ColumnMeta.RoomToShrink | ember-headless-table/src/plugins/column-resizing/plugin.ts:148-150 | the width less the minimum, positive exactly when the column can shrink |
| Resizing.ColumnMeta.Style | ember-headless-table/src/plugins/column-resizing/plugin.ts:181-188 | `width` then `minWidth`, each the column's value |
| Resizing.HasResizeHandle | ember-headless-table/src/plugins/column-resizing/plugin.ts:156-163 | a handle exactly when there is a previous visible column and both columns are resizable as written (a column's `isResizable: false` falls back to the table) |
| Resizing.WidthsOf | ember-headless-table/src/plugins/column-resizing/plugin.ts:165-175 | each meta's width |
| Resizing.StoredOf | ember-headless-table/src/plugins/column-resizing/plugin.ts:112 | each meta's stored `_width` |
| Resizing.Shrinkable | ember-headless-table/src/plugins/column-resizing/plugin.ts:342-344 | exactly the candidates that can shrink |
| Resizing.Resizable | ember-headless-table/src/plugins/column-resizing/plugin.ts:212-214 | exactly the columns resizable as written, and only shrinkable ones for a negative delta |
| Resizing.WithoutInitialWidthKeeps | ember-headless-table/src/plugins/column-resizing/plugin.ts:266-268 | exactly the visible columns without an initial width |
| Resizing.Growing | ember-headless-table/src/plugins/column-resizing/plugin.ts:319-331 | the column itself when dragging left; otherwise a neighbour, failing for a column that is not visible |
| Resizing.GrowingIsNeighbour | ember-headless-table/src/plugins/column-resizing/plugin.ts:319-331 | dragging right picks the next visible column with the handle on the right and the previous one otherwise, none at the edge |
| Resizing.CandidatesNearestFirst | ember-headless-table/src/plugins/column-resizing/plugin.ts:337-340 | the columns after the growing one, or those before it in reverse, nearest first |
| Resizing.CandidatesDistinct | ember-headless-table/src/plugins/column-resizing/plugin.ts:337-344 | candidates are distinct visible columns other than the growing one |
| Resizing.Shift | ember-headless-table/src/plugins/column-resizing/plugin.ts:346-358 | the `shift` loop moves each loss from its shrinking column to the growing one |
| Resizing.ShiftOne | ember-headless-table/src/plugins/column-resizing/plugin.ts:353-357 | one step moves min(remainder, roomToShrink) |
| Resizing.ColumnDelta | ember-headless-table/src/plugins/column-resizing/plugin.ts:216 | the delta divided by the number of resizable columns |
| Resizing.DistributeDelta | ember-headless-table/src/plugins/column-resizing/plugin.ts:207-222 | nothing for delta 0; only the resizable (and, shrinking, shrinkable) columns change, each to max(width + delta/k, minWidth) |
| Resizing.Share | ember-headless-table/src/plugins/column-resizing/plugin.ts:218-221 | the loop gives each picked column its spread width |
| Resizing.DefaultWidthFor | ember-headless-table/src/plugins/column-resizing/plugin.ts:243-268 | none without a container width; otherwise (container − Σ initial widths) shared by the visible columns without an initial width |
| Resizing.TableMeta.DefaultColumnWidth | ember-headless-table/src/plugins/column-resizing/plugin.ts:243-250 | none exactly without a (non-zero) container width or without a column lacking an initial width; otherwise a width that, given to each such column, fills what the initial widths leave of the container |
| Resizing.TableMeta.constructor | ember-headless-table/src/plugins/column-resizing/plugin.ts:230-233 | no container size yet |
| Resizing.TableMeta.Reset | ember-headless-table/src/plugins/column-resizing/plugin.ts:274-281 | clears every visible column's stored width exactly when a container width is known |
| Resizing.TableMeta.OnTableResize | ember-headless-table/src/plugins/column-resizing/plugin.ts:283-297 | records the container size and distributes the difference to the visible widths |
| Resizing.TableMeta.ResizeColumn | ember-headless-table/src/plugins/column-resizing/plugin.ts:299-359 | nothing for delta 0 or no growing column; otherwise the growing column gains what the shrinkable candidates lose, nearest first, none below its minimum, and no other column changes |
| ResizingHelpers.ToStyle | ember-headless-table/src/plugins/column-resizing/helpers.ts:70-77 | `minWidth` becomes `min-width`, every other key is unchanged |
| ResizingHelpers.StyleStringFor | ember-headless-table/src/plugins/column-resizing/helpers.ts:43-62 | `;` followed by `key:value;` for each style entry, in order |
| ResizingHelpers.StyleStringPieces | ember-headless-table/src/plugins/column-resizing/helpers.ts:43-62 | splitting the style string on `;` gives back one declaration per entry |
| ResizingHelpers.DeclarationsJoin | ember-headless-table/src/plugins/column-resizing/helpers.ts:43-62 | the style string is the declarations joined by `;` |
| Sticky.Position | ember-headless-table/src/plugins/sticky-columns/plugin.ts:103-112 | `left` and `right` as given, `none` for false or absent, and for any other value a failure whose message names the value |
| Sticky.IsSticky | ember-headless-table/src/plugins/sticky-columns/plugin.ts:99-101 | exactly when the position is not `none` |
| Sticky.Offset | ember-headless-table/src/plugins/sticky-columns/plugin.ts:115-151 | none for a column that is not sticky; for a left-sticky column the summed widths of the columns before it, for a right-sticky one of those after it; the position's failure otherwise |
| Sticky.OffsetsPartition | ember-headless-table/src/plugins/sticky-columns/plugin.ts:115-168 | left offset + own width + right offset is the table's total width, a meta without `width` counting 0; so a sticky column's offset is the total less its own width and the other side |
| Sticky.LeftOffsetsStack | ember-headless-table/src/plugins/sticky-columns/plugin.ts:120-133 | each left offset is the previous one plus that column's width, for the offsets of two adjacent left-sticky columns too |
| Sticky.RightOffsetsStack | ember-headless-table/src/plugins/sticky-columns/plugin.ts:135-148 | each right offset is the next one plus that column's width, for the offsets of two adjacent right-sticky columns too |
| Sticky.Style | ember-headless-table/src/plugins/sticky-columns/plugin.ts:153-163 | `{}` when not sticky, else `position: sticky`, the offset under its side and `zIndex: '8'` |
| Sticky.NeedsColumnWidth | ember-headless-table/src/plugins/sticky-columns/plugin.ts:42 | a configuration with the sticky plugin and no `columnWidth` provider fails verification |
| Sorting.ColumnIsSortable | ember-headless-table/src/plugins/data-sorting/plugin.ts:100-145 | the column's own option, else whether the table has both `onSort` and `sorts` |
| Sorting.FirstSort | ember-headless-table/src/plugins/data-sorting/plugin.ts:108-112 | the first sort of the property, none exactly when no sort has it |
| Sorting.FirstSortDecides | ember-headless-table/src/plugins/data-sorting/plugin.ts:108-112 | only the first sort of a property decides its direction: sorts of other properties before it and any sorts after it, a later sort of the same property included, change nothing |
| Sorting.RequestDirection | ember-headless-table/src/plugins/data-sorting/plugin.ts:159-195 | a request sorts its property in its direction and no other property |
| Sorting.HandleSort | ember-headless-table/src/plugins/data-sorting/plugin.ts:151-166 | nothing without a property or `onSort`; otherwise at most one sort, of the property, in the next state of none → descending → ascending → none |
| Sorting.ToggleAscending | ember-headless-table/src/plugins/data-sorting/plugin.ts:168-181 | clears an ascending sort and asks for ascending otherwise |
| Sorting.ToggleDescending | ember-headless-table/src/plugins/data-sorting/plugin.ts:183-196 | clears a descending sort and asks for descending otherwise |
| Sorting.HandleSortCycles | ember-headless-table/src/plugins/data-sorting/plugin.ts:151-166 | three `handleSort` calls visit three distinct states and return to the first |
| Sorting.ToggleAscendingTwice | ember-headless-table/src/plugins/data-sorting/plugin.ts:168-181 | toggling ascending twice restores the direction |
| Sorting.ToggleDescendingTwice | ember-headless-table/src/plugins/data-sorting/plugin.ts:183-196 | toggling descending twice restores the direction |
| RowSelection.Construct | ember-headless-table/src/plugins/row-selection/plugin.ts:73-83 | passes exactly when `selection`, `onSelect` and `onDeselect` are all given |
| RowSelection.SelectionSet | ember-headless-table/src/plugins/row-selection/plugin.ts:136-147 | a Set as given, an array as the set of its items, a failure when undefined |
| RowSelection.IsSelected | ember-headless-table/src/plugins/row-selection/plugin.ts:157-170 | membership of `key(data)` when there is a `key`, else of the data |
| RowSelection.Select | ember-headless-table/src/plugins/row-selection/plugin.ts:182-194 | calls `onSelect` with `key(data)` or the data, and the row |
| RowSelection.Deselect | ember-headless-table/src/plugins/row-selection/plugin.ts:196-208 | calls `onDeselect` with `key(data)` or the data, and the row |
| RowSelection.Toggle | ember-headless-table/src/plugins/row-selection/plugin.ts:172-180 | deselects a selected row and selects any other |
| RowSelection.ToggleFlips | ember-headless-table/src/plugins/row-selection/plugin.ts:172-208 | once the host applies the event, the row's state flips and only rows sharing its identity change |
| SortCodec.DeserializeSorts | ember-headless-table/src/utils.ts:20-45 | `''` gives `[]`; otherwise one sort, failing exactly when the string starts with the separator; its property is the transformed first piece of the split, and it is ascending exactly when a second piece exists and is `asc`, descending otherwise |
| SortCodec.SerializeSorts | ember-headless-table/src/utils.ts:58-79 | `''` for no sorts; one sort is property, separator and `asc`/`desc` |
| SortCodec.SerializedPieces | ember-headless-table/src/utils.ts:58-79 | splitting the result on `+` gives back each written sort, in order |
| SortCodec.ReadBack | ember-headless-table/src/utils.ts:20-79 | reading back a written sort gives its transformed property and direction |
| SortCodec.RoundTrip | ember-headless-table/src/utils.ts:20-79 | with no transform, a single sorted sort survives the round trip |
| Strings.SplitJoin | ember-headless-table/src/utils.ts:29-31 | joining a split with the separator gives back the string |
| Strings.JoinSplit | ember-headless-table/src/utils.ts:76-78 | splitting a join on a one-character separator that no piece contains gives back the pieces |
| Strings.SplitPiecesFree | ember-headless-table/src/utils.ts:29-31 | no piece of a split contains the separator |

## Left out

- DOM and rendering work are not modelled:
  - the resize observer, the resize handle and the measurement helpers;
  - `applyStyles`/`conditionallyRemoveStyles` and every modifier;
  - `composeFunctionModifiers`;
  - the row click handlers, and row selection's click handling.
- Resizing.TableMeta.OnTableResize: the container size and `totalGap` are given as parameters, and the difference it distributes is a ghost out-parameter.
- Reactivity is not modelled. `@tracked`, `@cached` and `TrackedMap` are plain fields and maps; resources and owners are left out. Cached getters are recomputed.
- Map aliasing is not modelled. The source hands out a column's `TrackedMap` from `forColumn`; the model returns its value.
- Meta instances are values with a serial number, so "the identical instance" means equal serial numbers. The `WeakMap` keyed by columns and rows is a map keyed by their ids.
- Widths and deltas are exact reals. IEEE rounding is not modelled.
- Number rendering (the `px` strings) is a parameter; the sticky offset is returned as a number.
- Ember's `camelize` and `underscore` are parameters, as are `isEmpty`, the nested `get` and the user's `value`, `options` and `key` functions.
- The visibility plugin's `reset`, and the reordering plugin's `reset` (an empty TODO), are not modelled. Both call helpers that the base plugin does not define.
- The `isResizing`, `canShrink` and `hasResizeHandle` helper exports only forward to the column meta, which is modelled.
- `Column.key` reads the configuration directly. It is a field of the column.
- Sticky.Offset: the width-feature meta is a `width` function. The `meta.withFeature` failure for a missing width provider is not modelled.
- Resizing.DefaultWidthFor: a division by zero visible columns yields none rather than JavaScript's `Infinity`/`NaN`.
- Resizing.ColumnMeta.Style: both `width` and `minWidth` are always present, because the model's widths are never 0.
- Reordering.GetAsWritten: a missing key and position 0 fail with the same message, as in the source.
- Base.PluginOf: `instanceof` is modelled as class identity, so a plugin whose class extends the requested class is not found; the same holds for Base.HasPlugin, TableModel.TablePluginOf and the meta factory check. Class hierarchies are not modelled.
- Sticky.Position: the failure message writes a number as `<number>` and a function as `<function>`, and any object, arrays included, as `[object Object]`; number formatting and function source text are not modelled.
- The reordering meta's `isAtDefault`, the `console.log` calls in `ColumnOrder`, and type-only code are not modelled.
- PluginConfig.Entry: a bare entry that is neither a plugin class nor a plugin object (an arrow function, `undefined`) cannot be written, although `normalizePluginsConfig` passes it through; records also keep insertion order, so the numeric-keys-first order of `Object.entries` is not modelled.
- Resizing.HasResizeHandle, Resizing.TableMeta.DefaultColumnWidth, Resizing.TableMeta.Reset, Resizing.TableMeta.OnTableResize and Resizing.TableMeta.ResizeColumn: the visible columns are a parameter, so they assume a column-visibility provider is present. ColumnResizing declares no requirement, and without such a provider `meta.withFeature.forTable(table, 'columnVisibility')` fails; that failure is not modelled.
- ReorderColumns.ReorderColumns: `meta.forColumn(column, ColumnReordering)` and the meta's `position` are function parameters, so the meta instances that fetching files in the store are not tracked here; Meta.MetaStore.ForColumn models that protocol.

## Findings

| source | as written | input that shows it | evidently intended | confidence | as-written member | corrected member |
|---|---|---|---|---|---|---|
| ember-headless-table/src/plugins/column-reordering/plugin.ts:126 | `get` asserts that the resolved position is truthy | any column that `orderOf` places at position 0, e.g. the first column with an empty order map | position 0 is a valid position | not executed | Reordering.GetAsWritten (Reordering.FirstColumnRejected) | Reordering.GetResolved (Reordering.ResolvedPosition) |
| ember-headless-table/src/plugins/column-visibility/plugin.ts:55-85 | `hide` deletes the preference when the option `isVisible` is truthy; `show` deletes it when the option is falsy | a column with option `isVisible: true` and no preference, then `hide` | deleting the preference should leave the column in the requested state | not executed | Visibility.HideAsWrittenKeepsVisible, Visibility.ShowAsWrittenKeepsHidden | Visibility.HideHides, Visibility.ShowShows |
| ember-headless-table/src/plugins/column-resizing/plugin.ts:119-154 | `options` drops falsy entries before `isResizable ?? table.isResizable` | column option `isResizable: false` on a table with resizing enabled | the column opts out of resizing | not executed | Sizing.ColumnOptOutIgnored | Sizing.IsResizable (Sizing.ColumnOptOutIgnored) |
