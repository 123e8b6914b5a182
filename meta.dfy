/**
 * Plugin metadata: the per-table, per-column and per-row state objects each
 * plugin declares, created on first use and then handed out again.
 */
module Meta {
  import opened Wrappers
  import opened Types
  import opened Base

  datatype MetaKind = TableMeta | ColumnMeta | RowMeta

  /**
   * A metadata object: `serial` is its identity, `plugin` the plugin class
   * it belongs to and `subject` the id of the column or row it was made for
   * (0 for table metadata).
   */
  datatype MetaInstance = MetaInstance(serial: nat, kind: MetaKind, plugin: ClassId, subject: nat)

  predicate Declares(m: MetaCtors, kind: MetaKind) {
    match kind
    case TableMeta => m.table
    case ColumnMeta => m.column
    case RowMeta => m.row
  }

  function KindName(kind: MetaKind): string {
    match kind
    case TableMeta => "table"
    case ColumnMeta => "column"
    case RowMeta => "row"
  }

  function UnregisteredMessage(klassName: string): string {
    "[" + klassName + "] cannot get plugin instance of unregistered plugin class"
  }

  function NoMetaMessage(p: Plugin): string {
    "<#" + p.shape.name + "> plugin does not have meta specified"
  }

  function NoKindMetaMessage(p: Plugin, kind: MetaKind): string {
    "<#" + p.shape.name + "> plugin does not specify " + KindName(kind) + " meta"
  }

  /**
   * The three asserts of a meta factory, in order: the class must be one of
   * the table's plugins, which must declare `meta` with a constructor of the
   * requested kind.
   */
  function FactoryCheck(plugins: seq<Plugin>, klass: ClassId, klassName: string, kind: MetaKind)
    : (r: Outcome)
    ensures r.Pass? <==> exists p <- plugins :: p.ctor == klass &&
                           PluginOf(plugins, klass) == Some(p) &&
                           p.shape.meta.Some? && Declares(p.shape.meta.value, kind)
    ensures (forall p <- plugins :: p.ctor != klass) ==> r == Fail(UnregisteredMessage(klassName))
  {
    match PluginOf(plugins, klass)
    case None => Fail(UnregisteredMessage(klassName))
    case Some(p) =>
      if p.shape.meta.None? then Fail(NoMetaMessage(p))
      else if !Declares(p.shape.meta.value, kind) then Fail(NoKindMetaMessage(p, kind))
      else Pass
  }

  function FeatureMissingMessage(plugins: seq<Plugin>, feature: string): string {
    "Could not find plugin with feature: " + feature + ". " +
    "Available features: " + AvailableFeatures(plugins)
  }

  /** Per-subject buckets: every instance is filed under its plugin and subject, and is older than `created`. */
  ghost predicate Filed(buckets: map<nat, map<ClassId, MetaInstance>>, kind: MetaKind, created: nat) {
    forall c, k | c in buckets && k in buckets[c] ::
      buckets[c][k] == MetaInstance(buckets[c][k].serial, kind, k, c) && buckets[c][k].serial < created
  }

  /** `map.get(rootKey)`, or a new empty bucket. */
  function Bucket(buckets: map<nat, map<ClassId, MetaInstance>>, id: nat): map<ClassId, MetaInstance> {
    if id in buckets then buckets[id] else map[]
  }

  /** The buckets once `getPluginInstance` has made sure `id` has one. */
  function WithBucket(buckets: map<nat, map<ClassId, MetaInstance>>, id: nat): map<nat, map<ClassId, MetaInstance>> {
    if id in buckets then buckets else buckets[id := map[]]
  }

  /**
   * Filing a bucket whose instances belong to `id` keeps the buckets filed,
   * also against the next value of the counter.
   */
  lemma FiledAdd(buckets: map<nat, map<ClassId, MetaInstance>>, kind: MetaKind, created: nat, created': nat,
                 id: nat, bucket: map<ClassId, MetaInstance>)
    requires Filed(buckets, kind, created) && created <= created'
    requires forall k | k in bucket ::
               bucket[k] == MetaInstance(bucket[k].serial, kind, k, id) && bucket[k].serial < created'
    ensures Filed(buckets[id := bucket], kind, created')
  {
  }

  /** Filed buckets stay filed against a later counter. */
  lemma FiledLater(buckets: map<nat, map<ClassId, MetaInstance>>, kind: MetaKind, created: nat, created': nat)
    requires Filed(buckets, kind, created) && created <= created'
    ensures Filed(buckets, kind, created')
  {
  }

  /** The table's instances: each filed under its own plugin, and older than `created`. */
  ghost predicate TableFiled(tableMeta: map<ClassId, MetaInstance>, created: nat) {
    forall k | k in tableMeta ::
      tableMeta[k] == MetaInstance(tableMeta[k].serial, TableMeta, k, 0) && tableMeta[k].serial < created
  }

  /** The table's instances stay filed against a later counter. */
  lemma TableFiledLater(tableMeta: map<ClassId, MetaInstance>, created: nat, created': nat)
    requires TableFiled(tableMeta, created) && created <= created'
    ensures TableFiled(tableMeta, created')
  {
  }

  /** The metadata buckets a table keeps, and a counter for fresh identities. */
  class MetaStore {
    var tableMeta: map<ClassId, MetaInstance>
    var columnMeta: map<nat, map<ClassId, MetaInstance>>
    var rowMeta: map<nat, map<ClassId, MetaInstance>>
    var created: nat

    /** Every instance is filed under its own plugin and subject, and is older than the counter. */
    ghost predicate Valid()
      reads this
    {
      TableFiled(tableMeta, created) && Filed(columnMeta, ColumnMeta, created) && Filed(rowMeta, RowMeta, created)
    }

    constructor()
      ensures Valid()
      ensures tableMeta == map[] && columnMeta == map[] && rowMeta == map[] && created == 0
    {
      tableMeta := map[];
      columnMeta := map[];
      rowMeta := map[];
      created := 0;
    }

    /**
     * `meta.forColumn(column, klass)`: the column's bucket is created first
     * (and kept even when the factory then fails); a cached instance is
     * returned as is; otherwise the factory's checks run and a new instance
     * is stored.
     */
    method ForColumn(plugins: seq<Plugin>, column: Column, klass: ClassId, klassName: string)
      returns (r: Result<MetaInstance>)
      requires Valid()
      modifies this
      ensures Valid()
      ensures tableMeta == old(tableMeta) && rowMeta == old(rowMeta)
      ensures column.id in columnMeta
      ensures r.Ok? ==> klass in columnMeta[column.id] && columnMeta[column.id][klass] == r.value
      ensures old(column.id in columnMeta && klass in columnMeta[column.id]) ==>
                r == Ok(old(columnMeta[column.id][klass])) &&
                columnMeta == old(columnMeta) && created == old(created)
      ensures !old(column.id in columnMeta && klass in columnMeta[column.id]) ==>
                match FactoryCheck(plugins, klass, klassName, ColumnMeta)
                case Fail(msg) =>
                  r == Err(msg) && columnMeta == WithBucket(old(columnMeta), column.id) && created == old(created)
                case Pass =>
                  r == Ok(MetaInstance(old(created), ColumnMeta, klass, column.id)) &&
                  columnMeta == old(columnMeta)[column.id := Bucket(old(columnMeta), column.id)[klass := r.value]] &&
                  created == old(created) + 1
    {
      if column.id !in columnMeta {
        FiledAdd(columnMeta, ColumnMeta, created, created, column.id, map[]);
        columnMeta := columnMeta[column.id := map[]];
      }
      var bucket: map<ClassId, MetaInstance> := columnMeta[column.id];
      if klass in bucket {
        return Ok(bucket[klass]);
      }
      var check := FactoryCheck(plugins, klass, klassName, ColumnMeta);
      if check.Fail? {
        return Err(check.msg);
      }
      var instance := MetaInstance(created, ColumnMeta, klass, column.id);
      FiledAdd(columnMeta, ColumnMeta, created, created + 1, column.id, bucket[klass := instance]);
      FiledLater(rowMeta, RowMeta, created, created + 1);
      TableFiledLater(tableMeta, created, created + 1);
      created := created + 1;
      columnMeta := columnMeta[column.id := bucket[klass := instance]];
      r := Ok(instance);
    }

    /** `meta.forRow(row, klass)`, the same protocol over the row buckets. */
    method ForRow(plugins: seq<Plugin>, row: Row, klass: ClassId, klassName: string)
      returns (r: Result<MetaInstance>)
      requires Valid()
      modifies this
      ensures Valid()
      ensures tableMeta == old(tableMeta) && columnMeta == old(columnMeta)
      ensures old(row.id in rowMeta && klass in rowMeta[row.id]) ==>
                r == Ok(old(rowMeta[row.id][klass])) &&
                rowMeta == old(rowMeta) && created == old(created)
      ensures !old(row.id in rowMeta && klass in rowMeta[row.id]) ==>
                match FactoryCheck(plugins, klass, klassName, RowMeta)
                case Fail(msg) =>
                  r == Err(msg) && rowMeta == WithBucket(old(rowMeta), row.id) && created == old(created)
                case Pass =>
                  r == Ok(MetaInstance(old(created), RowMeta, klass, row.id)) &&
                  rowMeta == old(rowMeta)[row.id := Bucket(old(rowMeta), row.id)[klass := r.value]] &&
                  created == old(created) + 1
    {
      if row.id !in rowMeta {
        FiledAdd(rowMeta, RowMeta, created, created, row.id, map[]);
        rowMeta := rowMeta[row.id := map[]];
      }
      var bucket: map<ClassId, MetaInstance> := rowMeta[row.id];
      if klass in bucket {
        return Ok(bucket[klass]);
      }
      var check := FactoryCheck(plugins, klass, klassName, RowMeta);
      if check.Fail? {
        return Err(check.msg);
      }
      var instance := MetaInstance(created, RowMeta, klass, row.id);
      FiledAdd(rowMeta, RowMeta, created, created + 1, row.id, bucket[klass := instance]);
      FiledLater(columnMeta, ColumnMeta, created, created + 1);
      TableFiledLater(tableMeta, created, created + 1);
      created := created + 1;
      rowMeta := rowMeta[row.id := bucket[klass := instance]];
      r := Ok(instance);
    }

    /**
     * `meta.forTable(table, klass)`. Its extra "already exists" assert can
     * never fail, because the factory only runs when the class has no entry.
     */
    method ForTable(plugins: seq<Plugin>, klass: ClassId, klassName: string)
      returns (r: Result<MetaInstance>)
      requires Valid()
      modifies this
      ensures Valid()
      ensures columnMeta == old(columnMeta) && rowMeta == old(rowMeta)
      ensures r.Ok? ==> klass in tableMeta && tableMeta[klass] == r.value
      ensures old(klass in tableMeta) ==>
                r == Ok(old(tableMeta[klass])) && tableMeta == old(tableMeta) && created == old(created)
      ensures !old(klass in tableMeta) ==>
                match FactoryCheck(plugins, klass, klassName, TableMeta)
                case Fail(msg) =>
                  r == Err(msg) && tableMeta == old(tableMeta) && created == old(created)
                case Pass =>
                  r == Ok(MetaInstance(old(created), TableMeta, klass, 0)) &&
                  tableMeta == old(tableMeta)[klass := r.value] && created == old(created) + 1
    {
      if klass in tableMeta {
        return Ok(tableMeta[klass]);
      }
      var check := FactoryCheck(plugins, klass, klassName, TableMeta);
      if check.Fail? {
        return Err(check.msg);
      }
      var instance := MetaInstance(created, TableMeta, klass, 0);
      FiledLater(columnMeta, ColumnMeta, created, created + 1);
      FiledLater(rowMeta, RowMeta, created, created + 1);
      created := created + 1;
      tableMeta := tableMeta[klass := instance];
      r := Ok(instance);
    }

    /** `meta.withFeature.forColumn`: the column meta of the feature's provider. */
    method WithFeatureForColumn(plugins: seq<Plugin>, column: Column, feature: string)
      returns (r: Result<MetaInstance>)
      requires Valid()
      modifies this
      ensures Valid()
      ensures FindPlugin(plugins, feature).None? ==>
                r == Err(FeatureMissingMessage(plugins, feature)) &&
                columnMeta == old(columnMeta) && created == old(created)
      ensures r.Ok? ==> FindPlugin(plugins, feature).Some? &&
                        r.value.plugin == FindPlugin(plugins, feature).value.ctor &&
                        column.id in columnMeta && r.value.plugin in columnMeta[column.id] &&
                        columnMeta[column.id][r.value.plugin] == r.value
      ensures tableMeta == old(tableMeta) && rowMeta == old(rowMeta)
      ensures var p := FindPlugin(plugins, feature);
              p.Some? && old(column.id in columnMeta && p.value.ctor in columnMeta[column.id]) ==>
                r == Ok(old(columnMeta[column.id][p.value.ctor])) &&
                columnMeta == old(columnMeta) && created == old(created)
      ensures var p := FindPlugin(plugins, feature);
              p.Some? && !old(column.id in columnMeta && p.value.ctor in columnMeta[column.id]) ==>
                match FactoryCheck(plugins, p.value.ctor, p.value.ctorName, ColumnMeta)
                case Fail(msg) =>
                  r == Err(msg) && columnMeta == WithBucket(old(columnMeta), column.id) && created == old(created)
                case Pass =>
                  r == Ok(MetaInstance(old(created), ColumnMeta, p.value.ctor, column.id)) &&
                  columnMeta == old(columnMeta)[column.id := Bucket(old(columnMeta), column.id)[p.value.ctor := r.value]] &&
                  created == old(created) + 1
    {
      var provider := FindPlugin(plugins, feature);
      if provider.None? {
        return Err(FeatureMissingMessage(plugins, feature));
      }
      r := ForColumn(plugins, column, provider.value.ctor, provider.value.ctorName);
    }

    /** `meta.withFeature.forTable`: the table meta of the feature's provider. */
    method WithFeatureForTable(plugins: seq<Plugin>, feature: string)
      returns (r: Result<MetaInstance>)
      requires Valid()
      modifies this
      ensures Valid()
      ensures FindPlugin(plugins, feature).None? ==>
                r == Err(FeatureMissingMessage(plugins, feature)) &&
                tableMeta == old(tableMeta) && created == old(created)
      ensures r.Ok? ==> FindPlugin(plugins, feature).Some? &&
                        r.value.plugin == FindPlugin(plugins, feature).value.ctor &&
                        r.value.plugin in tableMeta && tableMeta[r.value.plugin] == r.value
      ensures columnMeta == old(columnMeta) && rowMeta == old(rowMeta)
      ensures var p := FindPlugin(plugins, feature);
              p.Some? && old(p.value.ctor in tableMeta) ==>
                r == Ok(old(tableMeta[p.value.ctor])) && tableMeta == old(tableMeta) && created == old(created)
      ensures var p := FindPlugin(plugins, feature);
              p.Some? && !old(p.value.ctor in tableMeta) ==>
                match FactoryCheck(plugins, p.value.ctor, p.value.ctorName, TableMeta)
                case Fail(msg) =>
                  r == Err(msg) && tableMeta == old(tableMeta) && created == old(created)
                case Pass =>
                  r == Ok(MetaInstance(old(created), TableMeta, p.value.ctor, 0)) &&
                  tableMeta == old(tableMeta)[p.value.ctor := r.value] && created == old(created) + 1
    {
      var provider := FindPlugin(plugins, feature);
      if provider.None? {
        return Err(FeatureMissingMessage(plugins, feature));
      }
      r := ForTable(plugins, provider.value.ctor, provider.value.ctorName);
    }
  }

  /**
   * Metadata is a singleton per (column, plugin) pair: asking twice yields
   * the same instance, or the same failure, and the two requests together
   * change the store exactly as the first one alone does.
   */
  method ColumnMetaIsSingleton(store: MetaStore, plugins: seq<Plugin>, column: Column,
                               klass: ClassId, klassName: string)
    returns (first: Result<MetaInstance>, second: Result<MetaInstance>)
    requires store.Valid()
    modifies store
    ensures second == first
    ensures store.tableMeta == old(store.tableMeta) && store.rowMeta == old(store.rowMeta)
    ensures old(column.id in store.columnMeta && klass in store.columnMeta[column.id]) ==>
              first == Ok(old(store.columnMeta[column.id][klass])) &&
              store.columnMeta == old(store.columnMeta) && store.created == old(store.created)
    ensures !old(column.id in store.columnMeta && klass in store.columnMeta[column.id]) ==>
              match FactoryCheck(plugins, klass, klassName, ColumnMeta)
              case Fail(msg) =>
                first == Err(msg) && store.columnMeta == WithBucket(old(store.columnMeta), column.id) &&
                store.created == old(store.created)
              case Pass =>
                first == Ok(MetaInstance(old(store.created), ColumnMeta, klass, column.id)) &&
                store.columnMeta == old(store.columnMeta)[column.id := Bucket(old(store.columnMeta), column.id)[klass := first.value]] &&
                store.created == old(store.created) + 1
  {
    first := store.ForColumn(plugins, column, klass, klassName);
    second := store.ForColumn(plugins, column, klass, klassName);
  }

}
