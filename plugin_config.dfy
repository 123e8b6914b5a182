/**
 * The table's plugin configuration: turning the `plugins` argument into
 * `[plugin, () => options]` tuples, and checking that every requested
 * feature is provided by exactly one plugin.
 */
module PluginConfig {
  import opened Wrappers
  import opened Values
  import opened Types
  import opened Strings

  /** An element of a configuration entry. */
  datatype Slot =
    | PluginSlot(p: PluginRef)            // a plugin class or plugin object
    | ThunkSlot(result: Option<Record>)   // an arrow function and what it returns
    | OtherSlot                           // anything else, including `undefined`

  /** An entry of the `plugins` argument: a plugin on its own, or an array. */
  datatype Entry = Bare(p: PluginRef) | ArrayEntry(slots: seq<Slot>)

  /** A normalized `[plugin, () => options]` tuple. */
  datatype PluginTuple = PluginTuple(head: Slot, options: Slot)

  /** `() => ({})`, the options thunk an entry without one is given. */
  const DefaultOptions: Slot := ThunkSlot(Some(map[]))

  const NotInvokable := "Every entry in the plugins config must be invokable"

  /** `array[i]`, `undefined` past the end. */
  function SlotAt(slots: seq<Slot>, i: nat): Slot {
    if i < |slots| then slots[i] else OtherSlot
  }

  /** `typeof slot === 'function'`: classes and arrow functions, not plugin objects. */
  predicate IsFunction(s: Slot) {
    s.ThunkSlot? || (s.PluginSlot? && s.p.ClassRef?)
  }

  predicate Invokable(t: PluginTuple) {
    IsFunction(t.head) && IsFunction(t.options)
  }

  /** The tuple one entry becomes. */
  function NormalizeEntry(e: Entry): PluginTuple {
    match e
    case Bare(p) => PluginTuple(PluginSlot(p), DefaultOptions)
    case ArrayEntry(slots) =>
      if |slots| == 2 then PluginTuple(slots[0], slots[1])
      else PluginTuple(SlotAt(slots, 0), DefaultOptions)
  }

  /** `normalizePluginsConfig(plugins)`, as a value. */
  function Normalized(plugins: Option<seq<Entry>>): Result<seq<PluginTuple>> {
    match plugins
    case None => Ok([])
    case Some(es) =>
      var ts := seq(|es|, i requires 0 <= i < |es| => NormalizeEntry(es[i]));
      if forall t <- ts :: Invokable(t) then Ok(ts) else Err(NotInvokable)
  }

  /**
   * Which entries the normalization accepts, stated on the entries: a plugin
   * class on its own, or an array whose first element is a function and,
   * when it has exactly two elements, whose second element is one too.
   */
  predicate AcceptedEntry(e: Entry) {
    match e
    case Bare(p) => p.ClassRef?
    case ArrayEntry(slots) =>
      IsFunction(SlotAt(slots, 0)) && (|slots| == 2 ==> IsFunction(slots[1]))
  }

  /** The plugin (or whatever stands first) of an entry. */
  function EntryHead(e: Entry): Slot {
    match e
    case Bare(p) => PluginSlot(p)
    case ArrayEntry(slots) => SlotAt(slots, 0)
  }

  /**
   * Normalization succeeds exactly when every entry is accepted; it then
   * keeps one tuple per entry, in order, headed by that entry's plugin, and
   * an entry without its own options thunk gets `() => ({})`.
   */
  lemma NormalizedCharacterized(es: seq<Entry>)
    ensures Normalized(Some(es)).Ok? <==> forall e <- es :: AcceptedEntry(e)
    ensures Normalized(Some(es)).Ok? ==>
      var ts := Normalized(Some(es)).value;
      |ts| == |es| &&
      (forall i :: 0 <= i < |es| ==> ts[i].head == EntryHead(es[i])) &&
      (forall i :: 0 <= i < |es| && !(es[i].ArrayEntry? && |es[i].slots| == 2) ==>
         ts[i].options == DefaultOptions)
  {
    var ts := seq(|es|, i requires 0 <= i < |es| => NormalizeEntry(es[i]));
    assert forall i :: 0 <= i < |es| ==> ts[i] == NormalizeEntry(es[i]);
    if forall e <- es :: AcceptedEntry(e) {
      forall t | t in ts ensures Invokable(t) {
        var i :| 0 <= i < |ts| && ts[i] == t;
        assert AcceptedEntry(es[i]);
      }
    } else {
      var e :| e in es && !AcceptedEntry(e);
      var i :| 0 <= i < |es| && es[i] == e;
      assert !Invokable(ts[i]);
    }
  }

  /** `normalizePluginsConfig`: the loop over the entries, then the assert. */
  method NormalizePluginsConfig(plugins: Option<seq<Entry>>) returns (r: Result<seq<PluginTuple>>)
    ensures r == Normalized(plugins)
  {
    if plugins.None? {
      return Ok([]);
    }
    var es := plugins.value;
    var result: seq<PluginTuple> := [];
    for i := 0 to |es|
      invariant result == seq(i, j requires 0 <= j < i => NormalizeEntry(es[j]))
    {
      var entry := es[i];
      match entry {
        case Bare(p) =>
          result := result + [PluginTuple(PluginSlot(p), DefaultOptions)];
        case ArrayEntry(slots) =>
          if |slots| == 2 {
            result := result + [PluginTuple(slots[0], slots[1])];
          } else {
            result := result + [PluginTuple(SlotAt(slots, 0), DefaultOptions)];
          }
      }
    }
    if forall t <- result :: Invokable(t) {
      r := Ok(result);
    } else {
      r := Err(NotInvokable);
    }
  }

  // ---------------------------------------------------------------------
  // Feature and requirement collection

  /** Whether `features` or `requires` is being collected. */
  datatype TagKind = Features | Requirements

  function OrEmpty(o: Option<seq<string>>): seq<string> {
    if o.Some? then o.value else []
  }

  /** `plugin.features || []` (or `requires`) for the plugin a tuple starts with. */
  function Tags(head: Slot, kind: TagKind): seq<string> {
    match head
    case PluginSlot(ClassRef(c)) =>
      OrEmpty(if kind == Features then c.features else c.requirements)
    case PluginSlot(ObjectRef(o)) =>
      OrEmpty(if kind == Features then o.shape.features else o.shape.requirements)
    case ThunkSlot(_) => []
    case OtherSlot => []
  }

  /** `plugin.name`: the class's name, or a plugin object's `name`. */
  function NameOf(head: Slot): string {
    match head
    case PluginSlot(ClassRef(c)) => c.className
    case PluginSlot(ObjectRef(o)) => o.shape.name
    case ThunkSlot(_) => ""
    case OtherSlot => ""
  }

  /**
   * A record from tag to the plugins listed under it, in the order its keys
   * were first set (which is `Object.entries` order for non-numeric keys).
   */
  type Index = seq<(string, seq<Slot>)>

  /** Distinct keys, and no key without plugins. */
  ghost predicate WellFormed(idx: Index) {
    (forall i, j :: 0 <= i < j < |idx| ==> idx[i].0 != idx[j].0) &&
    (forall i :: 0 <= i < |idx| ==> idx[i].1 != [])
  }

  /** The position of `tag` among the keys, or -1. */
  function Find(idx: Index, tag: string): (j: int)
    ensures -1 <= j < |idx|
    ensures j >= 0 ==> idx[j].0 == tag && forall k :: 0 <= k < j ==> idx[k].0 != tag
    ensures j < 0 ==> forall k :: 0 <= k < |idx| ==> idx[k].0 != tag
  {
    if idx == [] then -1
    else if idx[0].0 == tag then 0
    else
      var j := Find(idx[1..], tag);
      if j < 0 then -1 else j + 1
  }

  /** `result[tag] || []` */
  function Lookup(idx: Index, tag: string): seq<Slot> {
    var j := Find(idx, tag);
    if j < 0 then [] else idx[j].1
  }

  /** `Object.keys(result)` */
  function Keys(idx: Index): seq<string> {
    seq(|idx|, i requires 0 <= i < |idx| => idx[i].0)
  }

  /** `result[tag] = [...(result[tag] || []), plugin]` */
  function Add(idx: Index, tag: string, plugin: Slot): Index {
    var j := Find(idx, tag);
    if j < 0 then idx + [(tag, [plugin])] else idx[j := (tag, idx[j].1 + [plugin])]
  }

  /** The inner loop: `plugin` added under each of `tags` in turn. */
  function AddAll(idx: Index, tags: seq<string>, plugin: Slot): Index {
    if tags == [] then idx
    else Add(AddAll(idx, tags[..|tags| - 1], plugin), tags[|tags| - 1], plugin)
  }

  /** `collectFeatures(plugins)` / `collectRequirements(plugins)`, as a value. */
  function Collect(heads: seq<Slot>, kind: TagKind): Index {
    if heads == [] then []
    else
      var last := heads[|heads| - 1];
      AddAll(Collect(heads[..|heads| - 1], kind), Tags(last, kind), last)
  }

  /** `n` copies of `s`. */
  function Repeat(s: Slot, n: nat): (r: seq<Slot>)
    ensures |r| == n && forall x <- r :: x == s
  {
    if n == 0 then [] else Repeat(s, n - 1) + [s]
  }

  /**
   * The reference definition of a record entry: every plugin that lists
   * `tag`, in plugin order, once per time it lists it.
   */
  function Providers(heads: seq<Slot>, kind: TagKind, tag: string): seq<Slot> {
    if heads == [] then []
    else
      var last := heads[|heads| - 1];
      Providers(heads[..|heads| - 1], kind, tag) + Repeat(last, multiset(Tags(last, kind))[tag])
  }

  lemma LookupAt(idx: Index, i: int)
    requires WellFormed(idx) && 0 <= i < |idx|
    ensures Lookup(idx, idx[i].0) == idx[i].1
  {
    var j := Find(idx, idx[i].0);
    assert j >= 0;
    assert !(j < i) && !(i < j);
  }

  /** A key is present exactly when some plugin is recorded under it. */
  lemma KeysIffLookup(idx: Index, tag: string)
    requires WellFormed(idx)
    ensures tag in Keys(idx) <==> Lookup(idx, tag) != []
  {
    if tag in Keys(idx) {
      var i :| 0 <= i < |idx| && Keys(idx)[i] == tag;
      LookupAt(idx, i);
    }
    var j := Find(idx, tag);
    if j >= 0 {
      assert Keys(idx)[j] == tag;
    }
  }

  lemma AddWellFormed(idx: Index, tag: string, plugin: Slot)
    requires WellFormed(idx)
    ensures WellFormed(Add(idx, tag, plugin))
  {
  }

  /** Adding under `tag` appends to that entry and leaves every other one as it was. */
  lemma AddLookup(idx: Index, tag: string, plugin: Slot, x: string)
    ensures Lookup(Add(idx, tag, plugin), x) == Lookup(idx, x) + (if x == tag then [plugin] else [])
  {
    var idx' := Add(idx, tag, plugin);
    var j := Find(idx, tag);
    var k := Find(idx, x);
    var k' := Find(idx', x);
    if j < 0 {
      if x == tag {
        assert idx'[|idx|].0 == tag;
        assert k' == |idx|;
      } else if k >= 0 {
        assert idx'[k].0 == x;
        assert k' == k;
      } else {
        assert k' < 0;
      }
    } else {
      if k >= 0 {
        assert idx'[k].0 == x;
        assert k' == k;
      } else {
        assert k' < 0;
      }
    }
  }

  lemma {:induction false} AddAllWellFormed(idx: Index, tags: seq<string>, plugin: Slot)
    requires WellFormed(idx)
    ensures WellFormed(AddAll(idx, tags, plugin))
  {
    if tags != [] {
      AddAllWellFormed(idx, tags[..|tags| - 1], plugin);
      AddWellFormed(AddAll(idx, tags[..|tags| - 1], plugin), tags[|tags| - 1], plugin);
    }
  }

  /** Adding a plugin under each of `tags` appends it once per time a tag is listed. */
  lemma {:induction false} AddAllLookup(idx: Index, tags: seq<string>, plugin: Slot, x: string)
    ensures Lookup(AddAll(idx, tags, plugin), x) == Lookup(idx, x) + Repeat(plugin, multiset(tags)[x])
  {
    if tags != [] {
      var init := tags[..|tags| - 1];
      var last := tags[|tags| - 1];
      assert tags == init + [last];
      var before := AddAll(idx, init, plugin);
      var n := multiset(init)[x];
      var was := Lookup(idx, x);
      AddAllLookup(idx, init, plugin, x);
      AddLookup(before, last, plugin, x);
      if x == last {
        assert multiset(tags)[x] == n + 1;
        calc {
          Lookup(AddAll(idx, tags, plugin), x);
          Lookup(before, x) + [plugin];
          (was + Repeat(plugin, n)) + [plugin];
          was + (Repeat(plugin, n) + [plugin]);
        }
      } else {
        assert multiset(tags)[x] == n;
        assert Lookup(before, x) + [] == Lookup(before, x);
      }
    }
  }

  /**
   * The collected record is well formed, and its entry for every tag is
   * exactly the reference list of plugins providing (or requesting) it.
   */
  lemma {:induction false} CollectLookup(heads: seq<Slot>, kind: TagKind)
    ensures WellFormed(Collect(heads, kind))
    ensures forall x :: Lookup(Collect(heads, kind), x) == Providers(heads, kind, x)
  {
    if heads != [] {
      var init := heads[..|heads| - 1];
      var last := heads[|heads| - 1];
      CollectLookup(init, kind);
      AddAllWellFormed(Collect(init, kind), Tags(last, kind), last);
      forall x ensures Lookup(Collect(heads, kind), x) == Providers(heads, kind, x) {
        AddAllLookup(Collect(init, kind), Tags(last, kind), last, x);
      }
    }
  }

  /** A tag has providers exactly when some plugin lists it. */
  lemma {:induction false} ProvidersNonEmpty(heads: seq<Slot>, kind: TagKind, tag: string)
    ensures Providers(heads, kind, tag) != [] <==>
            exists i :: 0 <= i < |heads| && tag in Tags(heads[i], kind)
  {
    if heads != [] {
      var n := |heads| - 1;
      ProvidersNonEmpty(heads[..n], kind, tag);
      if tag in Tags(heads[n], kind) {
        assert multiset(Tags(heads[n], kind))[tag] > 0;
      }
      if exists i :: 0 <= i < |heads[..n]| && tag in Tags(heads[..n][i], kind) {
        var i :| 0 <= i < |heads[..n]| && tag in Tags(heads[..n][i], kind);
        assert heads[i] == heads[..n][i];
      }
      if exists i :: 0 <= i < |heads| && tag in Tags(heads[i], kind) {
        var i :| 0 <= i < |heads| && tag in Tags(heads[i], kind);
        if i < n {
          assert heads[..n][i] == heads[i];
        }
      }
    }
  }

  /** The collection loops of `collectFeatures` and `collectRequirements`. */
  method CollectTags(heads: seq<Slot>, kind: TagKind) returns (idx: Index)
    ensures idx == Collect(heads, kind)
  {
    idx := [];
    for i := 0 to |heads|
      invariant idx == Collect(heads[..i], kind)
    {
      var tags := Tags(heads[i], kind);
      for j := 0 to |tags|
        invariant idx == AddAll(Collect(heads[..i], kind), tags[..j], heads[i])
      {
        idx := Add(idx, tags[j], heads[i]);
        assert tags[..j + 1][..j] == tags[..j];
      }
      assert tags[..|tags|] == tags;
      assert heads[..i + 1][..i] == heads[..i];
    }
    assert heads[..|heads|] == heads;
  }

  // ---------------------------------------------------------------------
  // Verification

  function Names(ps: seq<Slot>): seq<string> {
    seq(|ps|, i requires 0 <= i < |ps| => NameOf(ps[i]))
  }

  function DuplicateMessage(feature: string, providers: seq<Slot>): string {
    "More than one plugin is providing the feature: " + feature + ". " +
    "Please remove one of " + Join(Names(providers), ", ")
  }

  function MissingMessage(requirement: string, requesters: seq<Slot>): string {
    "Configuration is missing requirement: " + requirement + ", " +
    "And is requested by " + Join(Names(requesters), ", ") + ". " +
    "Please add a plugin with the " + requirement + " feature"
  }

  /** One message per feature with more than one provider, in key order. */
  function DuplicateErrors(features: Index): seq<string> {
    if features == [] then []
    else
      var last := features[|features| - 1];
      DuplicateErrors(features[..|features| - 1]) +
      (if |last.1| > 1 then [DuplicateMessage(last.0, last.1)] else [])
  }

  /** One message per requirement that no plugin provides, in key order. */
  function MissingErrors(requirements: Index, provided: seq<string>): seq<string> {
    if requirements == [] then []
    else
      var last := requirements[|requirements| - 1];
      MissingErrors(requirements[..|requirements| - 1], provided) +
      (if last.0 !in provided then [MissingMessage(last.0, last.1)] else [])
  }

  /** `verifyPlugins`, as a value: the errors joined by newlines, if any. */
  function Verified(heads: seq<Slot>): Outcome {
    var features := Collect(heads, Features);
    var errors := DuplicateErrors(features) +
                  MissingErrors(Collect(heads, Requirements), Keys(features));
    if errors == [] then Pass else Fail(Join(errors, "\n"))
  }

  lemma {:induction false} DuplicateErrorsEmpty(idx: Index)
    ensures DuplicateErrors(idx) == [] <==> forall i :: 0 <= i < |idx| ==> |idx[i].1| <= 1
  {
    if idx != [] {
      var n := |idx| - 1;
      DuplicateErrorsEmpty(idx[..n]);
      assert forall i :: 0 <= i < n ==> idx[..n][i] == idx[i];
    }
  }

  lemma {:induction false} MissingErrorsEmpty(idx: Index, provided: seq<string>)
    ensures MissingErrors(idx, provided) == [] <==>
            forall i :: 0 <= i < |idx| ==> idx[i].0 in provided
  {
    if idx != [] {
      var n := |idx| - 1;
      MissingErrorsEmpty(idx[..n], provided);
      assert forall i :: 0 <= i < n ==> idx[..n][i] == idx[i];
    }
  }

  /** No duplicate-provider message exactly when no feature has two providers. */
  lemma NoDuplicatesIff(heads: seq<Slot>)
    ensures DuplicateErrors(Collect(heads, Features)) == [] <==>
            forall x :: |Providers(heads, Features, x)| <= 1
  {
    var fi := Collect(heads, Features);
    CollectLookup(heads, Features);
    DuplicateErrorsEmpty(fi);
    if forall i :: 0 <= i < |fi| ==> |fi[i].1| <= 1 {
      forall x ensures |Providers(heads, Features, x)| <= 1 {
        var j := Find(fi, x);
      }
    } else {
      var i :| 0 <= i < |fi| && |fi[i].1| > 1;
      LookupAt(fi, i);
      assert |Providers(heads, Features, fi[i].0)| > 1;
    }
  }

  /** The requirement check on records: every requested key is a feature key. */
  lemma MissingErrorsEmptyByLookup(ri: Index, fi: Index)
    requires WellFormed(ri) && WellFormed(fi)
    ensures MissingErrors(ri, Keys(fi)) == [] <==>
            forall x :: Lookup(ri, x) != [] ==> Lookup(fi, x) != []
  {
    MissingErrorsEmpty(ri, Keys(fi));
    if forall i :: 0 <= i < |ri| ==> ri[i].0 in Keys(fi) {
      forall x | Lookup(ri, x) != [] ensures Lookup(fi, x) != [] {
        var j := Find(ri, x);
        assert ri[j].0 in Keys(fi);
        KeysIffLookup(fi, x);
      }
    } else {
      var i :| 0 <= i < |ri| && ri[i].0 !in Keys(fi);
      LookupAt(ri, i);
      KeysIffLookup(fi, ri[i].0);
    }
  }

  /** No missing-requirement message exactly when every requested tag is provided. */
  lemma NoMissingIff(heads: seq<Slot>)
    ensures MissingErrors(Collect(heads, Requirements), Keys(Collect(heads, Features))) == [] <==>
            forall x :: Providers(heads, Requirements, x) != [] ==> Providers(heads, Features, x) != []
  {
    var fi := Collect(heads, Features);
    var ri := Collect(heads, Requirements);
    CollectLookup(heads, Features);
    CollectLookup(heads, Requirements);
    MissingErrorsEmptyByLookup(ri, fi);
    if MissingErrors(ri, Keys(fi)) == [] {
      forall x | Providers(heads, Requirements, x) != []
        ensures Providers(heads, Features, x) != []
      {
        assert Lookup(ri, x) != [];
      }
    } else {
      var x :| Lookup(ri, x) != [] && Lookup(fi, x) == [];
      assert Providers(heads, Requirements, x) != [] && Providers(heads, Features, x) == [];
    }
  }

  /**
   * `verifyPlugins` passes exactly when no feature is provided more than
   * once and every requested feature is provided by some plugin.
   */
  lemma VerifiedIff(heads: seq<Slot>)
    ensures Verified(heads).Pass? <==>
      (forall x :: |Providers(heads, Features, x)| <= 1) &&
      (forall x :: Providers(heads, Requirements, x) != [] ==> Providers(heads, Features, x) != [])
  {
    NoDuplicatesIff(heads);
    NoMissingIff(heads);
  }

  /**
   * Whether a configuration passes depends only on which plugins it lists
   * with which tags for each requirement: the requirement check is
   * independent of the order of the plugins.
   */
  lemma RequirementMetIndependentOfOrder(heads: seq<Slot>, others: seq<Slot>, tag: string)
    requires multiset(heads) == multiset(others)
    ensures Providers(heads, Features, tag) != [] <==> Providers(others, Features, tag) != []
  {
    ProvidersNonEmpty(heads, Features, tag);
    ProvidersNonEmpty(others, Features, tag);
    if exists i :: 0 <= i < |heads| && tag in Tags(heads[i], Features) {
      var i :| 0 <= i < |heads| && tag in Tags(heads[i], Features);
      assert heads[i] in multiset(others);
      var k :| 0 <= k < |others| && others[k] == heads[i];
    }
    if exists i :: 0 <= i < |others| && tag in Tags(others[i], Features) {
      var i :| 0 <= i < |others| && tag in Tags(others[i], Features);
      assert others[i] in multiset(heads);
      var k :| 0 <= k < |heads| && heads[k] == others[i];
    }
  }

  /** The first loop of `verifyPlugins`: a message per feature with more than one provider. */
  method DuplicateScan(features: Index) returns (errors: seq<string>)
    ensures errors == DuplicateErrors(features)
  {
    errors := [];
    for i := 0 to |features|
      invariant errors == DuplicateErrors(features[..i])
    {
      DuplicateErrorsStep(features, i);
      if |features[i].1| > 1 {
        errors := errors + [DuplicateMessage(features[i].0, features[i].1)];
      }
    }
    assert features[..|features|] == features;
  }

  lemma DuplicateErrorsStep(features: Index, i: nat)
    requires i < |features|
    ensures DuplicateErrors(features[..i + 1]) ==
            DuplicateErrors(features[..i]) +
            (if |features[i].1| > 1 then [DuplicateMessage(features[i].0, features[i].1)] else [])
  {
    assert features[..i + 1][..i] == features[..i];
  }

  lemma MissingErrorsStep(requirements: Index, provided: seq<string>, i: nat)
    requires i < |requirements|
    ensures MissingErrors(requirements[..i + 1], provided) ==
            MissingErrors(requirements[..i], provided) +
            (if requirements[i].0 !in provided then [MissingMessage(requirements[i].0, requirements[i].1)] else [])
  {
    assert requirements[..i + 1][..i] == requirements[..i];
  }

  /** The second loop of `verifyPlugins`: a message per requested tag no plugin provides. */
  method MissingScan(requirements: Index, allFeatures: seq<string>) returns (missing: seq<string>)
    ensures missing == MissingErrors(requirements, allFeatures)
  {
    missing := [];
    for i := 0 to |requirements|
      invariant missing == MissingErrors(requirements[..i], allFeatures)
    {
      MissingErrorsStep(requirements, allFeatures, i);
      if requirements[i].0 !in allFeatures {
        missing := missing + [MissingMessage(requirements[i].0, requirements[i].1)];
      }
    }
    assert requirements[..|requirements|] == requirements;
  }

  /** `verifyPlugins`: collect both records, then the two error loops. */
  method VerifyPlugins(heads: seq<Slot>) returns (r: Outcome)
    ensures r == Verified(heads)
  {
    var features := CollectTags(heads, Features);
    var requirements := CollectTags(heads, Requirements);
    var allFeatures := Keys(features);
    var errors := DuplicateScan(features);
    var missing := MissingScan(requirements, allFeatures);
    errors := errors + missing;
    if |errors| > 0 {
      return Fail(Join(errors, "\n"));
    }
    return Pass;
  }
}
