/** Merging one override document into one plugin's configuration. */
module ConfigMerge {
  import opened Json

  const EnabledKey := "_enabled"
  const OverrideKey := "_override"

  /** The reserved members of an override document; every other member is a module id. */
  const Reserved: set<string> := {EnabledKey, OverrideKey}

  /** An override document with its reserved members read out: whether the plugin
      is enabled, whether its configuration is replaced (rather than merged), and
      the remaining module entries. */
  datatype Envelope = Envelope(enabled: bool, replace: bool, modules: Object)

  /** Reads `_enabled` (default true) and `_override` (default false) and strips them. */
  function ParseEnvelope(doc: Object): (e: Envelope)
    ensures e.modules.Keys == doc.Keys - Reserved
    ensures forall m :: m in e.modules ==> e.modules[m] == doc[m]
    ensures !e.enabled <==> EnabledKey in doc && doc[EnabledKey] == JBool(false)
    ensures e.replace <==> OverrideKey in doc && doc[OverrideKey] == JBool(true)
  {
    Envelope(OptBool(doc, EnabledKey, true), OptBool(doc, OverrideKey, false), doc - Reserved)
  }

  /** Merges an override fragment into the current configuration of one module:
      two objects are merged member-wise, one level deep, the fragment's members
      winning; in every other case the fragment replaces the current value. */
  function MergeModule(current: Json, fragment: Json): (r: Json)
    ensures current.JObject? && fragment.JObject? ==>
              && r.JObject?
              && r.fields.Keys == current.fields.Keys + fragment.fields.Keys
              && (forall p :: p in fragment.fields ==> r.fields[p] == fragment.fields[p])
              && (forall p :: p in current.fields && p !in fragment.fields ==> r.fields[p] == current.fields[p])
    ensures !(current.JObject? && fragment.JObject?) ==> r == fragment
  {
    if current.JObject? && fragment.JObject? then JObject(current.fields + fragment.fields)
    else fragment
  }

  /** The plugin configuration after merging `e` into `conf`. With `_override` the
      override's modules become the whole configuration; otherwise each mentioned
      module is merged into (or added to) the configuration and the others survive. */
  function MergeConfiguration(conf: Object, e: Envelope): (r: Object)
    ensures e.replace ==> r == e.modules
    ensures !e.replace ==> r.Keys == conf.Keys + e.modules.Keys
    ensures !e.replace ==> forall m :: m in conf && m !in e.modules ==> r[m] == conf[m]
    ensures !e.replace ==> forall m :: m in e.modules && m !in conf ==> r[m] == e.modules[m]
    ensures !e.replace ==> forall m :: m in e.modules && m in conf ==> r[m] == MergeModule(conf[m], e.modules[m])
  {
    if e.replace then e.modules
    else
      map m | m in conf.Keys + e.modules.Keys ::
        if m !in e.modules then conf[m]
        else if m in conf then MergeModule(conf[m], e.modules[m])
        else e.modules[m]
  }

  /** No reserved member appears among the module ids of `conf`. */
  predicate ReservedFree(conf: Object)
  {
    forall k :: k in conf ==> k !in Reserved
  }

  /** Merging never introduces a reserved key; with `_override` the result is free of
      them whatever the configuration held before. */
  lemma MergeKeepsReservedOut(conf: Object, doc: Object)
    ensures ParseEnvelope(doc).replace ==> ReservedFree(MergeConfiguration(conf, ParseEnvelope(doc)))
    ensures ReservedFree(conf) ==> ReservedFree(MergeConfiguration(conf, ParseEnvelope(doc)))
  {
  }

  /** An absent `_override` and `_override: false` select the same merge. */
  lemma OverrideAbsentIsFalse(conf: Object, doc: Object)
    ensures MergeConfiguration(conf, ParseEnvelope(doc - {OverrideKey}))
         == MergeConfiguration(conf, ParseEnvelope(doc[OverrideKey := JBool(false)]))
  {
    var e1 := ParseEnvelope(doc - {OverrideKey});
    var e2 := ParseEnvelope(doc[OverrideKey := JBool(false)]);
    assert e1.modules == e2.modules;
  }

  /** Merging into an empty configuration yields exactly the override's modules, in either mode. */
  lemma MergeIntoNothing(e: Envelope)
    ensures MergeConfiguration(map[], e) == e.modules
  {
  }

  /** An empty object fragment leaves an object module as it was. */
  lemma EmptyFragmentChangesNothing(c: Object)
    ensures MergeModule(JObject(c), JObject(map[])) == JObject(c)
  {
    assert c + map[] == c;
  }

  /** An empty override document leaves the configuration as it was. */
  lemma EmptyOverrideChangesNothing(conf: Object)
    ensures MergeConfiguration(conf, ParseEnvelope(map[])) == conf
  {
    var e := ParseEnvelope(map[]);
    assert e.modules == map[];
    assert MergeConfiguration(conf, e).Keys == conf.Keys;
  }

  /** When every module the override mentions already exists, a merge keeps the set of modules. */
  lemma MergeKeepsModuleSet(conf: Object, e: Envelope)
    requires !e.replace
    requires e.modules.Keys <= conf.Keys
    ensures MergeConfiguration(conf, e).Keys == conf.Keys
  {
  }
}
