/** The registry of plugins: seeded from the discovered descriptors, updated by
    override documents, and read back as the list of enabled plugins. */
module PluginRegistry {
  import opened Json
  import opened Descriptors
  import opened ConfigMerge

  /** The registry's state for one plugin; the plugin's name is its key in the registry. */
  datatype Entry = Entry(enabled: bool, modules: seq<string>, installInRoot: bool, configuration: Object)

  type Registry = map<string, Entry>

  /** The entry a descriptor seeds: enabled, with the descriptor's default configuration. */
  function Seeded(d: Descriptor): Entry
  {
    Entry(true, d.modules, d.installInRoot, d.configuration)
  }

  /** The descriptor the registry hands out for the plugin `name`. */
  function Describe(name: string, e: Entry): Descriptor
  {
    Descriptor(name, e.modules, e.installInRoot, e.configuration)
  }

  /** The names of the descriptors in `ds`. */
  function Names(ds: seq<Descriptor>): set<string>
  {
    set i | 0 <= i < |ds| :: ds[i].name
  }

  /** The registry built from the discovered descriptors: one entry per plugin name,
      each enabled. Should two descriptors share a name, the later one is kept. */
  function Seed(ds: seq<Descriptor>): (r: Registry)
    ensures r.Keys == Names(ds)
    ensures forall n :: n in r ==> r[n].enabled
  {
    if ds == [] then map[]
    else
      var init := ds[..|ds| - 1];
      var last := ds[|ds| - 1];
      assert Names(ds) == Names(init) + {last.name} by {
        assert forall i :: 0 <= i < |init| ==> init[i] == ds[i];
      }
      Seed(init)[last.name := Seeded(last)]
  }

  /** No descriptor after position `i` has the name of `ds[i]`. */
  predicate LastWithName(ds: seq<Descriptor>, i: int)
    requires 0 <= i < |ds|
  {
    forall j :: i < j < |ds| ==> ds[j].name != ds[i].name
  }

  /** A seeded plugin carries exactly its descriptor's modules, root-installation
      flag and default configuration. */
  lemma {:induction false} SeedKeepsDefaults(ds: seq<Descriptor>, i: int)
    requires 0 <= i < |ds| && LastWithName(ds, i)
    ensures ds[i].name in Seed(ds) && Seed(ds)[ds[i].name] == Seeded(ds[i])
  {
    var init := ds[..|ds| - 1];
    if i < |init| {
      assert LastWithName(init, i) by {
        forall j | i < j < |init| ensures init[j].name != init[i].name {
          assert init[j] == ds[j];
        }
      }
      SeedKeepsDefaults(init, i);
      assert ds[i].name != ds[|ds| - 1].name;
    }
  }

  /** Merges the override document `doc` into the plugin `name`: its enabled flag
      becomes the document's `_enabled`, and its configuration is merged with (or
      replaced by) the document's modules. A name with no entry gets a new entry
      whose configuration is exactly the document's modules. Every other plugin is
      left untouched. */
  function Merge(reg: Registry, name: string, doc: Object): (r: Registry)
    ensures r.Keys == reg.Keys + {name}
    ensures forall n :: n in reg && n != name ==> r[n] == reg[n]
    ensures r[name].enabled == ParseEnvelope(doc).enabled
    ensures name in reg ==> r[name].modules == reg[name].modules
    ensures name in reg ==> r[name].installInRoot == reg[name].installInRoot
    ensures name in reg ==> r[name].configuration == MergeConfiguration(reg[name].configuration, ParseEnvelope(doc))
    ensures name !in reg ==> r[name] == Entry(ParseEnvelope(doc).enabled, [], true, doc - Reserved)
  {
    var e := ParseEnvelope(doc);
    var current := if name in reg then reg[name] else Entry(true, [], true, map[]);
    MergeIntoNothing(e);
    reg[name := Entry(e.enabled, current.modules, current.installInRoot, MergeConfiguration(current.configuration, e))]
  }

  /** The names of the plugins currently enabled. */
  function EnabledNames(reg: Registry): (s: set<string>)
    ensures forall n :: n in s <==> n in reg && reg[n].enabled
  {
    set n | n in reg && reg[n].enabled
  }

  /** `ps` lists the enabled plugins of `reg`, each once, with its current state. */
  predicate ListsEnabled(reg: Registry, ps: seq<Descriptor>)
  {
    && (forall i, j :: 0 <= i < j < |ps| ==> ps[i].name != ps[j].name)
    && (forall i :: 0 <= i < |ps| ==> ps[i].name in reg && reg[ps[i].name].enabled && ps[i] == Describe(ps[i].name, reg[ps[i].name]))
    && (forall n :: n in reg && reg[n].enabled ==> exists i :: 0 <= i < |ps| && ps[i].name == n)
  }

  /** The enabled plugins, one descriptor each, in no particular order. */
  method GetEnabled(reg: Registry) returns (ps: seq<Descriptor>)
    ensures ListsEnabled(reg, ps)
    ensures |ps| == |EnabledNames(reg)|
  {
    ps := [];
    var remaining := reg.Keys;
    ghost var listed: set<string> := {};
    while remaining != {}
      invariant remaining <= reg.Keys
      invariant listed <= reg.Keys
      invariant forall m :: m in listed <==> m in reg && reg[m].enabled && m !in remaining
      invariant forall i, j :: 0 <= i < j < |ps| ==> ps[i].name != ps[j].name
      invariant forall i :: 0 <= i < |ps| ==> ps[i].name in listed
      invariant forall i :: 0 <= i < |ps| ==> ps[i] == Describe(ps[i].name, reg[ps[i].name])
      invariant forall n :: n in listed ==> exists i :: 0 <= i < |ps| && ps[i].name == n
      invariant |ps| == |listed|
      decreases remaining
    {
      var n :| n in remaining;
      if reg[n].enabled {
        assert n !in listed;
        ghost var before := ps;
        ps := ps + [Describe(n, reg[n])];
        assert |listed + {n}| == |listed| + 1;
        listed := listed + {n};
        forall m | m in listed
          ensures exists i :: 0 <= i < |ps| && ps[i].name == m
        {
          if m == n {
            assert ps[|ps| - 1].name == m;
          } else {
            var i :| 0 <= i < |before| && before[i].name == m;
            assert ps[i] == before[i];
          }
        }
      }
      remaining := remaining - {n};
    }
    assert listed == EnabledNames(reg);
  }

  /** Whether merging `doc` leaves the plugin enabled decides exactly its presence
      among the enabled plugins; no other plugin's presence changes. */
  lemma MergeDecidesEnabled(reg: Registry, name: string, doc: Object)
    ensures ParseEnvelope(doc).enabled ==> EnabledNames(Merge(reg, name, doc)) == EnabledNames(reg) + {name}
    ensures !ParseEnvelope(doc).enabled ==> EnabledNames(Merge(reg, name, doc)) == EnabledNames(reg) - {name}
  {
  }

  /** A document without `_enabled` leaves the plugin enabled. */
  lemma EnabledByDefault(reg: Registry, name: string, doc: Object)
    requires EnabledKey !in doc
    ensures name in EnabledNames(Merge(reg, name, doc))
  {
  }

  /** With `_override: true` the plugin's configuration becomes exactly the document's modules. */
  lemma OverrideReplacesConfiguration(reg: Registry, name: string, doc: Object)
    requires OverrideKey in doc && doc[OverrideKey] == JBool(true)
    ensures Merge(reg, name, doc)[name].configuration == doc - Reserved
  {
  }

  /** Merging under a name the registry does not know adds that plugin, configured
      with exactly the document's modules, whatever `_override` says. */
  lemma MergeUnknownAddsPlugin(reg: Registry, name: string, doc: Object)
    requires name !in reg
    ensures name in Merge(reg, name, doc)
    ensures Merge(reg, name, doc)[name].configuration == doc - Reserved
  {
  }

  /** Configurations free of reserved keys stay so under any merge. */
  predicate WellFormed(reg: Registry)
  {
    forall n :: n in reg ==> ReservedFree(reg[n].configuration)
  }

  /** A registry seeded from descriptors whose default configurations hold no
      reserved key is well formed. */
  lemma {:induction false} SeedWellFormed(ds: seq<Descriptor>)
    requires forall i :: 0 <= i < |ds| ==> ReservedFree(ds[i].configuration)
    ensures WellFormed(Seed(ds))
  {
    if ds != [] {
      var init := ds[..|ds| - 1];
      assert forall i :: 0 <= i < |init| ==> init[i] == ds[i];
      SeedWellFormed(init);
      assert ReservedFree(ds[|ds| - 1].configuration);
    }
  }

  /** Reading a descriptor document and seeding the registry with the result gives
      the plugin exactly the document's `default-conf`, enabled. */
  lemma ReadThenSeed(d: Descriptor, doc: Json, installInRoot: bool, name: string)
    requires Fill(d, doc, installInRoot, name).Success?
    requires DefaultConfKey in doc.fields
    ensures var reg := Seed([Fill(d, doc, installInRoot, name).value]);
            name in reg && reg[name].enabled && reg[name].configuration == doc.fields[DefaultConfKey].fields
  {
    SeedKeepsDefaults([Fill(d, doc, installInRoot, name).value], 0);
  }

  lemma MergePreservesWellFormed(reg: Registry, name: string, doc: Object)
    requires WellFormed(reg)
    ensures WellFormed(Merge(reg, name, doc))
  {
    MergeKeepsReservedOut(if name in reg then reg[name].configuration else map[], doc);
  }
}
