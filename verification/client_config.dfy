/** Assembly of the configuration payload sent to the client from the enabled plugins. */
module ClientConfig {
  import opened Json
  import opened Descriptors
  import opened PluginRegistry

  const CustomizationKey := "customization"
  const ModulesKey := "modules"

  /** The module configurations of all plugins, written one plugin after another
      into one object; on a shared module id the later plugin wins. */
  function ModuleConfigurations(ps: seq<Descriptor>): (r: Object)
    ensures forall m :: m in r <==> exists i :: 0 <= i < |ps| && m in ps[i].configuration
    ensures forall m :: m in r ==> exists i :: 0 <= i < |ps| && m in ps[i].configuration && r[m] == ps[i].configuration[m]
  {
    if ps == [] then map[]
    else
      var init := ps[..|ps| - 1];
      var last := ps[|ps| - 1].configuration;
      var prev := ModuleConfigurations(init);
      var r := prev + last;
      assert forall m :: m in r ==> exists i :: 0 <= i < |ps| && m in ps[i].configuration && r[m] == ps[i].configuration[m] by {
        forall m | m in r
          ensures exists i :: 0 <= i < |ps| && m in ps[i].configuration && r[m] == ps[i].configuration[m]
        {
          if m in last {
            assert m in ps[|ps| - 1].configuration && r[m] == ps[|ps| - 1].configuration[m];
          } else {
            var i :| 0 <= i < |init| && m in init[i].configuration && prev[m] == init[i].configuration[m];
            assert init[i] == ps[i];
          }
        }
      }
      assert forall m :: (exists i :: 0 <= i < |ps| && m in ps[i].configuration) ==> m in r by {
        forall m, i | 0 <= i < |ps| && m in ps[i].configuration ensures m in r {
          if i < |init| {
            assert init[i] == ps[i];
          }
        }
      }
      r
  }

  /** No module id is configured by two different plugins. */
  predicate Disjoint(ps: seq<Descriptor>)
  {
    forall i, j, m :: 0 <= i < j < |ps| && m in ps[i].configuration ==> m !in ps[j].configuration
  }

  /** With disjoint module ids, each plugin's module configuration reaches the
      client object unchanged, scalars and arrays included. */
  lemma {:induction false} ModuleConfigurationsKeepValues(ps: seq<Descriptor>, i: int, m: string)
    requires Disjoint(ps)
    requires 0 <= i < |ps| && m in ps[i].configuration
    ensures m in ModuleConfigurations(ps) && ModuleConfigurations(ps)[m] == ps[i].configuration[m]
  {
    var init := ps[..|ps| - 1];
    if i < |init| {
      assert Disjoint(init) by {
        forall a, b, k | 0 <= a < b < |init| && k in init[a].configuration
          ensures k !in init[b].configuration
        {
          assert init[a] == ps[a] && init[b] == ps[b];
        }
      }
      assert init[i] == ps[i];
      ModuleConfigurationsKeepValues(init, i, m);
      assert m !in ps[|ps| - 1].configuration;
    }
  }

  /** The modules installed in the client root: those of every plugin that is not a
      pseudo-module plugin, plugin after plugin. */
  function RootModules(ps: seq<Descriptor>): (r: seq<string>)
    ensures forall x :: x in r <==> exists i :: 0 <= i < |ps| && ps[i].installInRoot && x in ps[i].modules
  {
    if ps == [] then []
    else
      var init := ps[..|ps| - 1];
      var last := ps[|ps| - 1];
      assert forall i :: 0 <= i < |init| ==> init[i] == ps[i];
      RootModules(init) + (if last.installInRoot then last.modules else [])
  }

  /** The root modules of consecutive plugin lists are listed one after the other. */
  lemma {:induction false} RootModulesAppend(a: seq<Descriptor>, b: seq<Descriptor>)
    ensures RootModules(a + b) == RootModules(a) + RootModules(b)
    decreases |b|
  {
    if b == [] {
      assert a + b == a;
    } else {
      var initB := b[..|b| - 1];
      var last := b[|b| - 1];
      assert (a + b)[..|a + b| - 1] == a + initB;
      assert (a + b)[|a + b| - 1] == last;
      RootModulesAppend(a, initB);
      assert b[..|b| - 1] == initB;
    }
  }

  /** One plugin lists exactly its declared modules, in order, unless it is a
      pseudo-module plugin, which lists none. */
  lemma RootModulesOfOne(d: Descriptor)
    ensures RootModules([d]) == if d.installInRoot then d.modules else []
  {
    assert [d][..0] == [];
  }

  /** The `customization` object: the portal properties that are exposed to the
      client, as strings, and the list of root modules under `modules`. */
  function Customization(props: map<string, string>, exposed: set<string>, modules: seq<string>): (r: Object)
    ensures ModulesKey in r && r[ModulesKey] == StringArray(modules)
    ensures forall p :: p != ModulesKey ==> (p in r <==> p in props && p in exposed)
    ensures forall p :: p != ModulesKey && p in r ==> r[p] == JString(props[p])
  {
    (map p | p in props && p in exposed :: JString(props[p]))[ModulesKey := StringArray(modules)]
  }

  /** Properties that are not exposed have no influence on the `customization` object. */
  lemma CustomizationIgnoresUnexposed(props: map<string, string>, exposed: set<string>, modules: seq<string>)
    ensures Customization(props, exposed, modules)
         == Customization(map p | p in props && p in exposed :: props[p], exposed, modules)
  {
  }

  /** The client `config` object: every module configuration of the given plugins,
      plus the `customization` object. */
  function Assemble(ps: seq<Descriptor>, props: map<string, string>, exposed: set<string>): (r: Object)
    ensures CustomizationKey in r && r[CustomizationKey] == JObject(Customization(props, exposed, RootModules(ps)))
    ensures forall m :: m != CustomizationKey ==> (m in r <==> m in ModuleConfigurations(ps))
    ensures forall m :: m != CustomizationKey && m in r ==> r[m] == ModuleConfigurations(ps)[m]
  {
    ModuleConfigurations(ps)[CustomizationKey := JObject(Customization(props, exposed, RootModules(ps)))]
  }

  /** With no plugins at all the client still receives an (empty) module list. */
  lemma NoPluginsStillListsModules(props: map<string, string>, exposed: set<string>)
    ensures var c := Assemble([], props, exposed)[CustomizationKey];
            c.JObject? && ModulesKey in c.fields && c.fields[ModulesKey] == JArray([])
  {
    assert StringArray([]).items == [];
  }

  /** No two enabled plugins of the registry configure the same module id. */
  predicate EnabledDisjoint(reg: Registry)
  {
    forall a, b, m :: a in reg && b in reg && a != b && reg[a].enabled && reg[b].enabled && m in reg[a].configuration
      ==> m !in reg[b].configuration
  }

  /** A module is listed for the client iff an enabled, root-installed plugin declares it. */
  lemma ListedModulesOfRegistry(reg: Registry, ps: seq<Descriptor>, x: string)
    requires ListsEnabled(reg, ps)
    ensures JString(x) in StringArray(RootModules(ps)).items <==>
              exists n :: n in reg && reg[n].enabled && reg[n].installInRoot && x in reg[n].modules
  {
    var modules := RootModules(ps);
    if JString(x) in StringArray(modules).items {
      var k :| 0 <= k < |StringArray(modules).items| && StringArray(modules).items[k] == JString(x);
      assert modules[k] == x;
      assert x in modules;
      var i :| 0 <= i < |ps| && ps[i].installInRoot && x in ps[i].modules;
      assert ps[i] == Describe(ps[i].name, reg[ps[i].name]);
    }
    if exists n :: n in reg && reg[n].enabled && reg[n].installInRoot && x in reg[n].modules {
      var n :| n in reg && reg[n].enabled && reg[n].installInRoot && x in reg[n].modules;
      var i :| 0 <= i < |ps| && ps[i].name == n;
      assert ps[i] == Describe(n, reg[n]);
      assert x in modules;
      var k :| 0 <= k < |modules| && modules[k] == x;
      assert StringArray(modules).items[k] == JString(x);
    }
  }

  /** The module ids of the enabled plugins' configurations are exactly those some
      enabled plugin configures. */
  lemma ConfiguredModulesOfRegistry(reg: Registry, ps: seq<Descriptor>, m: string)
    requires ListsEnabled(reg, ps)
    ensures m in ModuleConfigurations(ps) <==> exists n :: n in reg && reg[n].enabled && m in reg[n].configuration
  {
    if m in ModuleConfigurations(ps) {
      var i :| 0 <= i < |ps| && m in ps[i].configuration;
      assert ps[i] == Describe(ps[i].name, reg[ps[i].name]);
    }
    if exists n :: n in reg && reg[n].enabled && m in reg[n].configuration {
      var n :| n in reg && reg[n].enabled && m in reg[n].configuration;
      var i :| 0 <= i < |ps| && ps[i].name == n;
      assert ps[i] == Describe(n, reg[n]);
    }
  }

  /** With disjoint module ids, every enabled plugin's module configuration reaches the client. */
  lemma ConfigurationsOfRegistry(reg: Registry, ps: seq<Descriptor>, n: string, m: string)
    requires ListsEnabled(reg, ps) && EnabledDisjoint(reg)
    requires n in reg && reg[n].enabled && m in reg[n].configuration
    ensures m in ModuleConfigurations(ps) && ModuleConfigurations(ps)[m] == reg[n].configuration[m]
  {
    assert Disjoint(ps) by {
      forall a, b, k | 0 <= a < b < |ps| && k in ps[a].configuration
        ensures k !in ps[b].configuration
      {
        assert ps[a] == Describe(ps[a].name, reg[ps[a].name]);
        assert ps[b] == Describe(ps[b].name, reg[ps[b].name]);
      }
    }
    var i :| 0 <= i < |ps| && ps[i].name == n;
    assert ps[i] == Describe(n, reg[n]);
    ModuleConfigurationsKeepValues(ps, i, m);
  }

  /** The whole client configuration step: the enabled plugins are read from the
      registry and assembled. Every module id of an enabled plugin reaches the
      client with its configuration; nothing else does; `customization.modules`
      lists exactly the modules of the enabled, root-installed plugins, plugin by
      plugin in the order the enabled plugins are returned in `plugins`. */
  method ClientConfiguration(reg: Registry, props: map<string, string>, exposed: set<string>)
    returns (plugins: seq<Descriptor>, cfg: Object)
    ensures ListsEnabled(reg, plugins)
    ensures CustomizationKey in cfg && cfg[CustomizationKey].JObject?
    ensures ModulesKey in cfg[CustomizationKey].fields
    ensures cfg[CustomizationKey].fields[ModulesKey] == StringArray(RootModules(plugins))
    ensures var c := cfg[CustomizationKey].fields;
            forall p :: p != ModulesKey ==> (p in c <==> p in props && p in exposed)
    ensures var c := cfg[CustomizationKey].fields;
            ModulesKey in c && c[ModulesKey].JArray?
            && forall x :: JString(x) in c[ModulesKey].items <==>
                 exists n :: n in reg && reg[n].enabled && reg[n].installInRoot && x in reg[n].modules
    ensures forall m :: m != CustomizationKey ==>
              (m in cfg <==> exists n :: n in reg && reg[n].enabled && m in reg[n].configuration)
    ensures EnabledDisjoint(reg) ==>
              forall n, m :: n in reg && reg[n].enabled && m in reg[n].configuration && m != CustomizationKey
                ==> m in cfg && cfg[m] == reg[n].configuration[m]
  {
    plugins := GetEnabled(reg);
    cfg := Assemble(plugins, props, exposed);
    forall x
      ensures JString(x) in StringArray(RootModules(plugins)).items <==>
                exists n :: n in reg && reg[n].enabled && reg[n].installInRoot && x in reg[n].modules
    {
      ListedModulesOfRegistry(reg, plugins, x);
    }
    forall m | m != CustomizationKey
      ensures m in cfg <==> exists n :: n in reg && reg[n].enabled && m in reg[n].configuration
    {
      ConfiguredModulesOfRegistry(reg, plugins, m);
    }
    if EnabledDisjoint(reg) {
      forall n, m | n in reg && reg[n].enabled && m in reg[n].configuration && m != CustomizationKey
        ensures m in cfg && cfg[m] == reg[n].configuration[m]
      {
        ConfigurationsOfRegistry(reg, plugins, n, m);
      }
    }
  }
}
