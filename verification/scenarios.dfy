/** The registry and client-configuration test cases of the portal, restated over the model. */
module Scenarios {
  import opened Json
  import opened Descriptors
  import opened ConfigMerge
  import opened PluginRegistry
  import opened ClientConfig

  function Obj2(k1: string, v1: int, k2: string, v2: int): Json
  {
    JObject(map[k1 := JInt(v1), k2 := JInt(v2)])
  }

  /** The default configuration `{m1: {a: 1, b: 2}, m2: {c: 1, d: 2}}` of plugin p1. */
  function DefaultConf(): Object
  {
    map["m1" := Obj2("a", 1, "b", 2), "m2" := Obj2("c", 1, "d", 2)]
  }

  /** Plugin p1 as read from its descriptor document. */
  function P1(): (d: Descriptor)
    ensures d == Descriptor("p1", [], true, DefaultConf())
  {
    Fill(Empty(), JObject(map[DefaultConfKey := JObject(DefaultConf())]), true, "p1").value
  }

  /** Plugin p1 declaring modules m1 and m2, read from a document with `installInRoot: false`. */
  function PseudoP1(): (d: Descriptor)
    ensures d == Descriptor("p1", ["m1", "m2"], false, DefaultConf())
  {
    var doc := map[InstallInRootKey := JBool(false), DefaultConfKey := JObject(DefaultConf())];
    Fill(Descriptor("", ["m1", "m2"], true, map[]), JObject(doc), true, "p1").value
  }

  /** A disabled plugin is not returned, whatever modules it carries; the enabled one is. */
  lemma DisabledPluginIsNotReturned()
    ensures var reg := Merge(Merge(map[], "p1", map[EnabledKey := JBool(false), "m1" := Obj2("a", 1, "b", 2), "m2" := Obj2("c", 1, "d", 2)]),
                             "p2", map[EnabledKey := JBool(true), "m3" := Obj2("a", 1, "b", 2)]);
            EnabledNames(reg) == {"p2"} && reg["p2"].configuration.Keys == {"m3"}
  {
    var doc1 := map[EnabledKey := JBool(false), "m1" := Obj2("a", 1, "b", 2), "m2" := Obj2("c", 1, "d", 2)];
    var doc2 := map[EnabledKey := JBool(true), "m3" := Obj2("a", 1, "b", 2)];
    MergeDecidesEnabled(map[], "p1", doc1);
    MergeDecidesEnabled(Merge(map[], "p1", doc1), "p2", doc2);
    assert doc2.Keys - Reserved == {"m3"};
  }

  /** A plugin merged without `_enabled` is returned. */
  lemma PluginsAreEnabledByDefault()
    ensures EnabledNames(Merge(map[], "p1", map["m1" := Obj2("a", 1, "b", 2), "m2" := Obj2("c", 1, "d", 2)])) == {"p1"}
  {
    var doc := map["m1" := Obj2("a", 1, "b", 2), "m2" := Obj2("c", 1, "d", 2)];
    MergeDecidesEnabled(map[], "p1", doc);
  }

  /** The override `{m1: {a: 10}}`, in merge mode, applied to the defaults of p1. */
  lemma MergeA10IntoDefaults(e: Envelope)
    requires !e.replace && e.modules == map["m1" := JObject(map["a" := JInt(10)])]
    ensures MergeConfiguration(DefaultConf(), e) == map["m1" := Obj2("a", 10, "b", 2), "m2" := Obj2("c", 1, "d", 2)]
  {
    var merged := MergeConfiguration(DefaultConf(), e);
    assert merged["m1"].fields == map["a" := JInt(10), "b" := JInt(2)];
  }

  /** Without `_override`, or with `_override: false`, `{m1: {a: 10}}` merges into
      the defaults, giving `{m1: {a: 10, b: 2}, m2: {c: 1, d: 2}}`. */
  lemma DefaultConfigurationIsMerged(overrideFlag: bool)
    ensures var doc := if overrideFlag then map[OverrideKey := JBool(false), EnabledKey := JBool(true), "m1" := JObject(map["a" := JInt(10)])]
                       else map[EnabledKey := JBool(true), "m1" := JObject(map["a" := JInt(10)])];
            var reg := Merge(Seed([P1()]), "p1", doc);
            EnabledNames(reg) == {"p1"}
            && reg["p1"].configuration == map["m1" := Obj2("a", 10, "b", 2), "m2" := Obj2("c", 1, "d", 2)]
  {
    var doc := if overrideFlag then map[OverrideKey := JBool(false), EnabledKey := JBool(true), "m1" := JObject(map["a" := JInt(10)])]
               else map[EnabledKey := JBool(true), "m1" := JObject(map["a" := JInt(10)])];
    var reg0 := Seed([P1()]);
    SeedKeepsDefaults([P1()], 0);
    assert reg0["p1"].configuration == DefaultConf();
    var e := ParseEnvelope(doc);
    assert e.modules.Keys == {"m1"};
    assert e.modules == map["m1" := JObject(map["a" := JInt(10)])];
    MergeA10IntoDefaults(e);
    MergeDecidesEnabled(reg0, "p1", doc);
  }

  /** With `_override: true`, `{m1: {a: 10}}` becomes the whole configuration. */
  lemma DefaultConfigurationIsOverridden()
    ensures var reg := Merge(Seed([P1()]), "p1", map[OverrideKey := JBool(true), EnabledKey := JBool(true), "m1" := JObject(map["a" := JInt(10)])]);
            EnabledNames(reg) == {"p1"} && reg["p1"].configuration == map["m1" := JObject(map["a" := JInt(10)])]
  {
    var doc := map[OverrideKey := JBool(true), EnabledKey := JBool(true), "m1" := JObject(map["a" := JInt(10)])];
    OverrideReplacesConfiguration(Seed([P1()]), "p1", doc);
    MergeDecidesEnabled(Seed([P1()]), "p1", doc);
    assert doc - Reserved == map["m1" := JObject(map["a" := JInt(10)])];
  }

  /** A pseudo-module plugin declaring m1 and m2 is still returned once enabled,
      configured for m1 and m2, but contributes neither module to the root module list. */
  lemma PseudoModulePluginIsReturned()
    ensures var reg := Merge(Seed([PseudoP1()]), "p1", map[OverrideKey := JBool(false), EnabledKey := JBool(true), "m1" := Obj2("a", 1, "b", 2), "m2" := Obj2("c", 1, "d", 2)]);
            && EnabledNames(reg) == {"p1"}
            && reg["p1"].modules == ["m1", "m2"]
            && reg["p1"].configuration.Keys == {"m1", "m2"}
            && RootModules([Describe("p1", reg["p1"])]) == []
  {
    var doc := map[OverrideKey := JBool(false), EnabledKey := JBool(true), "m1" := Obj2("a", 1, "b", 2), "m2" := Obj2("c", 1, "d", 2)];
    SeedKeepsDefaults([PseudoP1()], 0);
    MergeDecidesEnabled(Seed([PseudoP1()]), "p1", doc);
    assert ParseEnvelope(doc).modules.Keys == {"m1", "m2"};
    MergeKeepsModuleSet(DefaultConf(), ParseEnvelope(doc));
    var reg := Merge(Seed([PseudoP1()]), "p1", doc);
    RootModulesOfOne(Describe("p1", reg["p1"]));
  }

  /** A plugin known only from its descriptor stays enabled with its defaults while
      an unknown plugin is merged in beside it. */
  lemma UnmergedPluginKeepsDefaults()
    ensures var p2 := Descriptor("p2", [], true, map["m2" := JObject(map["b" := JInt(20)])]);
            var reg := Merge(Seed([p2]), "p1", map["m1" := JObject(map["a" := JInt(10)])]);
            && EnabledNames(reg) == {"p1", "p2"}
            && reg["p1"].configuration == map["m1" := JObject(map["a" := JInt(10)])]
            && reg["p2"].configuration == map["m2" := JObject(map["b" := JInt(20)])]
  {
    var p2 := Descriptor("p2", [], true, map["m2" := JObject(map["b" := JInt(20)])]);
    var doc := map["m1" := JObject(map["a" := JInt(10)])];
    SeedKeepsDefaults([p2], 0);
    MergeUnknownAddsPlugin(Seed([p2]), "p1", doc);
    MergeDecidesEnabled(Seed([p2]), "p1", doc);
    assert doc - Reserved == doc;
  }

  /** The two plugins of the client-configuration tests. */
  function Plugin1(): (d: Descriptor)
    ensures d == Descriptor("plugin1", ["module1"], true, map["module1" := JObject(map["prop1" := JInt(42), "prop2" := JBool(true)])])
  {
    var base := Descriptor("", ["module1"], true, map[]);
    var conf := map["module1" := JObject(map["prop1" := JInt(42), "prop2" := JBool(true)])];
    Fill(base, JObject(map[DefaultConfKey := JObject(conf)]), true, "plugin1").value
  }

  function Plugin2(): (d: Descriptor)
    ensures d == Descriptor("plugin2", ["module2", "module3"], true,
                            map["module2" := JObject(map["prop3" := JString("test")]),
                                "module3" := JArray([JInt(4), JInt(2), JInt(9)])])
  {
    var base := Descriptor("", ["module2", "module3"], true, map[]);
    var conf := map["module2" := JObject(map["prop3" := JString("test")]),
                    "module3" := JArray([JInt(4), JInt(2), JInt(9)])];
    Fill(base, JObject(map[DefaultConfKey := JObject(conf)]), true, "plugin2").value
  }

  /** One enabled plugin declaring `module1` gives `customization.modules == ["module1"]`. */
  lemma ModulesComeFromPlugins()
    ensures var c := Assemble([Plugin1()], map[], {})[CustomizationKey];
            c.JObject? && c.fields[ModulesKey] == JArray([JString("module1")])
  {
    assert RootModules([Plugin1()]) == ["module1"];
    assert StringArray(["module1"]).items == [JString("module1")];
  }

  /** Module configurations of several plugins reach the client unchanged: numbers,
      booleans, strings, and arrays in their order. */
  lemma ConfigurationReachesClient()
    ensures var cfg := Assemble([Plugin1(), Plugin2()], map[], {});
            && cfg["module1"] == JObject(map["prop1" := JInt(42), "prop2" := JBool(true)])
            && cfg["module2"] == JObject(map["prop3" := JString("test")])
            && cfg["module3"] == JArray([JInt(4), JInt(2), JInt(9)])
  {
    var ps := [Plugin1(), Plugin2()];
    assert ps[0].configuration.Keys == {"module1"};
    assert ps[1].configuration.Keys == {"module2", "module3"};
    assert Disjoint(ps) by {
      forall i, j, m | 0 <= i < j < |ps| && m in ps[i].configuration
        ensures m !in ps[j].configuration
      {
        assert i == 0 && j == 1 && m == "module1";
      }
    }
    ModuleConfigurationsKeepValues(ps, 0, "module1");
    ModuleConfigurationsKeepValues(ps, 1, "module2");
    ModuleConfigurationsKeepValues(ps, 1, "module3");
  }

  /** Only the exposed portal properties reach the client, and the module list is always there. */
  lemma OnlyExposedPropertiesReachClient(exposed: set<string>)
    requires "map.initialZoomLevel" in exposed && "moreproperties" !in exposed
    ensures var props := map["languages" := "{\"es\": \"Español\"}", "languages.default" := "es",
                             "client.modules" := "", "map.initialZoomLevel" := "5",
                             "moreproperties" := "should not appear"];
            var c := Assemble([], props, exposed)[CustomizationKey].fields;
            && c["map.initialZoomLevel"] == JString("5")
            && "moreproperties" !in c
            && ModulesKey in c
  {
  }
}
