# Plugin configuration merge engine — a Dafny model

This project models the core of a portal framework that builds its client
application out of plugins. Each plugin descriptor carries a name, the client
modules it declares, an `installInRoot` flag (false marks its modules as
pseudo-modules) and a default configuration, module id → JSON value.

The model covers three steps:

- **Descriptor reading** (`Descriptors`): a plugin's descriptor document fills
  in its `default-conf` configuration and its `installInRoot` flag.
- **The registry** (`ConfigMerge`, `PluginRegistry`):
  - It is seeded with every discovered descriptor, enabled.
  - Override documents are merged into it one plugin at a time.
  - The reserved members `_enabled` (default true) and `_override` (default
    false) are read and then stripped.
  - With `_override` the document's modules replace the plugin's whole
    configuration. Otherwise each mentioned module is merged one level deep
    into the current one, and unmentioned modules survive.
  - A merge under an unknown name adds a new plugin.
  - `GetEnabled` returns the enabled plugins.
- **Client assembly** (`ClientConfig`): the client `config` object holds every
  module configuration of the enabled plugins, plus a `customization` object.
  `customization` holds the exposed portal properties and the `modules` list
  of root-installed modules.

Everything is a pure function over an immutable `map<string, Entry>`. `GetEnabled`
and `ClientConfiguration` are methods, because the enabled plugins come out in
no fixed order.

The behaviour modelled is the one the tests of the registry and of the
configuration servlet pin down:

- A merge under an unregistered plugin name creates the plugin
  (`PluginDescriptorsTest.java:19-34`, `:128-147`).
- `_override: true` replaces the plugin's whole configuration, so modules the
  document does not mention disappear (`PluginDescriptorsTest.java:79-95`).

Modelling choices where the tests are silent:

- `_enabled`, `_override` and `installInRoot` are honoured only when they hold a
  JSON boolean. Any other value falls back to the default.
- A plugin created by a merge declares no modules and is installed in the root.
- A descriptor document that is not an object is an error. So is a `default-conf`
  that is not an object. A document without `default-conf` keeps the descriptor's
  existing configuration.
- The `installInRoot` member of the document takes precedence over the reader's
  constructor argument.
- Two descriptors with the same name seed one entry, and the later descriptor is kept.
- When the current module value or the override fragment is not a JSON object,
  the fragment replaces the value. Only object-into-object merges keep members.
- JSON numbers are integers only. The engine never inspects values, it only
  copies them, so this does not affect the merge.
- Module configurations are written into the client object plugin after plugin,
  so on a shared module id the later plugin wins. `customization` is written last.

## Model

| member | source | states |
|---|---|---|
| Descriptors.Fill | core/src/test/java/org/fao/unredd/portal/PluginDescriptorsTest.java:97-111 | reading a descriptor document: its `default-conf` object becomes the configuration; a boolean `installInRoot` sets the flag, and an absent or non-boolean one leaves the reader's argument; the name is set and declared modules are kept; a non-object document or `default-conf` is an error |
| ConfigMerge.ParseEnvelope | core/src/test/java/org/fao/unredd/portal/PluginDescriptorsTest.java:36-57 | the module entries are exactly the document minus `_enabled`/`_override`; the plugin is disabled iff `_enabled` is `false`, replaced iff `_override` is `true` |
| ConfigMerge.MergeModule | core/src/test/java/org/fao/unredd/portal/PluginDescriptorsTest.java:59-77 | merging into an object module: the keys are the union, the override's keys win, the others keep their old values; a non-object fragment replaces the module |
| ConfigMerge.MergeConfiguration | core/src/test/java/org/fao/unredd/portal/PluginDescriptorsTest.java:59-95 | with `_override` the configuration is exactly the override's modules; otherwise its modules are the union, unmentioned modules survive, new modules are added verbatim, mentioned ones are merged |
| ConfigMerge.MergeKeepsReservedOut | core/src/test/java/org/fao/unredd/portal/PluginDescriptorsTest.java:28-33 | `_enabled`/`_override` never appear among the resulting module ids (always under `_override`, and whenever they were absent before) |
| ConfigMerge.OverrideAbsentIsFalse | core/src/test/java/org/fao/unredd/portal/PluginDescriptorsTest.java:48-57 | a document without `_override` and the same document with `_override: false` give the same configuration |
| ConfigMerge.MergeIntoNothing | core/src/test/java/org/fao/unredd/portal/PluginDescriptorsTest.java:20-26 | merging into an empty configuration yields exactly the override's modules in either mode |
| ConfigMerge.MergeKeepsModuleSet | core/src/test/java/org/fao/unredd/portal/PluginDescriptorsTest.java:114-125 | a merge that only mentions existing modules keeps the set of modules unchanged |
| ConfigMerge.EmptyFragmentChangesNothing | core/src/test/java/org/fao/unredd/portal/PluginDescriptorsTest.java:72-76 | merging an empty object fragment into an object module leaves it as it was |
| ConfigMerge.EmptyOverrideChangesNothing | core/src/test/java/org/fao/unredd/portal/PluginDescriptorsTest.java:59-77 | merging an empty override document leaves the plugin configuration as it was |
| PluginRegistry.Seed | core/src/test/java/org/fao/unredd/portal/PluginDescriptorsTest.java:128-132 | the registry built from descriptors has exactly one entry per descriptor name, each enabled |
| PluginRegistry.SeedKeepsDefaults | core/src/test/java/org/fao/unredd/portal/PluginDescriptorsTest.java:128-147 | a seeded plugin carries exactly its descriptor's modules, root flag and default configuration |
| PluginRegistry.Merge | core/src/test/java/org/fao/unredd/portal/PluginDescriptorsTest.java:20-26 | a merge touches only the named plugin: its flag becomes `_enabled`, its configuration is merged; an unknown name gets a new entry configured with the document's modules; every other plugin is unchanged |
| PluginRegistry.GetEnabled | core/src/test/java/org/fao/unredd/portal/PluginDescriptorsTest.java:137-140 | returns each enabled plugin exactly once with its current state, nothing else, and as many descriptors as there are enabled plugins |
| PluginRegistry.MergeDecidesEnabled | core/src/test/java/org/fao/unredd/portal/PluginDescriptorsTest.java:19-34 | after a merge the enabled set gains the plugin iff `_enabled` is not `false`, loses it otherwise, and is otherwise unchanged |
| PluginRegistry.EnabledByDefault | core/src/test/java/org/fao/unredd/portal/PluginDescriptorsTest.java:36-46 | a document without `_enabled` leaves the plugin enabled |
| PluginRegistry.OverrideReplacesConfiguration | core/src/test/java/org/fao/unredd/portal/PluginDescriptorsTest.java:79-95 | with `_override: true` the plugin's configuration is exactly the document minus the reserved members |
| PluginRegistry.MergeUnknownAddsPlugin | core/src/test/java/org/fao/unredd/portal/PluginDescriptorsTest.java:134-143 | merging under an unregistered name adds that plugin, configured with exactly the document's modules |
| PluginRegistry.MergePreservesWellFormed | core/src/test/java/org/fao/unredd/portal/PluginDescriptorsTest.java:89-93 | a registry whose configurations hold no reserved key keeps that property across any merge |
| PluginRegistry.SeedWellFormed | core/src/test/java/org/fao/unredd/portal/PluginDescriptorsTest.java:28-33 | a registry seeded from descriptors whose default configurations hold no reserved key holds none either |
| PluginRegistry.ReadThenSeed | core/src/test/java/org/fao/unredd/portal/PluginDescriptorsTest.java:97-105 | reading a descriptor document and seeding the registry with it gives the plugin, enabled, exactly the document's `default-conf` |
| ClientConfig.ModuleConfigurations | core/src/test/java/org/fao/unredd/portal/ConfigServletTest.java:162-196 | the client object's module ids are exactly those configured by some plugin, and each value is that of a plugin configuring it |
| ClientConfig.ModuleConfigurationsKeepValues | core/src/test/java/org/fao/unredd/portal/ConfigServletTest.java:193-203 | with disjoint module ids, every plugin's module configuration reaches the client object unchanged |
| ClientConfig.RootModules | core/src/test/java/org/fao/unredd/portal/ConfigServletTest.java:133-158 | a module is listed iff some root-installed plugin declares it |
| ClientConfig.RootModulesAppend | core/src/test/java/org/fao/unredd/portal/ConfigServletTest.java:162-170 | the root modules of two consecutive plugin lists are those of the first followed by those of the second |
| ClientConfig.RootModulesOfOne | core/src/test/java/org/fao/unredd/portal/ConfigServletTest.java:133-158 | one plugin lists exactly its declared modules, in order and each as often as declared, unless it is a pseudo-module plugin, which lists none |
| ClientConfig.Customization | core/src/test/java/org/fao/unredd/portal/ConfigServletTest.java:70-114 | `modules` is always present and lists the given modules in order; any other property is present iff it is set and exposed, with its value as a string |
| ClientConfig.CustomizationIgnoresUnexposed | core/src/test/java/org/fao/unredd/portal/ConfigServletTest.java:70-114 | properties that are not exposed have no influence on the `customization` object |
| ClientConfig.Assemble | core/src/test/java/org/fao/unredd/portal/ConfigServletTest.java:150-158 | the `config` object is the module configurations plus `customization`, which lists the root modules of the given plugins |
| ClientConfig.NoPluginsStillListsModules | core/src/test/java/org/fao/unredd/portal/ConfigServletTest.java:88-113 | with no plugins the customization still has a (empty) `modules` list |
| ClientConfig.ListedModulesOfRegistry | core/src/test/java/org/fao/unredd/portal/ConfigServletTest.java:150-158 | given the enabled plugins of a registry, a module is listed for the client iff an enabled, root-installed plugin declares it |
| ClientConfig.ConfiguredModulesOfRegistry | core/src/test/java/org/fao/unredd/portal/ConfigServletTest.java:190-196 | a module id is in the client configuration iff some enabled plugin configures it |
| ClientConfig.ConfigurationsOfRegistry | core/src/test/java/org/fao/unredd/portal/ConfigServletTest.java:193-203 | with disjoint module ids, every enabled plugin's module configuration reaches the client unchanged |
| ClientConfig.ClientConfiguration | core/src/test/java/org/fao/unredd/portal/ConfigServletTest.java:162-203 | end to end from the registry: it returns the enabled plugins, each once with its state, and `customization.modules` is exactly their root modules in that order; a module is listed iff an enabled root plugin declares it; a module id other than `customization` is in the client configuration iff some enabled plugin configures it; with disjoint ids each enabled plugin's module configuration arrives unchanged; only exposed properties appear |
| Scenarios.DisabledPluginIsNotReturned | core/src/test/java/org/fao/unredd/portal/PluginDescriptorsTest.java:18-34 | p1 merged disabled and p2 enabled: only p2 is enabled and its module ids are exactly {m3} |
| Scenarios.PluginsAreEnabledByDefault | core/src/test/java/org/fao/unredd/portal/PluginDescriptorsTest.java:36-46 | a plugin merged without `_enabled` is the one enabled plugin |
| Scenarios.MergeA10IntoDefaults | core/src/test/java/org/fao/unredd/portal/PluginDescriptorsTest.java:72-76 | merging `{m1: {a: 10}}` into the defaults of p1 gives exactly {m1: {a: 10, b: 2}, m2: {c: 1, d: 2}} |
| Scenarios.DefaultConfigurationIsMerged | core/src/test/java/org/fao/unredd/portal/PluginDescriptorsTest.java:48-77 | with `_override` absent or false the result is exactly {m1: {a: 10, b: 2}, m2: {c: 1, d: 2}} |
| Scenarios.DefaultConfigurationIsOverridden | core/src/test/java/org/fao/unredd/portal/PluginDescriptorsTest.java:79-95 | with `_override: true` the result is exactly {m1: {a: 10}} |
| Scenarios.PseudoModulePluginIsReturned | core/src/test/java/org/fao/unredd/portal/PluginDescriptorsTest.java:107-126 | an `installInRoot: false` plugin declaring modules m1 and m2 is still enabled after the merge and its module ids are exactly {m1, m2}, but it lists neither module as a root module |
| Scenarios.UnmergedPluginKeepsDefaults | core/src/test/java/org/fao/unredd/portal/PluginDescriptorsTest.java:128-147 | two enabled plugins: the merged one has m1.a = 10, the untouched one keeps m2.b = 20 |
| Scenarios.ModulesComeFromPlugins | core/src/test/java/org/fao/unredd/portal/ConfigServletTest.java:133-158 | one plugin declaring `module1` gives `customization.modules` = ["module1"] |
| Scenarios.ConfigurationReachesClient | core/src/test/java/org/fao/unredd/portal/ConfigServletTest.java:162-203 | the client config has module1 = {prop1: 42, prop2: true}, module2 = {prop3: "test"} and module3 = [4, 2, 9] |
| Scenarios.OnlyExposedPropertiesReachClient | core/src/test/java/org/fao/unredd/portal/ConfigServletTest.java:65-114 | `map.initialZoomLevel` reaches the customization, `moreproperties` does not, and `modules` is present |

## Left out

- JSON text parsing (`JSONObject.fromObject`, the text side of the descriptor reader) is left out. The model starts from parsed values, so the parse error of a malformed override document does not arise.
- Object key order is not modelled. JSON objects are maps, and no test observes the order of keys or of the enabled plugins.
- The configuration providers are left out: the database lookup by application and role with its `default` role fallback (`core/src/main/java/org/geoladris/config/DBConfigurationProvider.java`) and the file-based one. They are I/O; override documents arrive as parameters.
- Caching (`canBeCached`), the plugin directory rescan (`src/main/java/org/geoladris/PluginUpdater.java`) and concurrency are left out. The model is pure, so every call works on its own value.
- Static content serving (`ClientContentServletTest.java`) is left out: HTTP status codes, conditional GET, content types.
- The servlet's other output is left out, because it is produced outside the merge engine:
  - title, languages, `languageCode` and messages come from the locale and resource bundles;
  - `map.centerLonLat` and `client.modules` are portal properties read as arrays (`ConfigServletTest.java:83-86`);
  - the `var require = ` prefix is text framing around the JSON payload (`ConfigServletTest.java:152`).
- The exposed portal properties are a parameter. The tests show one exposed property (`map.initialZoomLevel`, `ConfigServletTest.java:74`, `:112`) and one hidden one (`moreproperties`, `:75`, `:114`). Property values are carried as JSON strings.
- Stylesheets and RequireJS paths of a descriptor are left out. The merge engine does not look at them.
- Merges deeper than one level inside a module, repeated merges into one plugin, and module ids shared by two plugins have no tests. The model defines an outcome for each but proves nothing about them.
- ClientConfig.ModuleConfigurationsKeepValues: proves that values arrive unchanged only when no two plugins configure the same module id.
- ClientConfig.ClientConfiguration: states that enabled plugins' values arrive unchanged only under the same disjointness condition, and only for module ids other than `customization`. Which module ids are present is stated for every registry.
- ClientConfig.ClientConfiguration: the exact `customization.modules` list holds only the enabled plugins' root modules. It leaves out any modules the `client.modules` portal property adds (`ConfigServletTest.java:85-86`).
