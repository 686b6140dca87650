/** A plugin descriptor and the reading of a plugin's descriptor document into it. */
module Descriptors {
  import opened Json
  import opened Wrappers

  /** What is known about one plugin: its name, the client modules it declares,
      whether those modules are installed in the client root (false marks them as
      pseudo-modules), and its configuration, module id -> JSON value. */
  datatype Descriptor = Descriptor(
    name: string,
    modules: seq<string>,
    installInRoot: bool,
    configuration: Object)

  const DefaultConfKey := "default-conf"
  const InstallInRootKey := "installInRoot"

  datatype ReadError = DocumentNotAnObject | DefaultConfNotAnObject

  /** Fills `d` from a descriptor document: the plugin gets `name`, its configuration
      becomes the document's `default-conf` object (when there is one), and its
      root-installation flag is the document's boolean `installInRoot` or, failing
      that, `installInRoot`. The declared modules are left as they are. */
  function Fill(d: Descriptor, doc: Json, installInRoot: bool, name: string): (r: Result<Descriptor, ReadError>)
    ensures !doc.JObject? ==> r == Failure(DocumentNotAnObject)
    ensures doc.JObject? && DefaultConfKey in doc.fields ==>
              (r.Success? <==> doc.fields[DefaultConfKey].JObject?)
    ensures doc.JObject? && DefaultConfKey !in doc.fields ==> r.Success?
    ensures r.Success? ==> r.value.name == name && r.value.modules == d.modules
    ensures r.Success? && DefaultConfKey in doc.fields ==>
              r.value.configuration == doc.fields[DefaultConfKey].fields
    ensures r.Success? && DefaultConfKey !in doc.fields ==>
              r.value.configuration == d.configuration
    ensures r.Success? && InstallInRootKey !in doc.fields ==> r.value.installInRoot == installInRoot
    ensures r.Success? && InstallInRootKey in doc.fields && doc.fields[InstallInRootKey].JBool? ==>
              r.value.installInRoot == doc.fields[InstallInRootKey].b
    ensures r.Success? && InstallInRootKey in doc.fields && !doc.fields[InstallInRootKey].JBool? ==>
              r.value.installInRoot == installInRoot
  {
    if !doc.JObject? then Failure(DocumentNotAnObject)
    else if DefaultConfKey in doc.fields && !doc.fields[DefaultConfKey].JObject? then
      Failure(DefaultConfNotAnObject)
    else
      var conf := if DefaultConfKey in doc.fields then doc.fields[DefaultConfKey].fields else d.configuration;
      Success(Descriptor(name, d.modules, OptBool(doc.fields, InstallInRootKey, installInRoot), conf))
  }

  /** A descriptor as freshly constructed, before anything is filled in. */
  function Empty(): Descriptor
  {
    Descriptor("", [], true, map[])
  }
}
