/**
  * The lifecycle classes of VkExtensionsFeaturesHelp.hpp: `InitHelpBase`
  * (one extension registry with its enumerate / enable / prepare steps),
  * `InstanceInitHelp` (extensions and layers) and `DeviceInitHelp`
  * (extensions and the feature-struct chain).
  *
  * The two derived classes hold their base part in a `base` field. The
  * source's asserts on the lifecycle flags are preconditions; the
  * `assert(0)` after a failed catalogue lookup is followed by a plain
  * `return`, and that path is modelled as it is written.
  */
module InitHelp {
  import opened VkTypes
  import opened Registry
  import opened FeatureChain

  class InitHelpBase {
    var extensionsEnumerated: bool
    var creationPrepared: bool
    const extensions: EnabledItemVector

    ghost predicate Valid()
      reads this, extensions
    {
      extensions.Valid()
    }

    constructor (catalogue: seq<string>)
      ensures fresh(extensions)
      ensures extensions.items == Registered(catalogue) && extensions.enabledNames == []
      ensures !extensionsEnumerated && !creationPrepared
      ensures Valid()
    {
      extensionsEnumerated := false;
      creationPrepared := false;
      extensions := new EnabledItemVector(catalogue);
    }

    method IsExtensionSupported(name: string) returns (supported: bool)
      requires extensionsEnumerated
      ensures supported == SupportedOf(extensions.items, name)
    {
      supported := extensions.IsSupported(name);
    }

    method IsExtensionEnabled(name: string) returns (enabled: bool)
      requires extensionsEnumerated
      ensures enabled == EnabledOf(extensions.items, name)
    {
      enabled := extensions.IsEnabled(name);
    }

    method EnableExtension(name: string, enabled: bool) returns (ok: bool)
      requires extensionsEnumerated
      modifies extensions`items
      ensures Enabling(old(extensions.items), name, enabled) == EnableOutcome(extensions.items, ok)
      ensures old(Valid()) ==> Valid()
    {
      ok := extensions.Enable(name, enabled);
    }

    method EnableAllExtensions(enabled: bool)
      requires extensionsEnumerated
      modifies extensions`items
      ensures extensions.items == WithAllEnabled(old(extensions.items), enabled)
      ensures Valid()
    {
      extensions.EnableAll(enabled);
    }

    /** The count getter: the prepared list's length, cast to `uint32_t`. */
    function EnabledExtensionCount(): (count: uint32)
      reads this, extensions
      requires creationPrepared
      ensures |extensions.enabledNames| < UINT32_LIMIT ==> count == |extensions.enabledNames|
    {
      |extensions.enabledNames| % UINT32_LIMIT
    }

    /** The names getter: null (None) when the prepared list is empty. */
    function EnabledExtensionNames(): (names: Option<seq<string>>)
      reads this, extensions
      requires creationPrepared
      ensures names == None <==> extensions.enabledNames == []
      ensures names != None ==> names.value == extensions.enabledNames
    {
      if extensions.enabledNames != [] then Some(extensions.enabledNames) else None
    }

    method LoadExtensions(reported: seq<string>)
      requires !extensionsEnumerated
      modifies this`extensionsEnumerated, extensions`items
      ensures extensions.items == Loaded(old(extensions.items), reported)
      ensures extensionsEnumerated
      ensures old(Valid()) ==> Valid()
    {
      extensions.MarkReported(reported);
      extensionsEnumerated := true;
    }

    method PrepareEnabledExtensionNames()
      requires Valid() && extensionsEnumerated
      modifies extensions`enabledNames
      ensures extensions.enabledNames == EnabledNames(extensions.items)
    {
      extensions.PrepareEnabled();
    }
  }

  class InstanceInitHelp {
    const base: InitHelpBase
    const layers: EnabledItemVector
    var layersEnumerated: bool

    ghost function Repr(): set<object> {
      {this, base, base.extensions, layers}
    }

    ghost predicate Valid()
      reads this, base, base.extensions, layers
    {
      base.Valid() && layers.Valid() && layers != base.extensions
    }

    constructor (extensionCatalogue: seq<string>, layerCatalogue: seq<string>)
      ensures fresh(Repr())
      ensures base.extensions.items == Registered(extensionCatalogue) && base.extensions.enabledNames == []
      ensures layers.items == Registered(layerCatalogue) && layers.enabledNames == []
      ensures !base.extensionsEnumerated && !base.creationPrepared && !layersEnumerated
      ensures Valid()
    {
      base := new InitHelpBase(extensionCatalogue);
      layers := new EnabledItemVector(layerCatalogue);
      layersEnumerated := false;
    }

    /**
      * Only a successful exchange with a non-zero count loads the names and
      * marks the extensions enumerated; a zero count returns success and
      * leaves the flag as it was.
      */
    method EnumerateExtensions(query: Enumeration) returns (res: VkResult)
      requires query.Loads() ==> !base.extensionsEnumerated
      modifies base`extensionsEnumerated, base.extensions`items
      ensures res == query.Result()
      ensures base.extensions.items == Enumerated(old(base.extensions.items), query)
      ensures base.extensionsEnumerated == (old(base.extensionsEnumerated) || query.Loads())
      ensures old(base.Valid()) ==> base.Valid()
    {
      if query.countResult != VK_SUCCESS {
        return query.countResult;
      }
      if query.count > 0 {
        if query.listResult != VK_SUCCESS {
          return query.listResult;
        }
        base.LoadExtensions(query.names);
      }
      return VK_SUCCESS;
    }

    /** Unlike extensions, layers are marked enumerated on every success, whatever the count. */
    method EnumerateLayers(query: Enumeration) returns (res: VkResult)
      requires !layersEnumerated
      modifies this`layersEnumerated, layers`items
      ensures res == query.Result()
      ensures layers.items == Enumerated(old(layers.items), query)
      ensures layersEnumerated == (res == VK_SUCCESS)
      ensures old(layers.Valid()) ==> layers.Valid()
    {
      if query.countResult != VK_SUCCESS {
        return query.countResult;
      }
      if query.count > 0 {
        if query.listResult != VK_SUCCESS {
          return query.listResult;
        }
        LoadLayers(query.names);
      }
      layersEnumerated := true;
      return VK_SUCCESS;
    }

    method IsLayerSupported(name: string) returns (supported: bool)
      requires layersEnumerated
      ensures supported == SupportedOf(layers.items, name)
    {
      supported := layers.IsSupported(name);
    }

    method IsLayerEnabled(name: string) returns (enabled: bool)
      requires layersEnumerated
      ensures enabled == EnabledOf(layers.items, name)
    {
      enabled := layers.IsEnabled(name);
    }

    method EnableLayer(name: string, enabled: bool) returns (ok: bool)
      requires layersEnumerated
      modifies layers`items
      ensures Enabling(old(layers.items), name, enabled) == EnableOutcome(layers.items, ok)
      ensures old(layers.Valid()) ==> layers.Valid()
    {
      ok := layers.Enable(name, enabled);
    }

    method EnableAllLayers(enabled: bool)
      requires layersEnumerated
      modifies layers`items
      ensures layers.items == WithAllEnabled(old(layers.items), enabled)
      ensures layers.Valid()
    {
      layers.EnableAll(enabled);
    }

    method PrepareCreation()
      requires Valid() && layersEnumerated && base.extensionsEnumerated
      modifies base`creationPrepared, base.extensions`enabledNames, layers`enabledNames
      ensures base.extensions.enabledNames == EnabledNames(base.extensions.items)
      ensures layers.enabledNames == EnabledNames(layers.items)
      ensures base.creationPrepared
    {
      base.PrepareEnabledExtensionNames();
      layers.PrepareEnabled();
      base.creationPrepared := true;
    }

    function EnabledLayerCount(): (count: uint32)
      reads base, layers
      requires base.creationPrepared
      ensures |layers.enabledNames| < UINT32_LIMIT ==> count == |layers.enabledNames|
    {
      |layers.enabledNames| % UINT32_LIMIT
    }

    function EnabledLayerNames(): (names: Option<seq<string>>)
      reads base, layers
      requires base.creationPrepared
      ensures names == None <==> layers.enabledNames == []
      ensures names != None ==> names.value == layers.enabledNames
    {
      if layers.enabledNames != [] then Some(layers.enabledNames) else None
    }

    method LoadLayers(reported: seq<string>)
      modifies layers`items
      ensures layers.items == Loaded(old(layers.items), reported)
      ensures old(layers.Valid()) ==> layers.Valid()
    {
      layers.MarkReported(reported);
    }
  }

  /** The driver's answer to vkGetPhysicalDeviceFeatures2: core feature bits and bits per sType. */
  datatype FeatureReport = FeatureReport(core: set<string>, byType: map<StructureType, set<string>>)

  class DeviceInitHelp {
    const base: InitHelpBase
    var featureStructs: seq<FeatureStruct>
    /** The `pNext` field of each struct's payload, as an arena index. */
    const pNext: array<int>
    /** `m_Features2.pNext`. */
    var headNext: int
    /** The feature members the driver set in each struct's payload. */
    var payloads: seq<set<string>>
    /** `m_Features2.features`. */
    var features: set<string>
    var featuresQueried: bool

    ghost function Repr(): set<object> {
      {this, base, base.extensions, pNext}
    }

    ghost predicate Valid()
      reads this, base, base.extensions
    {
      base.Valid() && pNext.Length == |featureStructs| == |payloads|
    }

    /** Registers the catalogue; every feature struct starts enabled and every payload is zeroed. */
    constructor (extensionCatalogue: seq<string>, structCatalogue: seq<(string, StructureType)>)
      ensures fresh(Repr())
      ensures base.extensions.items == Registered(extensionCatalogue) && base.extensions.enabledNames == []
      ensures featureStructs == Declared(structCatalogue)
      ensures headNext == NULL && forall i :: 0 <= i < pNext.Length ==> pNext[i] == NULL
      ensures payloads == seq(|structCatalogue|, _ => {}) && features == {}
      ensures !base.extensionsEnumerated && !base.creationPrepared && !featuresQueried
      ensures Valid()
    {
      base := new InitHelpBase(extensionCatalogue);
      featureStructs := Declared(structCatalogue);
      pNext := new int[|structCatalogue|](_ => NULL);
      headNext := NULL;
      payloads := seq(|structCatalogue|, _ => {});
      features := {};
      featuresQueried := false;
    }

    method EnumerateExtensions(physicalDevice: PhysicalDevice, query: Enumeration) returns (res: VkResult)
      requires physicalDevice != VK_NULL_HANDLE
      requires query.Loads() ==> !base.extensionsEnumerated
      modifies base`extensionsEnumerated, base.extensions`items
      ensures res == query.Result()
      ensures base.extensions.items == Enumerated(old(base.extensions.items), query)
      ensures base.extensionsEnumerated == (old(base.extensionsEnumerated) || query.Loads())
      ensures old(base.Valid()) ==> base.Valid()
    {
      if query.countResult != VK_SUCCESS {
        return query.countResult;
      }
      if query.count > 0 {
        if query.listResult != VK_SUCCESS {
          return query.listResult;
        }
        base.LoadExtensions(query.names);
      }
      return VK_SUCCESS;
    }

    /** `PnextChainPushFront(&m_Features2, payload of struct node)`. */
    method PnextChainPushFront(node: int)
      requires 0 <= node < pNext.Length
      modifies this`headNext, pNext
      ensures pNext[node] == old(headNext) && headNext == node
      ensures forall j :: 0 <= j < pNext.Length && j != node ==> pNext[j] == old(pNext[j])
    {
      pNext[node] := headNext;
      headNext := node;
    }

    /**
      * The loop shared by GetPhysicalDeviceFeatures and PrepareCreation:
      * reset the head, then push every enabled struct to the front.
      */
    method LinkEnabledStructs()
      requires pNext.Length == |featureStructs|
      modifies this`headNext, pNext
      ensures ChainFrom(headNext, pNext[..], EnabledReversed(featureStructs))
      ensures forall i :: 0 <= i < pNext.Length && !featureStructs[i].enabled ==> pNext[i] == old(pNext[i])
    {
      headNext := NULL;
      ghost var links := pNext[..];
      for i := 0 to |featureStructs|
        invariant links == pNext[..]
        invariant ChainFrom(headNext, links, EnabledReversed(featureStructs[..i]))
        invariant forall j :: i <= j < pNext.Length ==> pNext[j] == old(pNext[j])
        invariant forall j :: 0 <= j < i && !featureStructs[j].enabled ==> pNext[j] == old(pNext[j])
      {
        if featureStructs[i].enabled {
          LinkStep(headNext, links, featureStructs, i);
          links := links[i := headNext];
          pNext[i] := NULL;
          PnextChainPushFront(i);
        } else {
          SkipStep(featureStructs, i);
        }
      }
      assert featureStructs[..|featureStructs|] == featureStructs;
    }

    /**
      * Chains every enabled struct after the head and lets the driver fill
      * what it finds by walking the chain; may happen only once.
      */
    method GetPhysicalDeviceFeatures(physicalDevice: PhysicalDevice, report: FeatureReport)
      requires Valid()
      requires physicalDevice != VK_NULL_HANDLE && !featuresQueried
      modifies this`headNext, this`payloads, this`features, this`featuresQueried, pNext
      ensures ChainFrom(headNext, pNext[..], EnabledReversed(featureStructs))
      ensures payloads == Filled(old(payloads), featureStructs, EnabledReversed(featureStructs), report.byType)
      ensures features == report.core && featuresQueried
      ensures Valid()
    {
      LinkEnabledStructs();
      // vkGetPhysicalDeviceFeatures2 walks the chain from m_Features2.
      var visited := Walk(pNext[..], headNext, pNext.Length);
      ChainWalk(headNext, pNext[..], EnabledReversed(featureStructs), pNext.Length);
      payloads := Filled(payloads, featureStructs, visited.value, report.byType);
      features := report.core;
      featuresQueried := true;
    }

    /** `GetFeatures()`. */
    function CoreFeatures(): set<string>
      reads this
      requires featuresQueried
    {
      features
    }

    /** The `Get<StructName>()` accessor the catalogue generates for each struct. */
    function FeatureStructPayload(name: string): set<string>
      reads this
      requires featuresQueried && |payloads| == |featureStructs|
      requires name in StructNames(featureStructs)
    {
      payloads[FirstIndex(StructNames(featureStructs), name)]
    }

    method FindStructByName(name: string) returns (index: int)
      ensures index == FirstIndex(StructNames(featureStructs), name)
    {
      for i := 0 to |featureStructs|
        invariant name !in StructNames(featureStructs)[..i]
      {
        if featureStructs[i].name == name {
          assert StructNames(featureStructs)[i] == name;
          return i;
        }
      }
      assert StructNames(featureStructs)[..|featureStructs|] == StructNames(featureStructs);
      return -1;
    }

    method FindStructByType(sType: StructureType) returns (index: int)
      ensures index == FirstIndex(StructTypes(featureStructs), sType)
    {
      for i := 0 to |featureStructs|
        invariant sType !in StructTypes(featureStructs)[..i]
      {
        if featureStructs[i].sType == sType {
          assert StructTypes(featureStructs)[i] == sType;
          return i;
        }
      }
      assert StructTypes(featureStructs)[..|featureStructs|] == StructTypes(featureStructs);
      return -1;
    }

    method IsFeatureStructEnabledByName(name: string) returns (enabled: bool)
      ensures enabled == StructEnabledByName(featureStructs, name)
    {
      var index := FindStructByName(name);
      if index != -1 {
        return featureStructs[index].enabled;
      }
      // The source asserts here: only catalogue structs may be queried.
      return false;
    }

    method EnableFeatureStructByName(name: string, enabled: bool)
      modifies this`featureStructs
      ensures featureStructs == WithStructFlag(old(featureStructs), FirstIndex(StructNames(old(featureStructs)), name), enabled)
      ensures name in StructNames(old(featureStructs)) ==> StructEnabledByName(featureStructs, name) == enabled
    {
      var index := FindStructByName(name);
      if index != -1 {
        featureStructs := featureStructs[index := featureStructs[index].(enabled := enabled)];
        return;
      }
      // The source asserts here: only catalogue structs may be enabled.
    }

    method IsFeatureStructEnabledByType(sType: StructureType) returns (enabled: bool)
      ensures enabled == StructEnabledByType(featureStructs, sType)
    {
      var index := FindStructByType(sType);
      if index != -1 {
        return featureStructs[index].enabled;
      }
      // The source asserts here: only catalogue structs may be queried.
      return false;
    }

    method EnableFeatureStructByType(sType: StructureType, enabled: bool)
      modifies this`featureStructs
      ensures featureStructs == WithStructFlag(old(featureStructs), FirstIndex(StructTypes(old(featureStructs)), sType), enabled)
      ensures sType in StructTypes(old(featureStructs)) ==> StructEnabledByType(featureStructs, sType) == enabled
    {
      var index := FindStructByType(sType);
      if index != -1 {
        featureStructs := featureStructs[index := featureStructs[index].(enabled := enabled)];
        return;
      }
      // The source asserts here: only catalogue structs may be enabled.
    }

    /** Not in the shown header: sets every struct's flag to `enabled`, by analogy with EnableAll. */
    method EnableAllFeatureStructs(enabled: bool)
      modifies this`featureStructs
      ensures featureStructs == WithAllStructs(old(featureStructs), enabled)
    {
      for i := 0 to |featureStructs|
        invariant |featureStructs| == |old(featureStructs)|
        invariant featureStructs[..i] == WithAllStructs(old(featureStructs), enabled)[..i]
        invariant featureStructs[i..] == old(featureStructs)[i..]
      {
        featureStructs := featureStructs[i := featureStructs[i].(enabled := enabled)];
      }
    }

    method PrepareCreation()
      requires Valid() && base.extensionsEnumerated && featuresQueried
      modifies base`creationPrepared, base.extensions`enabledNames, this`headNext, pNext
      ensures base.extensions.enabledNames == EnabledNames(base.extensions.items)
      ensures ChainFrom(headNext, pNext[..], EnabledReversed(featureStructs))
      ensures forall i :: 0 <= i < pNext.Length && !featureStructs[i].enabled ==> pNext[i] == old(pNext[i])
      ensures base.creationPrepared
    {
      base.PrepareEnabledExtensionNames();
      LinkEnabledStructs();
      base.creationPrepared := true;
    }

    /** `GetFeaturesChain()`: the head's link, the first chained struct or null. */
    function FeaturesChain(): int
      reads this, base
      requires base.creationPrepared
    {
      headNext
    }
  }

  /** What `IsFeatureStructEnabled(name)` reports: the flag of the first struct with that name. */
  function StructEnabledByName(structs: seq<FeatureStruct>, name: string): bool {
    var k := FirstIndex(StructNames(structs), name);
    k >= 0 && structs[k].enabled
  }

  /** What `IsFeatureStructEnabled(sType)` reports. */
  function StructEnabledByType(structs: seq<FeatureStruct>, sType: StructureType): bool {
    var k := FirstIndex(StructTypes(structs), sType);
    k >= 0 && structs[k].enabled
  }

  /**
    * `GetFeatures()` and `Get<StructName>()` after the one-shot query: the
    * core bits the driver reported, and for the named struct the bits
    * reported for its sType when it was chained, its old payload otherwise.
    */
  method ReadQueriedFeatures(h: DeviceInitHelp, physicalDevice: PhysicalDevice, report: FeatureReport, name: string)
    returns (core: set<string>, payload: set<string>)
    requires h.Valid() && physicalDevice != VK_NULL_HANDLE && !h.featuresQueried
    requires name in StructNames(h.featureStructs)
    modifies h`headNext, h`payloads, h`features, h`featuresQueried, h.pNext
    ensures core == report.core
    ensures var k := FirstIndex(StructNames(h.featureStructs), name);
            var s := h.featureStructs[k];
            payload == if s.enabled && s.sType in report.byType then report.byType[s.sType] else old(h.payloads)[k]
  {
    h.GetPhysicalDeviceFeatures(physicalDevice, report);
    core := h.CoreFeatures();
    payload := h.FeatureStructPayload(name);
    FilledAreEnabled(old(h.payloads), h.featureStructs, report.byType, FirstIndex(StructNames(h.featureStructs), name));
  }

  /**
    * `GetFeaturesChain()` after `PrepareCreation`: a consumer following the
    * links from what it returns visits exactly the enabled structs, last
    * declared first, and then reaches null.
    */
  method WalkPreparedChain(h: DeviceInitHelp) returns (visited: Option<seq<int>>)
    requires h.Valid() && h.base.extensionsEnumerated && h.featuresQueried
    modifies h.base`creationPrepared, h.base.extensions`enabledNames, h`headNext, h.pNext
    ensures visited == Some(EnabledReversed(h.featureStructs))
  {
    h.PrepareCreation();
    var head := h.FeaturesChain();
    visited := Walk(h.pNext[..], head, h.pNext.Length);
    ChainWalk(head, h.pNext[..], EnabledReversed(h.featureStructs), h.pNext.Length);
  }
}
