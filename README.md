# Cauldron Vulkan capability negotiation, modelled in Dafny

This project models the part of the Cauldron Vulkan framework that decides
which layers, extensions and device feature structs an application turns on.
It covers the following pieces:

- **`EnabledItemVector`**: an ordered registry of `{name, supported, enabled}`
  items. Lookup is by exact name. Enabling is gated on support. The list of
  enabled names is rebuilt in declaration order.
- **`InitHelpBase`, `InstanceInitHelp` and `DeviceInitHelp`**: these add a
  lifecycle on top of the registry.
  1. The driver reports what it supports, once.
  2. The application enables and queries.
  3. The output lists are prepared for `vkCreateInstance` / `vkCreateDevice`.

  `DeviceInitHelp` also owns a table of feature structs. It links the enabled
  ones into a `pNext` chain by repeated push-front after the head
  `VkPhysicalDeviceFeatures2`.
- **`InstanceProperties` and `DeviceProperties`**: these fix the default
  policy (everything disabled after `Init`) and the add-by-name wrappers.
- **`ExtFp16CheckExtensions`**: decides whether half-precision arithmetic can
  be used.

Modules, one per source unit:

| module | file | models |
|---|---|---|
| `VkTypes` | `vk_types.dfy` | Result codes, handles, sTypes, the two-call enumeration exchange with the driver |
| `Registry` | `registry.dfy` | `EnabledItemVector` (a class) and the functions that specify it |
| `FeatureChain` | `feature_chain.dfy` | The feature-struct table, the `pNext` arena, and the chain shape and walk |
| `InitHelp` | `init_help.dfy` | `InitHelpBase`, `InstanceInitHelp`, `DeviceInitHelp` |
| `InstanceSetup` | `instance_properties.dfy` | `InstanceProperties` |
| `DeviceSetup` | `device_properties.dfy` | `DeviceProperties` |
| `Fp16` | `ext_fp16.dfy` | `ExtFp16CheckExtensions` |

Modelling choices:

- **Classes.** Every object the source updates in place is a Dafny class. Its
  `std::vector` fields are `seq` fields that the methods reassign. Each method
  states its new state through a specification function of the old state
  (`Enabling`, `WithAllEnabled`, `Loaded`, `EnabledNames`, `WithStructFlag`,
  `Filled`).
- **Registry invariant.** The central invariant, an item is enabled only if
  it is supported, is `EnabledImpliesSupported`. It is preserved by every
  operation.
- **Inheritance.** The source's base class `InitHelpBase` is a `base` field
  of the two derived helpers.
- **Lifecycle asserts.** The source's asserts on lifecycle flags become
  preconditions: enumerated first, enumerate once, features queried once,
  `PrepareCreation` before the getters.
- **Catalogue-lookup asserts.** The `assert(0 && ...)` after a catalogue
  lookup that found nothing is followed in the source by an ordinary
  `return`. That path is modelled as written: it returns `false` and changes
  nothing.
- **The `pNext` chain.** The payload structs form an arena.
  - Struct `i` of the table owns node `i` of the array `pNext`.
  - `headNext` is the head's link.
  - `-1` is null.
  - `ChainFrom(head, links, order)` says that following the links from the
    head visits exactly `order` and then reaches null.
  - `Walk` is what the driver does when it follows the chain.

## Model

| member | source | states |
|---|---|---|
| Registry.FirstIndex | src/VK/base/VkExtensionsFeaturesHelp.hpp:84-94 | Lookup finds the first item with the exact name. The result is -1 (the source's `SIZE_MAX`) exactly when no item has that name. |
| Registry.Registered | src/VK/base/VkExtensionsFeaturesHelp.hpp:166-167 | The registry built from a catalogue lists the catalogue's names in catalogue order. |
| Registry.Enabling | src/VK/base/VkExtensionsFeaturesHelp.hpp:47-62 | `Enable(name, want)` returns true exactly when `want` holds and the name is supported. Afterwards `IsEnabled(name)` reports that result. No supported flag and no other item changes. An unknown name changes nothing. The invariant enabled ⇒ supported is preserved. |
| Registry.WithAllEnabled | src/VK/base/VkExtensionsFeaturesHelp.hpp:63-69 | `EnableAll(b)` sets each enabled flag to `b && supported` and keeps names and supported flags, so enabled ⇒ supported holds afterwards. |
| Registry.Loaded | src/VK/base/VkExtensionsFeaturesHelp.hpp:137-152 | Every item whose name was reported, duplicates included, becomes supported and enabled. Every other item is untouched. The invariant is preserved. |
| Registry.Enumerated | src/VK/base/VkExtensionsFeaturesHelp.hpp:179-194 | An exchange that fails, or that reports zero names, leaves the registry as it was. Names and the invariant are always kept. |
| Registry.EnabledNamesAppend | src/VK/base/VkExtensionsFeaturesHelp.hpp:70-81 | The prepared list keeps declaration order: the list of a concatenation is the concatenation of the lists. |
| Registry.EnabledNamesMembership | src/VK/base/VkExtensionsFeaturesHelp.hpp:70-81 | A name is in the prepared list if and only if some item with that name is enabled. |
| Registry.EnabledNamesAreSupported | src/VK/base/VkExtensionsFeaturesHelp.hpp:75-78 | Under the invariant, every prepared name belongs to a supported item, which is what `PrepareEnabled` asserts. |
| Registry.AllEnabledListsSupported | src/VK/base/VkExtensionsFeaturesHelp.hpp:63-81 | After `EnableAll(true)` the prepared list is exactly the supported names, in order. |
| Registry.AllDisabledListsNothing | src/VK/base/VkExtensionsFeaturesHelp.hpp:63-81 | After `EnableAll(false)` the prepared list is empty. |
| Registry.RegisteredIsInert | src/VK/base/VkExtensionsFeaturesHelp.hpp:166-167 | A fresh registry supports nothing, enables nothing, prepares an empty list and satisfies the invariant. |
| Registry.FailedEnableIsNoOp | src/VK/base/VkExtensionsFeaturesHelp.hpp:47-62 | On a registry satisfying the invariant, a refused `Enable(name, true)` changes nothing at all. |
| Registry.EnablingKeepsSupport | src/VK/base/VkExtensionsFeaturesHelp.hpp:47-62 | Enabling never changes what any name reports as supported. |
| Registry.EnablingKeepsOthers | src/VK/base/VkExtensionsFeaturesHelp.hpp:47-62 | Enabling one name never changes what another name reports as enabled. |
| Registry.LoadedConcat | src/VK/base/VkExtensionsFeaturesHelp.hpp:140-150 | Loading the reported names one after another equals loading them all at once (the outer loop of `LoadExtensions`). |
| Registry.EnabledItemVector.constructor | src/VK/base/VkExtensionsFeaturesHelp.hpp:166-167 | Items are registered unsupported and disabled, with an empty name list. |
| Registry.EnabledItemVector.Find | src/VK/base/VkExtensionsFeaturesHelp.hpp:84-94 | The linear search returns the first index with the exact name, or -1. |
| Registry.EnabledItemVector.IsSupported | src/VK/base/VkExtensionsFeaturesHelp.hpp:31-38 | Reports the first matching item's supported flag, or false for an unknown name. |
| Registry.EnabledItemVector.IsEnabled | src/VK/base/VkExtensionsFeaturesHelp.hpp:39-46 | Reports the first matching item's enabled flag, or false for an unknown name. |
| Registry.EnabledItemVector.Enable | src/VK/base/VkExtensionsFeaturesHelp.hpp:47-62 | The new items and the result are those of `Enabling`. Keeps the invariant. |
| Registry.EnabledItemVector.EnableAll | src/VK/base/VkExtensionsFeaturesHelp.hpp:63-69 | Each enabled flag becomes `enabled && supported`, via the loop invariant over the processed prefix. The invariant holds afterwards. |
| Registry.EnabledItemVector.PrepareEnabled | src/VK/base/VkExtensionsFeaturesHelp.hpp:70-81 | The list is cleared and rebuilt as exactly the enabled names, in declaration order. |
| Registry.EnabledItemVector.MarkReported | src/VK/base/VkExtensionsFeaturesHelp.hpp:140-150 | The nested loop leaves the items equal to `Loaded(old items, reported)`. Keeps the invariant. |
| Registry.PrepareEnabledTwice | src/VK/base/VkExtensionsFeaturesHelp.hpp:70-81 | Rebuilding twice with no change in between gives identical lists. |
| FeatureChain.Declared | src/VK/base/VkExtensionsFeaturesHelp.hpp:301 | Struct `i` carries the name and sType of catalogue entry `i`, and every struct is registered enabled. |
| FeatureChain.WithStructFlag | src/VK/base/VkExtensionsFeaturesHelp.hpp:374-410 | Setting one struct's flag changes that flag only. Names, sTypes and every other struct are kept. |
| FeatureChain.WithAllStructs | src/VK/base/DeviceProperties.cpp:37 | Every struct's flag becomes the argument. Names and sTypes are kept. |
| FeatureChain.EnabledReversedIsReverseOfEnabled | src/VK/base/VkExtensionsFeaturesHelp.hpp:341-349 | The push-front order holds every enabled struct, each once, and nothing else. It is strictly decreasing, so last declared comes first. |
| FeatureChain.AllDeclaredChained | src/VK/base/VkExtensionsFeaturesHelp.hpp:301 | With every struct still enabled, the order is all structs, last declared first. |
| FeatureChain.EnabledReversedSnoc | src/VK/base/VkExtensionsFeaturesHelp.hpp:341-349 | Appending a struct puts it in front of the order exactly when it is enabled. |
| FeatureChain.ChainWalk | src/VK/base/VkExtensionsFeaturesHelp.hpp:13-17 | A chain in the sense of `ChainFrom` is exactly what a walk from the head visits before reaching null. |
| FeatureChain.ChainDetermined | src/VK/base/VkExtensionsFeaturesHelp.hpp:419-429 | Two chains over the same order have the same head and the same links along it, so rebuilding over an unchanged enabled set is idempotent. |
| FeatureChain.PushFrontKeepsChain | src/VK/base/VkExtensionsFeaturesHelp.hpp:13-17 | Pushing a fresh node to the front of a chain gives a chain with that node first. |
| FeatureChain.LinkStep | src/VK/base/VkExtensionsFeaturesHelp.hpp:343-348 | One loop step on an enabled struct extends the chain over the first `i + 1` structs. |
| FeatureChain.SkipStep | src/VK/base/VkExtensionsFeaturesHelp.hpp:343 | A disabled struct leaves the order unchanged. |
| FeatureChain.FilledAreEnabled | src/VK/base/VkExtensionsFeaturesHelp.hpp:351 | The driver's fill reaches exactly the enabled structs. Every other payload keeps its contents. |
| InitHelp.InitHelpBase.constructor | src/VK/base/VkExtensionsFeaturesHelp.hpp:133-135 | A fresh base is neither enumerated nor prepared. Its registry is the catalogue, and the invariant holds. |
| InitHelp.InitHelpBase.IsExtensionSupported | src/VK/base/VkExtensionsFeaturesHelp.hpp:100-104 | Requires enumeration. Reports `SupportedOf`. |
| InitHelp.InitHelpBase.IsExtensionEnabled | src/VK/base/VkExtensionsFeaturesHelp.hpp:105-109 | Requires enumeration. Reports `EnabledOf`. |
| InitHelp.InitHelpBase.EnableExtension | src/VK/base/VkExtensionsFeaturesHelp.hpp:110-114 | Requires enumeration. Outcome as `Enabling`. Keeps the invariant. |
| InitHelp.InitHelpBase.EnableAllExtensions | src/VK/base/VkExtensionsFeaturesHelp.hpp:115-119 | Requires enumeration. Items become `WithAllEnabled`, so the invariant holds afterwards. |
| InitHelp.InitHelpBase.EnabledExtensionCount | src/VK/base/VkExtensionsFeaturesHelp.hpp:121-125 | Requires `PrepareCreation`. Equals the prepared list's length whenever that length fits a `uint32_t`. |
| InitHelp.InitHelpBase.EnabledExtensionNames | src/VK/base/VkExtensionsFeaturesHelp.hpp:126-130 | Requires `PrepareCreation`. Null exactly when the prepared list is empty, otherwise that list. |
| InitHelp.InitHelpBase.LoadExtensions | src/VK/base/VkExtensionsFeaturesHelp.hpp:137-152 | Allowed only once. Items become `Loaded`, and the extensions are marked enumerated. Keeps the invariant. |
| InitHelp.InitHelpBase.PrepareEnabledExtensionNames | src/VK/base/VkExtensionsFeaturesHelp.hpp:154-158 | Requires enumeration. The list becomes `EnabledNames(items)`. |
| InitHelp.InstanceInitHelp.constructor | src/VK/base/VkExtensionsFeaturesHelp.hpp:164-177 | Two separate registries, extensions and layers, built from their catalogues. |
| InitHelp.InstanceInitHelp.EnumerateExtensions | src/VK/base/VkExtensionsFeaturesHelp.hpp:179-194 | Returns the first failing call's code, or success. Loads, and marks enumerated, only when both calls succeed with a non-zero count, so a zero count leaves the flag unchanged. |
| InitHelp.InstanceInitHelp.EnumerateLayers | src/VK/base/VkExtensionsFeaturesHelp.hpp:196-213 | Allowed only once. Same result and loading as for extensions, but layers are marked enumerated on every success, whatever the count. |
| InitHelp.InstanceInitHelp.IsLayerSupported | src/VK/base/VkExtensionsFeaturesHelp.hpp:215-219 | Requires layer enumeration. Reports `SupportedOf`. |
| InitHelp.InstanceInitHelp.IsLayerEnabled | src/VK/base/VkExtensionsFeaturesHelp.hpp:220-224 | Requires layer enumeration. Reports `EnabledOf`. |
| InitHelp.InstanceInitHelp.EnableLayer | src/VK/base/VkExtensionsFeaturesHelp.hpp:225-229 | Requires layer enumeration. Outcome as `Enabling`. Keeps the invariant. |
| InitHelp.InstanceInitHelp.EnableAllLayers | src/VK/base/VkExtensionsFeaturesHelp.hpp:230-234 | Requires layer enumeration. Layers become `WithAllEnabled`, so the invariant holds afterwards. |
| InitHelp.InstanceInitHelp.PrepareCreation | src/VK/base/VkExtensionsFeaturesHelp.hpp:236-242 | Both lists become the enabled names in order, and the helper is marked prepared. |
| InitHelp.InstanceInitHelp.EnabledLayerCount | src/VK/base/VkExtensionsFeaturesHelp.hpp:244-248 | Requires `PrepareCreation`. Equals the layer list's length whenever it fits a `uint32_t`. |
| InitHelp.InstanceInitHelp.EnabledLayerNames | src/VK/base/VkExtensionsFeaturesHelp.hpp:249-253 | Requires `PrepareCreation`. Null exactly when the layer list is empty. |
| InitHelp.InstanceInitHelp.LoadLayers | src/VK/base/VkExtensionsFeaturesHelp.hpp:259-272 | Layers become `Loaded`. Keeps the invariant. |
| InitHelp.DeviceInitHelp.constructor | src/VK/base/VkExtensionsFeaturesHelp.hpp:296-309 | Every feature struct is registered enabled, with a null link and a zeroed payload. Nothing is queried or enumerated. |
| InitHelp.DeviceInitHelp.EnumerateExtensions | src/VK/base/VkExtensionsFeaturesHelp.hpp:311-331 | Requires a non-null device. Same result codes and zero-count behaviour as the instance version. |
| InitHelp.DeviceInitHelp.PnextChainPushFront | src/VK/base/VkExtensionsFeaturesHelp.hpp:13-17 | The node's link takes the head's old link, and the head then points at the node. No other link changes. |
| InitHelp.DeviceInitHelp.LinkEnabledStructs | src/VK/base/VkExtensionsFeaturesHelp.hpp:339-349 | After the head is reset and the loop runs, the chain is `ChainFrom(head, links, EnabledReversed(structs))`. Links of disabled structs are untouched. |
| InitHelp.DeviceInitHelp.GetPhysicalDeviceFeatures | src/VK/base/VkExtensionsFeaturesHelp.hpp:333-354 | Allowed only once. Chains the enabled structs, and the driver's walk fills exactly those payloads. The core features are stored. |
| InitHelp.DeviceInitHelp.FindStructByName | src/VK/base/VkExtensionsFeaturesHelp.hpp:364-370 | Returns the first struct with that name, or -1. |
| InitHelp.DeviceInitHelp.FindStructByType | src/VK/base/VkExtensionsFeaturesHelp.hpp:389-395 | Returns the first struct with that sType, or -1. |
| InitHelp.DeviceInitHelp.IsFeatureStructEnabledByName | src/VK/base/VkExtensionsFeaturesHelp.hpp:362-373 | Reports the first matching struct's flag, or false. |
| InitHelp.DeviceInitHelp.EnableFeatureStructByName | src/VK/base/VkExtensionsFeaturesHelp.hpp:374-385 | Sets the first matching struct's flag with no support gate, and reading it back gives that flag. No other struct changes, and an unknown name changes nothing. |
| InitHelp.DeviceInitHelp.IsFeatureStructEnabledByType | src/VK/base/VkExtensionsFeaturesHelp.hpp:387-398 | Reports the first matching struct's flag, or false. |
| InitHelp.DeviceInitHelp.EnableFeatureStructByType | src/VK/base/VkExtensionsFeaturesHelp.hpp:399-410 | Same as by name, keyed by sType. |
| InitHelp.DeviceInitHelp.EnableAllFeatureStructs | src/VK/base/DeviceProperties.cpp:37 | Every struct's flag becomes the argument. |
| InitHelp.ReadQueriedFeatures | src/VK/base/VkExtensionsFeaturesHelp.hpp:282-286 | After the query, `GetFeatures()` gives the reported core bits. `Get<Struct>()` for a named struct gives the bits reported for its sType when the struct was chained, and its old payload otherwise. Both accessors require the query, as their asserts do (hpp:284, 358). |
| InitHelp.WalkPreparedChain | src/VK/base/VkExtensionsFeaturesHelp.hpp:434-438 | After `PrepareCreation`, following the links from what `GetFeaturesChain()` leads to visits exactly the enabled structs, last declared first, and then reaches null. |
| InitHelp.DeviceInitHelp.PrepareCreation | src/VK/base/VkExtensionsFeaturesHelp.hpp:412-432 | Requires enumeration and the feature query. Prepares the extension list and rebuilds the chain over the enabled structs, last declared first, ending in null. |
| InstanceSetup.InstanceProperties.Init | src/VK/base/InstanceProperties.cpp:26-41 | Enumerates layers and then extensions, both asserted to succeed, and returns success. Supported flags are kept as reported, everything ends disabled, and both prepared lists would be empty. |
| InstanceSetup.InstanceProperties.AddInstanceLayerName | src/VK/base/InstanceProperties.cpp:43-53 | Returns true if and only if the layer is supported. Afterwards the layer is enabled exactly when the call returned true, and nothing else changes. |
| InstanceSetup.InstanceProperties.AddInstanceExtensionName | src/VK/base/InstanceProperties.cpp:55-65 | Returns true if and only if the extension is supported, with the same post-state as for layers. |
| InstanceSetup.FailedAddScenario | src/VK/base/InstanceProperties.cpp:55-65 | With catalogue [a, b] and runtime [a], adding a succeeds and adding b fails. The prepared list is then [a]. |
| InstanceSetup.ZeroCountExchange | src/VK/base/VkExtensionsFeaturesHelp.hpp:185-211 | When the runtime reports zero names, the extension exchange succeeds but leaves the extensions unenumerated, so `Init`'s `EnableAllExtensions` falls outside its precondition. Layers in the same situation are marked enumerated. |
| DeviceSetup.DeviceProperties.Init | src/VK/base/DeviceProperties.cpp:26-39 | Stores the device, then queries features over the structs enabled on entry, then enumerates. A failing code is returned with nothing disabled. On success every extension and every feature struct ends disabled. |
| DeviceSetup.DeviceProperties.AddDeviceExtensionName | src/VK/base/DeviceProperties.cpp:41-51 | Returns true if and only if the extension is supported. Afterwards it is enabled exactly when the call returned true. |
| DeviceSetup.InitQueriesEveryStruct | src/VK/base/DeviceProperties.cpp:28-31 | On a fresh object, the query inside `Init` chains every declared struct, last declared first. |
| Fp16.AddedInTurnEnables | src/VK/base/ExtFp16.cpp:33-41 | Adding names in turn never changes support, and every supported name among them ends up enabled, repeated names included. |
| Fp16.RequiredAddedAreEnabled | src/VK/base/ExtFp16.cpp:33-41 | When both required extensions are supported, both are enabled after the loop. |
| Fp16.AddRequiredExtensions | src/VK/base/ExtFp16.cpp:30-41 | Both names are requested even when the first is refused. The result is true exactly when both are supported. |
| Fp16.ExtFp16CheckExtensions | src/VK/base/ExtFp16.cpp:28-60 | The result is true exactly when both extensions are supported and the queried payloads report `storageBuffer16BitAccess` and `shaderFloat16`. True implies both extensions are enabled. The two feature structs are set enabled when the result is true, and no struct is touched otherwise. A struct already enabled on entry therefore stays enabled after a false result. |

## Left out

- Driver calls are inputs, not calls.
  - `vkEnumerateInstanceExtensionProperties`, `vkEnumerateInstanceLayerProperties` and `vkEnumerateDeviceExtensionProperties` become an `Enumeration` value: the two calls' result codes, the count and the reported names.
  - `vkGetPhysicalDeviceFeatures2` becomes a `FeatureReport`: the core feature bits, and the bits per sType, which the model writes into the payloads its walk of the chain reaches.
- The catalogue `VkExtensionsFeatures.inl` is not part of this model. Each constructor takes the catalogue as a sequence of names, or of (struct name, sType) pairs.
- Payload contents are abstracted.
  - Each feature payload is the set of names of its members that the driver set.
  - The core `VkPhysicalDeviceFeatures` is such a set as well.
  - The per-struct `Get<Struct>()` accessors are one function, `DeviceInitHelp.FeatureStructPayload`, keyed by struct name.
  - `GetFeatures()` is `DeviceInitHelp.CoreFeatures`.
  - Both are plain reads. What they return after the query is stated by `ReadQueriedFeatures`.
- Raw pointers and `decltype` casts become arena indices.
  - `GetFeaturesChain()` returns the address of the head `m_Features2`. The model's `DeviceInitHelp.FeaturesChain` returns the head's link instead, the first chained struct. It is a plain read. What a walk from it visits is stated by `WalkPreparedChain`.
  - The `sType == m_sType` asserts inside the linking loops are not modelled: a struct's node and its sType are fixed by construction.
- The `m_Features2.sType` asserts are not modelled: the head is not a separate struct in the arena.
- `Trace`/`format` logging in the Add* wrappers and in `ExtFp16CheckExtensions` is left out.
- src/VK/base/ExtGPUValidation.cpp is not part of this model. It calls instance-helper members that the header does not define.
- src/VK/base/DeviceProperties.h is not part of this model. It holds only declarations and trivial accessors. For the same reason the `InstanceProperties` and `DeviceProperties` constructors have no row in the table.
- InitHelp.DeviceInitHelp.EnableAllFeatureStructs: the header does not define it, but DeviceProperties.cpp:37 calls it. It is modelled by analogy with `EnableAll`, setting every struct's flag to the argument with no support gate. This is an assumption.
- The catalogue-lookup `assert(0 && ...)` paths are modelled as the release build runs them: false is returned and nothing changes. They are not preconditions.
- InstanceSetup.InstanceProperties.Init: the source asserts that both enumerations succeed. `EnableAllExtensions` asserts that the extensions are enumerated, which a zero-count extension exchange does not achieve. The precondition therefore demands what the debug build checks. `ZeroCountExchange` exhibits the zero-count case.
- DeviceSetup.DeviceProperties.Init: same precondition for the same reason. A successful but zero-count device extension exchange is accepted only when the extensions were already enumerated.
- InitHelp.InitHelpBase.EnabledExtensionCount: `uint32_t` truncation is written out as `% 2^32`. The contract states equality with the length only below 2^32.
- InitHelp.InstanceInitHelp.EnabledLayerCount: same as `EnabledExtensionCount`.
- Code duplication: the linking loop that `GetPhysicalDeviceFeatures` and `PrepareCreation` both contain is one method, `LinkEnabledStructs`. The nested loop that `LoadExtensions` and `LoadLayers` both contain is one method, `EnabledItemVector.MarkReported`.
- Inheritance: the base class `InitHelpBase` is a field of the derived helpers. Code outside the helpers reaches it through that field.
- Memory ownership, vector reallocation and pointer validity of the returned name arrays are not modelled. The getters return the list value.
