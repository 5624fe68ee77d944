/**
  * `DeviceProperties` (DeviceProperties.cpp): the device-level consumer of
  * the helper. `Init` records the physical device, runs the one-shot
  * feature query, enumerates device extensions and, on success, disables
  * every extension and every feature struct.
  */
module DeviceSetup {
  import opened VkTypes
  import opened Registry
  import opened FeatureChain
  import opened InitHelp

  class DeviceProperties {
    var physicalDevice: PhysicalDevice
    const deviceInitHelp: DeviceInitHelp

    constructor (extensionCatalogue: seq<string>, structCatalogue: seq<(string, StructureType)>)
      ensures fresh(deviceInitHelp.Repr())
      ensures deviceInitHelp.base.extensions.items == Registered(extensionCatalogue)
      ensures deviceInitHelp.featureStructs == Declared(structCatalogue)
      ensures deviceInitHelp.payloads == seq(|structCatalogue|, _ => {})
      ensures !deviceInitHelp.base.extensionsEnumerated && !deviceInitHelp.base.creationPrepared
      ensures !deviceInitHelp.featuresQueried
      ensures deviceInitHelp.Valid()
    {
      physicalDevice := VK_NULL_HANDLE;
      deviceInitHelp := new DeviceInitHelp(extensionCatalogue, structCatalogue);
    }

    /**
      * The feature query comes first, while the structs still carry the
      * flags they had on entry (all enabled on a fresh helper). A failed
      * extension enumeration is returned at once and disables nothing.
      * EnableAllExtensions asserts that the extensions are enumerated, hence
      * the last precondition.
      */
    method Init(physicalDevice: PhysicalDevice, report: FeatureReport, extensionQuery: Enumeration)
      returns (res: VkResult)
      requires deviceInitHelp.Valid()
      requires physicalDevice != VK_NULL_HANDLE && !deviceInitHelp.featuresQueried
      requires extensionQuery.Loads() ==> !deviceInitHelp.base.extensionsEnumerated
      requires extensionQuery.Result() == VK_SUCCESS ==> extensionQuery.Loads() || deviceInitHelp.base.extensionsEnumerated
      modifies this`physicalDevice
      modifies deviceInitHelp`headNext, deviceInitHelp`payloads, deviceInitHelp`features
      modifies deviceInitHelp`featuresQueried, deviceInitHelp`featureStructs, deviceInitHelp.pNext
      modifies deviceInitHelp.base`extensionsEnumerated, deviceInitHelp.base.extensions`items
      ensures this.physicalDevice == physicalDevice
      ensures res == extensionQuery.Result()
      ensures deviceInitHelp.featuresQueried && deviceInitHelp.features == report.core
      ensures ChainFrom(deviceInitHelp.headNext, deviceInitHelp.pNext[..], EnabledReversed(old(deviceInitHelp.featureStructs)))
      ensures deviceInitHelp.payloads ==
              Filled(old(deviceInitHelp.payloads), old(deviceInitHelp.featureStructs),
                     EnabledReversed(old(deviceInitHelp.featureStructs)), report.byType)
      ensures res != VK_SUCCESS ==>
                deviceInitHelp.base.extensions.items == old(deviceInitHelp.base.extensions.items) &&
                deviceInitHelp.featureStructs == old(deviceInitHelp.featureStructs)
      ensures res == VK_SUCCESS ==>
                deviceInitHelp.base.extensionsEnumerated &&
                deviceInitHelp.base.extensions.items ==
                  WithAllEnabled(Enumerated(old(deviceInitHelp.base.extensions.items), extensionQuery), false) &&
                deviceInitHelp.featureStructs == WithAllStructs(old(deviceInitHelp.featureStructs), false)
      ensures deviceInitHelp.Valid()
    {
      this.physicalDevice := physicalDevice;

      deviceInitHelp.GetPhysicalDeviceFeatures(physicalDevice, report);
      res := deviceInitHelp.EnumerateExtensions(physicalDevice, extensionQuery);
      if res != VK_SUCCESS {
        return res;
      }
      deviceInitHelp.base.EnableAllExtensions(false);
      deviceInitHelp.EnableAllFeatureStructs(false);
      return VK_SUCCESS;
    }

    /** True exactly when the device extension is supported; a refusal is only logged. */
    method AddDeviceExtensionName(name: string) returns (ok: bool)
      requires deviceInitHelp.base.extensionsEnumerated
      modifies deviceInitHelp.base.extensions`items
      ensures Enabling(old(deviceInitHelp.base.extensions.items), name, true) == EnableOutcome(deviceInitHelp.base.extensions.items, ok)
      ensures ok == SupportedOf(old(deviceInitHelp.base.extensions.items), name)
    {
      ok := deviceInitHelp.base.EnableExtension(name, true);
    }
  }

  /**
    * On a fresh DeviceProperties, the query inside Init chains every
    * declared struct, last declared first, whatever Init returns.
    */
  method InitQueriesEveryStruct(structCatalogue: seq<(string, StructureType)>, report: FeatureReport,
                                extensionQuery: Enumeration)
    returns (res: VkResult, head: int, links: seq<int>)
    requires extensionQuery.Result() == VK_SUCCESS ==> extensionQuery.Loads()
    ensures ChainFrom(head, links, seq(|structCatalogue|, k requires 0 <= k < |structCatalogue| => |structCatalogue| - 1 - k))
  {
    var dp := new DeviceProperties([], structCatalogue);
    res := dp.Init(1, report, extensionQuery);
    head, links := dp.deviceInitHelp.headNext, dp.deviceInitHelp.pNext[..];
    AllDeclaredChained(structCatalogue);
  }
}
