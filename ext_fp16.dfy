/**
  * `ExtFp16CheckExtensions` (ExtFp16.cpp): FP16 is used when both required
  * device extensions are supported and the queried payloads report
  * 16-bit storage buffers and float16 shader arithmetic; the two feature
  * structs are then enabled.
  */
module Fp16 {
  import opened VkTypes
  import opened Registry
  import opened FeatureChain
  import opened InitHelp
  import opened DeviceSetup

  const VK_KHR_16BIT_STORAGE_EXTENSION_NAME: string := "VK_KHR_16bit_storage"
  const VK_KHR_SHADER_FLOAT16_INT8_EXTENSION_NAME: string := "VK_KHR_shader_float16_int8"

  /** The catalogue names of the two feature structs whose generated accessors are read. */
  const STORAGE_16BIT_STRUCT: string := "VkPhysicalDevice16BitStorageFeatures"
  const FLOAT16_INT8_STRUCT: string := "VkPhysicalDeviceFloat16Int8FeaturesKHR"

  const STORAGE_BUFFER_16BIT_ACCESS: string := "storageBuffer16BitAccess"
  const SHADER_FLOAT16: string := "shaderFloat16"

  function RequiredExtensions(): seq<string> {
    [VK_KHR_16BIT_STORAGE_EXTENSION_NAME, VK_KHR_SHADER_FLOAT16_INT8_EXTENSION_NAME]
  }

  /** The registry after `AddDeviceExtensionName` was called on each name in turn. */
  function AddedInTurn(items: seq<Item>, names: seq<string>): seq<Item>
    decreases |names|
  {
    if |names| == 0 then items
    else Enabling(AddedInTurn(items, names[..|names| - 1]), names[|names| - 1], true).items
  }

  /** Both required extensions are supported by the registry. */
  predicate RequiredSupported(items: seq<Item>) {
    SupportedOf(items, VK_KHR_16BIT_STORAGE_EXTENSION_NAME) && SupportedOf(items, VK_KHR_SHADER_FLOAT16_INT8_EXTENSION_NAME)
  }

  /**
    * Adding names in turn never changes support, and every added name that
    * is supported ends up enabled: a later request for the same name
    * enables it again, and a request for another name leaves it alone.
    */
  lemma {:induction false} AddedInTurnEnables(items: seq<Item>, names: seq<string>)
    ensures forall n :: SupportedOf(AddedInTurn(items, names), n) == SupportedOf(items, n)
    ensures forall k :: 0 <= k < |names| && SupportedOf(items, names[k]) ==> EnabledOf(AddedInTurn(items, names), names[k])
    decreases |names|
  {
    if |names| > 0 {
      var init, last := names[..|names| - 1], names[|names| - 1];
      var before := AddedInTurn(items, init);
      AddedInTurnEnables(items, init);
      forall n ensures SupportedOf(AddedInTurn(items, names), n) == SupportedOf(items, n) {
        EnablingKeepsSupport(before, last, true, n);
      }
      forall k | 0 <= k < |names| && SupportedOf(items, names[k])
        ensures EnabledOf(AddedInTurn(items, names), names[k])
      {
        if names[k] == last {
          assert SupportedOf(before, last);
        } else {
          assert init[k] == names[k];
          EnablingKeepsOthers(before, last, true, names[k]);
        }
      }
    }
  }

  /** With both required extensions supported, adding them in turn enables both. */
  lemma RequiredAddedAreEnabled(items: seq<Item>)
    requires RequiredSupported(items)
    ensures EnabledOf(AddedInTurn(items, RequiredExtensions()), VK_KHR_16BIT_STORAGE_EXTENSION_NAME)
    ensures EnabledOf(AddedInTurn(items, RequiredExtensions()), VK_KHR_SHADER_FLOAT16_INT8_EXTENSION_NAME)
  {
    var names := RequiredExtensions();
    AddedInTurnEnables(items, names);
    assert names[0] == VK_KHR_16BIT_STORAGE_EXTENSION_NAME && names[1] == VK_KHR_SHADER_FLOAT16_INT8_EXTENSION_NAME;
  }

  /**
    * The loop over the required names: every name is requested, even after
    * one was refused; the result says whether all were accepted.
    */
  method AddRequiredExtensions(dp: DeviceProperties) returns (allAdded: bool)
    requires dp.deviceInitHelp.base.extensionsEnumerated
    modifies dp.deviceInitHelp.base.extensions`items
    ensures dp.deviceInitHelp.base.extensions.items ==
            AddedInTurn(old(dp.deviceInitHelp.base.extensions.items), RequiredExtensions())
    ensures allAdded == RequiredSupported(old(dp.deviceInitHelp.base.extensions.items))
  {
    ghost var items0 := dp.deviceInitHelp.base.extensions.items;
    var requiredExtensionNames := RequiredExtensions();

    allAdded := true;
    for i := 0 to |requiredExtensionNames|
      invariant dp.deviceInitHelp.base.extensionsEnumerated
      invariant dp.deviceInitHelp.base.extensions.items == AddedInTurn(items0, requiredExtensionNames[..i])
      invariant allAdded == forall j :: 0 <= j < i ==> SupportedOf(items0, requiredExtensionNames[j])
    {
      assert requiredExtensionNames[..i + 1][..i] == requiredExtensionNames[..i];
      AddedInTurnEnables(items0, requiredExtensionNames[..i]);
      var added := dp.AddDeviceExtensionName(requiredExtensionNames[i]);
      if !added {
        allAdded := false;
      }
    }
    assert requiredExtensionNames[..2] == requiredExtensionNames;
  }

  method ExtFp16CheckExtensions(dp: DeviceProperties) returns (fp16Enabled: bool)
    requires dp.deviceInitHelp.Valid() && dp.deviceInitHelp.base.extensionsEnumerated
    requires STORAGE_16BIT_STRUCT in StructNames(dp.deviceInitHelp.featureStructs)
    requires FLOAT16_INT8_STRUCT in StructNames(dp.deviceInitHelp.featureStructs)
    requires RequiredSupported(dp.deviceInitHelp.base.extensions.items) ==> dp.deviceInitHelp.featuresQueried
    modifies dp.deviceInitHelp.base.extensions`items, dp.deviceInitHelp`featureStructs
    ensures dp.deviceInitHelp.base.extensions.items ==
            AddedInTurn(old(dp.deviceInitHelp.base.extensions.items), RequiredExtensions())
    ensures fp16Enabled ==
            (RequiredSupported(old(dp.deviceInitHelp.base.extensions.items)) &&
             old(STORAGE_BUFFER_16BIT_ACCESS in dp.deviceInitHelp.FeatureStructPayload(STORAGE_16BIT_STRUCT)) &&
             old(SHADER_FLOAT16 in dp.deviceInitHelp.FeatureStructPayload(FLOAT16_INT8_STRUCT)))
    ensures fp16Enabled ==>
              EnabledOf(dp.deviceInitHelp.base.extensions.items, VK_KHR_16BIT_STORAGE_EXTENSION_NAME) &&
              EnabledOf(dp.deviceInitHelp.base.extensions.items, VK_KHR_SHADER_FLOAT16_INT8_EXTENSION_NAME)
    ensures dp.deviceInitHelp.featureStructs ==
            if fp16Enabled then
              WithStructFlag(
                WithStructFlag(old(dp.deviceInitHelp.featureStructs),
                  FirstIndex(StructTypes(old(dp.deviceInitHelp.featureStructs)), VK_STRUCTURE_TYPE_PHYSICAL_DEVICE_16BIT_STORAGE_FEATURES), true),
                FirstIndex(StructTypes(old(dp.deviceInitHelp.featureStructs)), VK_STRUCTURE_TYPE_PHYSICAL_DEVICE_FLOAT16_INT8_FEATURES_KHR), true)
            else old(dp.deviceInitHelp.featureStructs)
    ensures fp16Enabled && VK_STRUCTURE_TYPE_PHYSICAL_DEVICE_16BIT_STORAGE_FEATURES in StructTypes(dp.deviceInitHelp.featureStructs) ==>
              StructEnabledByType(dp.deviceInitHelp.featureStructs, VK_STRUCTURE_TYPE_PHYSICAL_DEVICE_16BIT_STORAGE_FEATURES)
    ensures fp16Enabled && VK_STRUCTURE_TYPE_PHYSICAL_DEVICE_FLOAT16_INT8_FEATURES_KHR in StructTypes(dp.deviceInitHelp.featureStructs) ==>
              StructEnabledByType(dp.deviceInitHelp.featureStructs, VK_STRUCTURE_TYPE_PHYSICAL_DEVICE_FLOAT16_INT8_FEATURES_KHR)
  {
    var help := dp.deviceInitHelp;
    ghost var items0 := help.base.extensions.items;

    fp16Enabled := AddRequiredExtensions(dp);

    if fp16Enabled {
      RequiredAddedAreEnabled(items0);
      fp16Enabled := fp16Enabled && STORAGE_BUFFER_16BIT_ACCESS in help.FeatureStructPayload(STORAGE_16BIT_STRUCT);
      fp16Enabled := fp16Enabled && SHADER_FLOAT16 in help.FeatureStructPayload(FLOAT16_INT8_STRUCT);
    }

    if fp16Enabled {
      help.EnableFeatureStructByType(VK_STRUCTURE_TYPE_PHYSICAL_DEVICE_16BIT_STORAGE_FEATURES, true);
      help.EnableFeatureStructByType(VK_STRUCTURE_TYPE_PHYSICAL_DEVICE_FLOAT16_INT8_FEATURES_KHR, true);
    }
  }
}
