/**
  * `InstanceProperties` (InstanceProperties.cpp): the instance-level
  * consumer of the helper. `Init` enumerates layers, then extensions, and
  * disables everything; the Add* methods request one layer or extension.
  */
module InstanceSetup {
  import opened VkTypes
  import opened Registry
  import opened InitHelp

  class InstanceProperties {
    const instanceInitHelp: InstanceInitHelp

    constructor (extensionCatalogue: seq<string>, layerCatalogue: seq<string>)
      ensures fresh(instanceInitHelp.Repr())
      ensures instanceInitHelp.base.extensions.items == Registered(extensionCatalogue)
      ensures instanceInitHelp.layers.items == Registered(layerCatalogue)
      ensures !instanceInitHelp.base.extensionsEnumerated && !instanceInitHelp.base.creationPrepared
      ensures !instanceInitHelp.layersEnumerated
      ensures instanceInitHelp.Valid()
    {
      instanceInitHelp := new InstanceInitHelp(extensionCatalogue, layerCatalogue);
    }

    /**
      * Both enumerations are asserted to succeed. EnableAllExtensions asserts
      * that the extensions are enumerated, which a zero-count extension
      * exchange does not achieve, hence the last precondition.
      */
    method Init(layerQuery: Enumeration, extensionQuery: Enumeration) returns (res: VkResult)
      requires instanceInitHelp.Valid()
      requires !instanceInitHelp.layersEnumerated
      requires layerQuery.Result() == VK_SUCCESS
      requires extensionQuery.Result() == VK_SUCCESS
      requires extensionQuery.Loads() != instanceInitHelp.base.extensionsEnumerated
      modifies instanceInitHelp`layersEnumerated, instanceInitHelp.layers`items
      modifies instanceInitHelp.base`extensionsEnumerated, instanceInitHelp.base.extensions`items
      ensures res == VK_SUCCESS
      ensures instanceInitHelp.layersEnumerated && instanceInitHelp.base.extensionsEnumerated
      ensures instanceInitHelp.layers.items == WithAllEnabled(Enumerated(old(instanceInitHelp.layers.items), layerQuery), false)
      ensures instanceInitHelp.base.extensions.items ==
              WithAllEnabled(Enumerated(old(instanceInitHelp.base.extensions.items), extensionQuery), false)
      ensures EnabledNames(instanceInitHelp.layers.items) == [] && EnabledNames(instanceInitHelp.base.extensions.items) == []
      ensures instanceInitHelp.Valid()
    {
      res := instanceInitHelp.EnumerateLayers(layerQuery);
      instanceInitHelp.EnableAllLayers(false);

      res := instanceInitHelp.EnumerateExtensions(extensionQuery);
      instanceInitHelp.base.EnableAllExtensions(false);

      AllDisabledListsNothing(Enumerated(old(instanceInitHelp.layers.items), layerQuery));
      AllDisabledListsNothing(Enumerated(old(instanceInitHelp.base.extensions.items), extensionQuery));
    }

    /** True exactly when the layer is supported; a refusal is only logged. */
    method AddInstanceLayerName(name: string) returns (ok: bool)
      requires instanceInitHelp.layersEnumerated
      modifies instanceInitHelp.layers`items
      ensures Enabling(old(instanceInitHelp.layers.items), name, true) == EnableOutcome(instanceInitHelp.layers.items, ok)
      ensures ok == SupportedOf(old(instanceInitHelp.layers.items), name)
    {
      ok := instanceInitHelp.EnableLayer(name, true);
    }

    /** True exactly when the extension is supported; a refusal is only logged. */
    method AddInstanceExtensionName(name: string) returns (ok: bool)
      requires instanceInitHelp.base.extensionsEnumerated
      modifies instanceInitHelp.base.extensions`items
      ensures Enabling(old(instanceInitHelp.base.extensions.items), name, true) == EnableOutcome(instanceInitHelp.base.extensions.items, ok)
      ensures ok == SupportedOf(old(instanceInitHelp.base.extensions.items), name)
    {
      ok := instanceInitHelp.base.EnableExtension(name, true);
    }
  }

  /**
    * Catalogue [a, b], runtime [a]: after Init, adding a succeeds, adding b
    * fails, and the prepared extension list is [a].
    */
  method FailedAddScenario() returns (addedA: bool, addedB: bool, names: Option<seq<string>>)
    ensures addedA && !addedB
    ensures names == Some(["VK_EXT_a"])
  {
    var ip := new InstanceProperties(["VK_EXT_a", "VK_EXT_b"], []);
    var res := ip.Init(Enumeration(VK_SUCCESS, 0, VK_SUCCESS, []), Enumeration(VK_SUCCESS, 1, VK_SUCCESS, ["VK_EXT_a"]));
    addedA := ip.AddInstanceExtensionName("VK_EXT_a");
    addedB := ip.AddInstanceExtensionName("VK_EXT_b");
    ghost var items := ip.instanceInitHelp.base.extensions.items;
    assert items == [Item("VK_EXT_a", true, true), Item("VK_EXT_b", false, false)] by {
      assert Names(items) == ["VK_EXT_a", "VK_EXT_b"];
    }
    assert items[..1] == [Item("VK_EXT_a", true, true)];
    assert EnabledNames(items) == ["VK_EXT_a"];
    ip.instanceInitHelp.PrepareCreation();
    names := ip.instanceInitHelp.base.EnabledExtensionNames();
  }

  /**
    * A runtime that reports no instance extensions: the exchange succeeds,
    * yet the extensions are not marked enumerated, so every later extension
    * call (`EnableAllExtensions` in `Init` among them) is outside its
    * precondition. Layers in the same situation are marked enumerated.
    */
  method ZeroCountExchange(extensionCatalogue: seq<string>, layerCatalogue: seq<string>)
    returns (extensionRes: VkResult, extensionsEnumerated: bool, layerRes: VkResult, layersEnumerated: bool)
    ensures extensionRes == VK_SUCCESS && !extensionsEnumerated
    ensures layerRes == VK_SUCCESS && layersEnumerated
  {
    var h := new InstanceInitHelp(extensionCatalogue, layerCatalogue);
    layerRes := h.EnumerateLayers(Enumeration(VK_SUCCESS, 0, VK_SUCCESS, []));
    extensionRes := h.EnumerateExtensions(Enumeration(VK_SUCCESS, 0, VK_SUCCESS, []));
    extensionsEnumerated, layersEnumerated := h.base.extensionsEnumerated, h.layersEnumerated;
  }
}
