/** Vulkan values the capability helper exchanges with the driver. */
module VkTypes {

  /** A VkResult code: VK_SUCCESS is 0, every other value is a driver status. */
  type VkResult = int
  const VK_SUCCESS: VkResult := 0

  /** A VkPhysicalDevice handle; VK_NULL_HANDLE is 0. */
  type PhysicalDevice = nat
  const VK_NULL_HANDLE: PhysicalDevice := 0

  /** A VkStructureType discriminant. */
  type StructureType = int
  const VK_STRUCTURE_TYPE_PHYSICAL_DEVICE_FLOAT16_INT8_FEATURES_KHR: StructureType := 1000082000
  const VK_STRUCTURE_TYPE_PHYSICAL_DEVICE_16BIT_STORAGE_FEATURES: StructureType := 1000083000

  /** The range of the `uint32_t` the count getters cast to. */
  const UINT32_LIMIT: int := 0x1_0000_0000
  type uint32 = x: int | 0 <= x < UINT32_LIMIT

  datatype Option<T> = None | Some(value: T)

  /**
    * One use of a two-call vkEnumerate*Properties function: the first call
    * reports `countResult` and a `count`; when that succeeded with a non-zero
    * count, the second call reports `listResult` and the property names.
    */
  datatype Enumeration = Enumeration(countResult: VkResult, count: nat, listResult: VkResult, names: seq<string>)
  {
    /** Both calls succeeded and the names were handed to the registry. */
    predicate Loads() {
      countResult == VK_SUCCESS && count > 0 && listResult == VK_SUCCESS
    }

    /** The code the helper's Enumerate* method returns for this exchange. */
    function Result(): VkResult {
      if countResult != VK_SUCCESS then countResult
      else if count > 0 && listResult != VK_SUCCESS then listResult
      else VK_SUCCESS
    }
  }
}
