/** The few Vulkan enumerations and value records the core passes around. Native objects
    are opaque handles. */
module Vk {

  datatype DescriptorType = StorageImage | CombinedImageSampler | UniformBuffer | StorageBuffer

  datatype ShaderStage = Compute

  datatype ImageLayout = Undefined | General

  /** An opaque native handle: the number of the native call that produced it and, for
      calls that produce several objects, the position within that call. */
  datatype Handle = Handle(call: nat, slot: nat)

  datatype Format = Format(code: nat)

  datatype Extent2D = Extent2D(width: nat, height: nat)

  /** A `VkDescriptorSetLayoutBinding`. */
  datatype LayoutBinding = LayoutBinding(
    binding: nat,
    descriptorType: DescriptorType,
    descriptorCount: nat,
    stage: ShaderStage)

  /** A `VkPushConstantRange`. */
  datatype PushConstantRange = PushConstantRange(stage: ShaderStage, offset: nat, size: nat)
}
