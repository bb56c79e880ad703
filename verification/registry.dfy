/** The part of the `Vulkan` context the replication code reads and writes: the device,
    the surface's desired image count, the shared sampler, the memory types for images
    and buffers, the queue of images still waiting for their first layout transition,
    and the registry that maps each resource name to the handles bound under it. */
module Registry {
  import opened Errors
  import opened Vk
  import opened Native

  /** An entry of the stale-image queue: the image must go from `oldLayout` to
      `newLayout` before it is first used. */
  datatype StaleImage = StaleImage(name: string, image: Handle, oldLayout: ImageLayout, newLayout: ImageLayout)

  /** What is registered under a name: (view, sampler) pairs for an image, buffer handles
      for a buffer. */
  datatype Registration = ImageViews(pairs: seq<(Handle, Handle)>) | Buffers(buffers: seq<Handle>)

  datatype Vulkan = Vulkan(
    device: Device,
    desiredImageCount: nat,
    sampler: Handle,
    imageMemoryType: nat,
    bufferMemoryType: nat,
    staleImages: seq<StaleImage>,
    registry: map<string, Registration>)

  /** The result of an operation on the context together with the context after it. */
  datatype Updated<T> = Updated(result: VResult<T>, vulkan: Vulkan)

  /** `register_image`: the name's entry is replaced by the given pairs. */
  function RegisterImage(v: Vulkan, name: string, pairs: seq<(Handle, Handle)>): (r: Vulkan)
    ensures name in r.registry && r.registry[name] == ImageViews(pairs)
    ensures forall other :: other != name ==> (other in r.registry <==> other in v.registry)
    ensures forall other :: other != name && other in v.registry ==> r.registry[other] == v.registry[other]
    ensures r.(registry := v.registry) == v
  {
    v.(registry := v.registry[name := ImageViews(pairs)])
  }

  /** `register_buffer`: the name's entry is replaced by the given buffers. */
  function RegisterBuffer(v: Vulkan, name: string, buffers: seq<Handle>): (r: Vulkan)
    ensures name in r.registry && r.registry[name] == Buffers(buffers)
    ensures forall other :: other != name ==> (other in r.registry <==> other in v.registry)
    ensures forall other :: other != name && other in v.registry ==> r.registry[other] == v.registry[other]
    ensures r.(registry := v.registry) == v
  {
    v.(registry := v.registry[name := Buffers(buffers)])
  }
}
