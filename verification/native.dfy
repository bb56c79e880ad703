/** The native Vulkan device as the core sees it. Every native call the core makes is
    numbered in issue order; call number `k` produces the handle `Handle(k, 0)` (or
    `Handle(k, 0)`, `Handle(k, 1)`, ... for calls producing several objects) unless `k`
    is one of the device's failing calls, in which case it returns that call's error
    code. The device keeps the log of every call it was asked to make, so the order in
    which the core issues its calls is observable. */
module Native {
  import opened Wrappers
  import opened Errors
  import opened Vk

  datatype BufferUsage = StorageUsage | UniformUsage

  /** The size of a memory allocation: what the device requires for an image or buffer. */
  datatype MemorySize = RequirementOf(resource: Handle)

  datatype Call =
    | CreateImage(format: Format, extent: Extent2D)
    | AllocateMemory(memoryType: nat, size: MemorySize)
    | BindImageMemory(image: Handle, imageMemory: Handle)
    | CreateImageView(viewedImage: Handle, viewFormat: Format)
    | CreateBuffer(usage: BufferUsage, byteSize: nat)
    | MapMemory(mappedMemory: Handle)
    | BindBufferMemory(buffer: Handle, bufferMemory: Handle)
    | CreateDescriptorSetLayout(bindings: seq<LayoutBinding>, pushDescriptor: bool)
    | CreatePipelineLayout(setLayouts: seq<Handle>, pushConstantRanges: seq<PushConstantRange>)
    | CreateComputePipeline(pipelineLayout: Handle, shader: Handle)
    | CreateDescriptorPool(poolSizes: map<DescriptorType, nat>, maxSets: nat)
    | AllocateDescriptorSets(pool: Handle, allocatedLayouts: seq<Handle>)

  /** `issued` calls were made so far; `failing` maps the numbers of the calls that fail
      to their `VkResult` codes. */
  datatype Device = Device(issued: nat, failing: map<nat, int>, log: seq<Call>)

  /** The result of a sequence of native calls together with the device after them. */
  datatype Outcome<T> = Outcome(result: VResult<T>, device: Device)

  /** None of the next `count` calls fails. */
  predicate NoneFail(dev: Device, count: nat) {
    forall c :: dev.issued <= c < dev.issued + count ==> c !in dev.failing
  }

  /** `r` and `after` are what attempting `calls` in order from `dev` gives: success and
      all calls logged when none fails, otherwise the error of the first failing call,
      after which nothing more is attempted. */
  ghost predicate Traced<T>(dev: Device, calls: seq<Call>, r: VResult<T>, after: Device) {
    && (r.Success? <==> NoneFail(dev, |calls|))
    && (r.Success? ==> after == dev.(issued := dev.issued + |calls|, log := dev.log + calls))
    && (r.Failure? ==> exists k :: FailsFirstAt(dev, calls, k, r.error, after))
  }

  /** Call `k` of `calls` is the first failing one, `error` is its code and `after` the
      device once it has been attempted. */
  ghost predicate FailsFirstAt(dev: Device, calls: seq<Call>, k: nat, error: Error, after: Device) {
    && k < |calls|
    && NoneFail(dev, k)
    && dev.issued + k in dev.failing
    && error == Vk(dev.failing[dev.issued + k])
    && after == dev.(issued := dev.issued + k + 1, log := dev.log + calls[..k + 1])
  }

  /** One native call producing one object. */
  function Invoke(dev: Device, call: Call): (o: Outcome<Handle>)
    ensures Traced(dev, [call], o.result, o.device)
    ensures o.result.Success? ==> o.result.value == Handle(dev.issued, 0)
  {
    var after := dev.(issued := dev.issued + 1, log := dev.log + [call]);
    if dev.issued in dev.failing then
      assert [call][..1] == [call];
      assert FailsFirstAt(dev, [call], 0, Vk(dev.failing[dev.issued]), after);
      Outcome(Failure(Vk(dev.failing[dev.issued])), after)
    else Outcome(Success(Handle(dev.issued, 0)), after)
  }

  /** One native call producing `count` objects. */
  function InvokeMany(dev: Device, call: Call, count: nat): (o: Outcome<seq<Handle>>)
    ensures Traced(dev, [call], o.result, o.device)
    ensures o.result.Success? ==>
      |o.result.value| == count && forall i :: 0 <= i < count ==> o.result.value[i] == Handle(dev.issued, i)
  {
    var single := Invoke(dev, call);
    if single.result.Failure? then Outcome(Failure(single.result.error), single.device)
    else Outcome(Success(seq(count, i requires 0 <= i < count => Handle(dev.issued, i))), single.device)
  }

  /** Attempting `calls1` and then, if all of them succeeded, `calls2`, is attempting
      `calls1 + calls2`. */
  lemma TracedThen<T, U>(dev: Device, calls1: seq<Call>, r1: VResult<T>, mid: Device,
                         calls2: seq<Call>, r2: VResult<U>, after: Device)
    requires Traced(dev, calls1, r1, mid) && r1.Success?
    requires Traced(mid, calls2, r2, after)
    ensures Traced(dev, calls1 + calls2, r2, after)
  {
    var n := |calls1|;
    if r2.Success? {
      assert NoneFail(dev, n + |calls2|);
    } else {
      var k: nat :| FailsFirstAt(mid, calls2, k, r2.error, after);
      assert (calls1 + calls2)[..n + k + 1] == calls1 + calls2[..k + 1];
      assert FailsFirstAt(dev, calls1 + calls2, n + k, r2.error, after);
    }
  }

  /** A failure in `calls1` is a failure of `calls1 + calls2`: the later calls are never
      attempted. */
  lemma TracedStop<T, U>(dev: Device, calls1: seq<Call>, r1: VResult<T>, after: Device, calls2: seq<Call>)
    requires Traced(dev, calls1, r1, after) && r1.Failure?
    ensures Traced<U>(dev, calls1 + calls2, Failure(r1.error), after)
  {
    var k: nat :| FailsFirstAt(dev, calls1, k, r1.error, after);
    assert (calls1 + calls2)[..k + 1] == calls1[..k + 1];
    assert FailsFirstAt(dev, calls1 + calls2, k, r1.error, after);
  }

  /** After a successful run, the log ends with the calls, in order. */
  lemma TracedLog<T>(dev: Device, calls: seq<Call>, r: VResult<T>, after: Device, from: nat, to: nat)
    requires Traced(dev, calls, r, after) && r.Success?
    requires from <= to <= |calls|
    ensures after.log[|dev.log| + from..|dev.log| + to] == calls[from..to]
  {
    assert after.log == dev.log + calls;
  }
}
