/** The compute pipeline's descriptor accounting (`Pipeline` in `pipeline.rs`): the
    binding builder, the fixed binding list, the pool sizes, the push-constant range, the
    creation sequence and the descriptor-set index requirement. */
module Pipeline {
  import opened Wrappers
  import opened Errors
  import opened Vk
  import opened Native

  /** `make_binding`: one descriptor, visible to the compute stage. */
  function MakeBinding(binding: nat, descriptorType: DescriptorType): (r: LayoutBinding)
    ensures r.binding == binding && r.descriptorType == descriptorType
    ensures r.descriptorCount == 1 && r.stage == Compute
  {
    LayoutBinding(binding, descriptorType, 1, Compute)
  }

  /** `create_descriptor_set_layout_bindings`: the presented image at binding 0 and the
      storage buffer at binding 1. */
  function FixedBindings(): (r: seq<LayoutBinding>)
    ensures |r| == 2
    ensures forall k :: 0 <= k < |r| ==> r[k].binding == k && r[k].descriptorCount == 1 && r[k].stage == Compute
    ensures r[0].descriptorType == StorageImage && r[1].descriptorType == StorageBuffer
  {
    [MakeBinding(0, StorageImage), MakeBinding(1, StorageBuffer)]
  }

  /** The accumulation in `create_descriptor_pool`: the count of a type is looked up with
      default 1 and stored back unchanged, so it never grows. */
  function PoolSizes(bindings: seq<LayoutBinding>): (r: map<DescriptorType, nat>)
    ensures r.Keys == set i | 0 <= i < |bindings| :: bindings[i].descriptorType
    ensures forall t :: t in r ==> r[t] == 1
    decreases |bindings|
  {
    if |bindings| == 0 then map[]
    else
      var prefix := bindings[..|bindings| - 1];
      var accumulated := PoolSizes(prefix);
      var t := bindings[|bindings| - 1].descriptorType;
      var newCount := if t in accumulated then accumulated[t] else 1;
      assert forall i :: 0 <= i < |prefix| ==> prefix[i] == bindings[i];
      accumulated[t := newCount]
  }

  /** How many bindings have type `t`. */
  function CountOfType(bindings: seq<LayoutBinding>, t: DescriptorType): nat
    decreases |bindings|
  {
    if |bindings| == 0 then 0
    else CountOfType(bindings[..|bindings| - 1], t) + (if bindings[|bindings| - 1].descriptorType == t then 1 else 0)
  }

  /** A type is present exactly when some binding has it. */
  lemma {:induction false} CountOfTypePositive(bindings: seq<LayoutBinding>, t: DescriptorType)
    ensures CountOfType(bindings, t) > 0 <==> exists i :: 0 <= i < |bindings| && bindings[i].descriptorType == t
    decreases |bindings|
  {
    if |bindings| > 0 {
      var prefix := bindings[..|bindings| - 1];
      CountOfTypePositive(prefix, t);
      if exists i :: 0 <= i < |prefix| && prefix[i].descriptorType == t {
        var i :| 0 <= i < |prefix| && prefix[i].descriptorType == t;
        assert bindings[i] == prefix[i];
      }
      if exists i :: 0 <= i < |bindings| && bindings[i].descriptorType == t {
        var i :| 0 <= i < |bindings| && bindings[i].descriptorType == t;
        if i < |prefix| {
          assert prefix[i] == bindings[i];
        }
      }
    }
  }

  /** The pool reserves one descriptor per type present, however many bindings of that
      type there are: it is exact only for types that occur once. */
  lemma PoolSizesUndercount(bindings: seq<LayoutBinding>, t: DescriptorType)
    ensures t in PoolSizes(bindings) <==> CountOfType(bindings, t) > 0
    ensures t in PoolSizes(bindings) ==> PoolSizes(bindings)[t] <= CountOfType(bindings, t)
    ensures t in PoolSizes(bindings) ==> (PoolSizes(bindings)[t] == CountOfType(bindings, t) <==> CountOfType(bindings, t) == 1)
  {
    CountOfTypePositive(bindings, t);
  }

  /** Two storage images in the bindings still give a pool with room for one. */
  lemma PoolSizesExample()
    ensures PoolSizes([MakeBinding(0, StorageImage), MakeBinding(1, StorageImage)]) == map[StorageImage := 1]
    ensures CountOfType([MakeBinding(0, StorageImage), MakeBinding(1, StorageImage)], StorageImage) == 2
  {
    var bs := [MakeBinding(0, StorageImage), MakeBinding(1, StorageImage)];
    assert bs[..1] == [MakeBinding(0, StorageImage)];
    assert bs[..1][..0] == [];
  }

  /** The pool of the fixed binding list: one storage image and one storage buffer. */
  lemma FixedPoolSizes()
    ensures PoolSizes(FixedBindings()) == map[StorageImage := 1, StorageBuffer := 1]
  {
    var bs := FixedBindings();
    assert bs[..1] == [MakeBinding(0, StorageImage)];
    assert bs[..1][..0] == [];
  }

  /** The range of `create_compute_pipeline_layout`: offset 0, the byte size of the push
      constants truncated to 32 bits by `as u32`, compute stage. */
  function PushConstantRangeOf(pushConstantsSize: nat): (r: PushConstantRange)
    ensures r.stage == Compute && r.offset == 0
    ensures r.size < 0x1_0000_0000
    ensures pushConstantsSize < 0x1_0000_0000 ==> r.size == pushConstantsSize
    ensures (r.size - pushConstantsSize) % 0x1_0000_0000 == 0
  {
    PushConstantRange(Compute, 0, pushConstantsSize % 0x1_0000_0000)
  }

  /** `create_descriptor_pool`: one native call creating a pool with the accumulated
      sizes that allows `setCount` sets. */
  function NewDescriptorPool(dev: Device, bindings: seq<LayoutBinding>, setCount: nat): (o: Outcome<Handle>)
    ensures Traced(dev, [CreateDescriptorPool(PoolSizes(bindings), setCount)], o.result, o.device)
  {
    Invoke(dev, CreateDescriptorPool(PoolSizes(bindings), setCount))
  }

  /** The `set_count` `Pipeline::new` passes to `create_descriptor_pool`. */
  const PoolSetCount: nat := 3

  /** The number of descriptor sets `create_descriptor_sets` allocates, independently of
      the pool's `set_count`. */
  const SetCount: nat := 3

  datatype Pipeline = Pipeline(
    setLayout: Handle,
    pipelineLayout: Handle,
    computePipeline: Handle,
    descriptorPool: Handle,
    descriptorSets: seq<Handle>)

  /** The first three native calls of `Pipeline::new`, starting at call number `base`:
      the set layout, the pipeline layout over it, the compute pipeline. */
  function ObjectCalls(shader: Handle, pushConstantsSize: nat, base: nat): seq<Call> {
    [CreateDescriptorSetLayout(FixedBindings(), false),
     CreatePipelineLayout([Handle(base, 0)], [PushConstantRangeOf(pushConstantsSize)]),
     CreateComputePipeline(Handle(base + 1, 0), shader)]
  }

  /** The native calls of `Pipeline::new`, starting at call number `base`: the three
      objects, then a pool with one storage image and one storage buffer allowing
      `PoolSetCount` sets, then `SetCount` sets of the set layout. */
  function PipelineCalls(shader: Handle, pushConstantsSize: nat, base: nat): seq<Call> {
    var setLayout := Handle(base, 0);
    ObjectCalls(shader, pushConstantsSize, base) +
    [CreateDescriptorPool(map[StorageImage := 1, StorageBuffer := 1], PoolSetCount),
     AllocateDescriptorSets(Handle(base + 3, 0), [setLayout, setLayout, setLayout])]
  }

  /** The set layout, pipeline layout and compute pipeline of `Pipeline::new`. */
  function NewPipelineObjects(dev: Device, shader: Handle, pushConstantsSize: nat): (o: Outcome<(Handle, Handle, Handle)>)
    ensures o.result.Success? ==>
      o.result.value == (Handle(dev.issued, 0), Handle(dev.issued + 1, 0), Handle(dev.issued + 2, 0))
  {
    var setLayout := Invoke(dev, CreateDescriptorSetLayout(FixedBindings(), false));
    if setLayout.result.Failure? then Outcome(Failure(setLayout.result.error), setLayout.device)
    else
      var pipelineLayout := Invoke(setLayout.device,
        CreatePipelineLayout([setLayout.result.value], [PushConstantRangeOf(pushConstantsSize)]));
      if pipelineLayout.result.Failure? then Outcome(Failure(pipelineLayout.result.error), pipelineLayout.device)
      else
        var pipeline := Invoke(pipelineLayout.device, CreateComputePipeline(pipelineLayout.result.value, shader));
        if pipeline.result.Failure? then Outcome(Failure(pipeline.result.error), pipeline.device)
        else Outcome(Success((setLayout.result.value, pipelineLayout.result.value, pipeline.result.value)), pipeline.device)
  }

  /** The three objects are created in order, stopping at the first call that fails. */
  lemma NewPipelineObjectsSteps(dev: Device, shader: Handle, pushConstantsSize: nat)
    ensures var o := NewPipelineObjects(dev, shader, pushConstantsSize);
      Traced(dev, ObjectCalls(shader, pushConstantsSize, dev.issued), o.result, o.device)
  {
    var calls := ObjectCalls(shader, pushConstantsSize, dev.issued);
    var o1 := Invoke(dev, calls[0]);
    if o1.result.Failure? {
      TracedStop<Handle, (Handle, Handle, Handle)>(dev, [calls[0]], o1.result, o1.device, calls[1..]);
      assert [calls[0]] + calls[1..] == calls;
    } else {
      var o2 := Invoke(o1.device, calls[1]);
      TracedThen(dev, [calls[0]], o1.result, o1.device, [calls[1]], o2.result, o2.device);
      assert [calls[0]] + [calls[1]] == calls[..2];
      if o2.result.Failure? {
        TracedStop<Handle, (Handle, Handle, Handle)>(dev, calls[..2], o2.result, o2.device, calls[2..]);
        assert calls[..2] + calls[2..] == calls;
      } else {
        var o3 := Invoke(o2.device, calls[2]);
        TracedThen(dev, calls[..2], o2.result, o2.device, [calls[2]], o3.result, o3.device);
        assert calls[..2] + [calls[2]] == calls;
      }
    }
  }

  /** `Pipeline::new`. */
  function NewPipeline(dev: Device, shader: Handle, pushConstantsSize: nat): (o: Outcome<Pipeline>)
    ensures o.result.Success? ==> |o.result.value.descriptorSets| == SetCount
    ensures o.result.Success? ==>
      forall i :: 0 <= i < SetCount ==> o.result.value.descriptorSets[i] == Handle(dev.issued + 4, i)
  {
    var objects := NewPipelineObjects(dev, shader, pushConstantsSize);
    if objects.result.Failure? then Outcome(Failure(objects.result.error), objects.device)
    else
      NewPipelineObjectsSteps(dev, shader, pushConstantsSize);
      var (setLayout, pipelineLayout, computePipeline) := objects.result.value;
      var pool := NewDescriptorPool(objects.device, FixedBindings(), PoolSetCount);
      if pool.result.Failure? then Outcome(Failure(pool.result.error), pool.device)
      else
        var layouts := seq(SetCount, _ => setLayout);
        var sets := InvokeMany(pool.device, AllocateDescriptorSets(pool.result.value, layouts), SetCount);
        if sets.result.Failure? then Outcome(Failure(sets.result.error), sets.device)
        else Outcome(Success(Pipeline(setLayout, pipelineLayout, computePipeline, pool.result.value, sets.result.value)), sets.device)
  }

  /** `Pipeline::new` issues its five calls in order and stops at the first that fails:
      the pool is sized for one storage image and one storage buffer and allows
      `PoolSetCount` sets, and `SetCount` sets of the one layout are allocated. */
  lemma NewPipelineSteps(dev: Device, shader: Handle, pushConstantsSize: nat)
    ensures var o := NewPipeline(dev, shader, pushConstantsSize);
      Traced(dev, PipelineCalls(shader, pushConstantsSize, dev.issued), o.result, o.device)
  {
    var calls := PipelineCalls(shader, pushConstantsSize, dev.issued);
    var first := ObjectCalls(shader, pushConstantsSize, dev.issued);
    var objects := NewPipelineObjects(dev, shader, pushConstantsSize);
    NewPipelineObjectsSteps(dev, shader, pushConstantsSize);
    if objects.result.Failure? {
      TracedStop<(Handle, Handle, Handle), Pipeline>(dev, first, objects.result, objects.device, calls[3..]);
      assert first + calls[3..] == calls;
    } else {
      FixedPoolSizes();
      var pool := NewDescriptorPool(objects.device, FixedBindings(), PoolSetCount);
      TracedThen(dev, first, objects.result, objects.device, [calls[3]], pool.result, pool.device);
      assert first + [calls[3]] == calls[..4];
      if pool.result.Failure? {
        TracedStop<Handle, Pipeline>(dev, calls[..4], pool.result, pool.device, calls[4..]);
        assert calls[..4] + calls[4..] == calls;
      } else {
        var setLayout := Handle(dev.issued, 0);
        assert seq(SetCount, _ => setLayout) == [setLayout, setLayout, setLayout];
        var sets := InvokeMany(pool.device, calls[4], SetCount);
        TracedThen(dev, calls[..4], pool.result, pool.device, [calls[4]], sets.result, sets.device);
        assert calls[..4] + [calls[4]] == calls;
      }
    }
  }

  /** `bind_descriptor_set`: the set at `index`, which must exist. */
  function BindDescriptorSet(p: Pipeline, index: nat): (r: Handle)
    requires index < |p.descriptorSets|
    ensures r in p.descriptorSets
  {
    p.descriptorSets[index]
  }

  /** Every index below `SetCount` may be bound on a freshly created pipeline, and
      distinct indices bind distinct sets. Distinctness follows from the device model,
      where the allocation call returns one handle per slot; pipeline.rs takes the sets
      as the driver returns them and does not check it. */
  lemma BindDescriptorSetIndices(dev: Device, shader: Handle, pushConstantsSize: nat, i: nat, j: nat)
    requires NewPipeline(dev, shader, pushConstantsSize).result.Success?
    requires i < SetCount && j < SetCount
    ensures var p := NewPipeline(dev, shader, pushConstantsSize).result.value;
      i < |p.descriptorSets| && j < |p.descriptorSets| &&
      (i != j ==> BindDescriptorSet(p, i) != BindDescriptorSet(p, j))
  {
    NewPipelineSteps(dev, shader, pushConstantsSize);
  }
}
