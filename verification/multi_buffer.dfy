/** N-fold buffers (`MultiBuffer`): one unit (buffer, memory, host mapping) per frame in
    flight, created all or nothing and registered under a name. */
module MultiBuffers {
  import opened Wrappers
  import opened Errors
  import opened Vk
  import opened Native
  import opened Registry

  /** `mapping` is the host address of the mapped memory, an opaque handle here. */
  datatype BufferUnit = BufferUnit(buffer: Handle, memory: Handle, mapping: Handle)

  datatype MultiBuffer = MultiBuffer(units: seq<BufferUnit>)

  /** The native calls of one unit, starting at call number `base`: create the buffer,
      allocate memory of the size the buffer requires, map that memory, bind it. */
  function BufferUnitCalls(memoryType: nat, usage: BufferUsage, size: nat, base: nat): seq<Call> {
    var buffer, memory := Handle(base, 0), Handle(base + 1, 0);
    [CreateBuffer(usage, size), AllocateMemory(memoryType, RequirementOf(buffer)),
     MapMemory(memory), BindBufferMemory(buffer, memory)]
  }

  /** The unit whose calls start at call number `base`. */
  function BufferUnitAt(base: nat): BufferUnit {
    BufferUnit(Handle(base, 0), Handle(base + 1, 0), Handle(base + 2, 0))
  }

  /** `MultiBufferUnit::new`. */
  function NewBufferUnit(dev: Device, memoryType: nat, usage: BufferUsage, size: nat): (o: Outcome<BufferUnit>)
    ensures o.result.Success? ==> o.result.value == BufferUnitAt(dev.issued)
  {
    var buffer := Invoke(dev, CreateBuffer(usage, size));
    if buffer.result.Failure? then Outcome(Failure(buffer.result.error), buffer.device)
    else
      var memory := Invoke(buffer.device, AllocateMemory(memoryType, RequirementOf(buffer.result.value)));
      if memory.result.Failure? then Outcome(Failure(memory.result.error), memory.device)
      else
        var mapping := Invoke(memory.device, MapMemory(memory.result.value));
        if mapping.result.Failure? then Outcome(Failure(mapping.result.error), mapping.device)
        else
          var bind := Invoke(mapping.device, BindBufferMemory(buffer.result.value, memory.result.value));
          if bind.result.Failure? then Outcome(Failure(bind.result.error), bind.device)
          else Outcome(Success(BufferUnit(buffer.result.value, memory.result.value, mapping.result.value)), bind.device)
  }

  /** A unit issues its four calls in order and stops at the first that fails. */
  lemma NewBufferUnitSteps(dev: Device, memoryType: nat, usage: BufferUsage, size: nat)
    ensures var o := NewBufferUnit(dev, memoryType, usage, size);
      Traced(dev, BufferUnitCalls(memoryType, usage, size, dev.issued), o.result, o.device)
  {
    var calls := BufferUnitCalls(memoryType, usage, size, dev.issued);
    var buffer := Invoke(dev, calls[0]);
    if buffer.result.Failure? {
      TracedStop<Handle, BufferUnit>(dev, [calls[0]], buffer.result, buffer.device, calls[1..]);
      assert [calls[0]] + calls[1..] == calls;
    } else {
      var memory := Invoke(buffer.device, calls[1]);
      TracedThen(dev, [calls[0]], buffer.result, buffer.device, [calls[1]], memory.result, memory.device);
      assert [calls[0]] + [calls[1]] == calls[..2];
      if memory.result.Failure? {
        TracedStop<Handle, BufferUnit>(dev, calls[..2], memory.result, memory.device, calls[2..]);
        assert calls[..2] + calls[2..] == calls;
      } else {
        var mapping := Invoke(memory.device, calls[2]);
        TracedThen(dev, calls[..2], memory.result, memory.device, [calls[2]], mapping.result, mapping.device);
        assert calls[..2] + [calls[2]] == calls[..3];
        if mapping.result.Failure? {
          TracedStop<Handle, BufferUnit>(dev, calls[..3], mapping.result, mapping.device, calls[3..]);
          assert calls[..3] + calls[3..] == calls;
        } else {
          var bind := Invoke(mapping.device, calls[3]);
          TracedThen(dev, calls[..3], mapping.result, mapping.device, [calls[3]], bind.result, bind.device);
          assert calls[..3] + [calls[3]] == calls;
        }
      }
    }
  }

  /** The calls of `n` units issued one after the other from call number `base`. */
  function BufferUnitsCalls(memoryType: nat, usage: BufferUsage, size: nat, base: nat, n: nat): (r: seq<Call>)
    ensures |r| == 4 * n
    ensures forall k :: 0 <= k < n ==> r[4 * k..4 * k + 4] == BufferUnitCalls(memoryType, usage, size, base + 4 * k)
  {
    if n == 0 then []
    else
      var front := BufferUnitsCalls(memoryType, usage, size, base, n - 1);
      var last := BufferUnitCalls(memoryType, usage, size, base + 4 * (n - 1));
      var r := front + last;
      assert forall k :: 0 <= k < n - 1 ==> r[4 * k..4 * k + 4] == front[4 * k..4 * k + 4];
      assert r[4 * (n - 1)..4 * n] == last;
      r
  }

  /** `MultiBuffer::new`: `n` units, or the error of the first unit that could not be
      created; the units created before it are dropped. */
  function NewBufferUnits(dev: Device, memoryType: nat, usage: BufferUsage, size: nat, n: nat): (o: Outcome<seq<BufferUnit>>)
    ensures o.result.Success? ==> |o.result.value| == n
    ensures o.result.Success? ==> forall k :: 0 <= k < n ==> o.result.value[k] == BufferUnitAt(dev.issued + 4 * k)
    ensures Traced(dev, BufferUnitsCalls(memoryType, usage, size, dev.issued, n), o.result, o.device)
  {
    if n == 0 then Outcome(Success([]), dev)
    else
      var front := NewBufferUnits(dev, memoryType, usage, size, n - 1);
      var calls := BufferUnitsCalls(memoryType, usage, size, dev.issued, n);
      var frontCalls := BufferUnitsCalls(memoryType, usage, size, dev.issued, n - 1);
      var lastCalls := BufferUnitCalls(memoryType, usage, size, dev.issued + 4 * (n - 1));
      assert calls == frontCalls + lastCalls;
      if front.result.Failure? then
        TracedStop<seq<BufferUnit>, seq<BufferUnit>>(dev, frontCalls, front.result, front.device, lastCalls);
        Outcome(Failure(front.result.error), front.device)
      else
        var unit := NewBufferUnit(front.device, memoryType, usage, size);
        NewBufferUnitSteps(front.device, memoryType, usage, size);
        TracedThen(dev, frontCalls, front.result, front.device, lastCalls, unit.result, unit.device);
        if unit.result.Failure? then Outcome(Failure(unit.result.error), unit.device)
        else Outcome(Success(front.result.value + [unit.result.value]), unit.device)
  }

  /** Unit `k` is built by the four calls `4 k` to `4 k + 3` of the log, in the order
      buffer, memory sized to the buffer, mapping of that memory, bind. */
  lemma NewBufferUnitsLog(dev: Device, memoryType: nat, usage: BufferUsage, size: nat, n: nat, k: nat)
    requires k < n
    requires NewBufferUnits(dev, memoryType, usage, size, n).result.Success?
    ensures var o := NewBufferUnits(dev, memoryType, usage, size, n);
      && o.result.value[k] == BufferUnitAt(dev.issued + 4 * k)
      && o.device.log[|dev.log| + 4 * k..|dev.log| + 4 * k + 4] == BufferUnitCalls(memoryType, usage, size, dev.issued + 4 * k)
  {
    var o := NewBufferUnits(dev, memoryType, usage, size, n);
    BufferUnitsSlice(dev, memoryType, usage, size, n, k, o.result, o.device);
  }

  /** Unit `k`'s slice of a successful run of the calls of `n` units. */
  lemma BufferUnitsSlice(dev: Device, memoryType: nat, usage: BufferUsage, size: nat, n: nat, k: nat, r: VResult<seq<BufferUnit>>, after: Device)
    requires k < n
    requires Traced(dev, BufferUnitsCalls(memoryType, usage, size, dev.issued, n), r, after) && r.Success?
    ensures after.log[|dev.log| + 4 * k..|dev.log| + 4 * k + 4] == BufferUnitCalls(memoryType, usage, size, dev.issued + 4 * k)
  {
    var calls := BufferUnitsCalls(memoryType, usage, size, dev.issued, n);
    TracedLog(dev, calls, r, after, 4 * k, 4 * k + 4);
  }

  /** `MultiBuffer::mapped`: the host mapping of unit `index`. */
  function Mapped(buffer: MultiBuffer, index: nat): (r: Handle)
    requires index < |buffer.units|
    ensures exists u :: u in buffer.units && r == u.mapping
  {
    buffer.units[index].mapping
  }

  /** The buffer handles of the units, in unit order. */
  function BufferHandles(units: seq<BufferUnit>): (r: seq<Handle>)
    ensures |r| == |units| && forall k :: 0 <= k < |units| ==> r[k] == units[k].buffer
  {
    seq(|units|, k requires 0 <= k < |units| => units[k].buffer)
  }

  /** `Vulkan::new_multi_buffer`: only the registry changes besides the device; the
      stale-image queue is left alone. */
  function NewMultiBuffer(v: Vulkan, name: string, usage: BufferUsage, size: nat, numBuffers: Option<nat>): (r: Updated<MultiBuffer>)
    ensures var n := numBuffers.GetOr(v.desiredImageCount);
      r.result.Success? <==> NoneFail(v.device, 4 * n)
    ensures r.result.Success? ==> |r.result.value.units| == numBuffers.GetOr(v.desiredImageCount)
    ensures r.result.Failure? ==> r.vulkan == v.(device := r.vulkan.device)
    ensures r.result.Success? ==>
      var units := r.result.value.units;
      && r.vulkan.registry == v.registry[name := Buffers(BufferHandles(units))]
      && r.vulkan == v.(device := r.vulkan.device, registry := r.vulkan.registry)
    ensures Traced(v.device, BufferUnitsCalls(v.bufferMemoryType, usage, size, v.device.issued, numBuffers.GetOr(v.desiredImageCount)), r.result, r.vulkan.device)
    ensures r.result.Success? ==> forall k :: 0 <= k < |r.result.value.units| ==> r.result.value.units[k] == BufferUnitAt(v.device.issued + 4 * k)
  {
    var n := numBuffers.GetOr(v.desiredImageCount);
    var o := NewBufferUnits(v.device, v.bufferMemoryType, usage, size, n);
    if o.result.Failure? then Updated(Failure(o.result.error), v.(device := o.device))
    else
      var units := o.result.value;
      Updated(Success(MultiBuffer(units)), RegisterBuffer(v.(device := o.device), name, BufferHandles(units)))
  }

  /** `mapped(i)` on a freshly created buffer is the host address returned by the mapping
      call of unit `i`, which mapped that unit's own memory. */
  lemma NewMultiBufferMapped(v: Vulkan, name: string, usage: BufferUsage, size: nat, numBuffers: Option<nat>, i: nat)
    requires NewMultiBuffer(v, name, usage, size, numBuffers).result.Success?
    requires i < |NewMultiBuffer(v, name, usage, size, numBuffers).result.value.units|
    ensures var r := NewMultiBuffer(v, name, usage, size, numBuffers);
      && Mapped(r.result.value, i) == Handle(v.device.issued + 4 * i + 2, 0)
      && r.vulkan.device.log[|v.device.log| + 4 * i + 2] == MapMemory(r.result.value.units[i].memory)
  {
    var n := numBuffers.GetOr(v.desiredImageCount);
    NewBufferUnitsLog(v.device, v.bufferMemoryType, usage, size, n, i);
    var o := NewBufferUnits(v.device, v.bufferMemoryType, usage, size, n);
    var slice := o.device.log[|v.device.log| + 4 * i..|v.device.log| + 4 * i + 4];
    assert slice[2] == o.device.log[|v.device.log| + 4 * i + 2];
  }

  /** The units of a freshly created buffer are mapped at pairwise distinct addresses, so
      writing through `mapped(i)` never touches another unit. This follows from the
      device model, where every call returns a handle of its own; multi_buffer.rs itself
      relies on the driver for it and does not check it. */
  lemma NewMultiBufferMappingsDistinct(v: Vulkan, name: string, usage: BufferUsage, size: nat, numBuffers: Option<nat>, i: nat, j: nat)
    requires NewMultiBuffer(v, name, usage, size, numBuffers).result.Success?
    requires i < j < |NewMultiBuffer(v, name, usage, size, numBuffers).result.value.units|
    ensures var b := NewMultiBuffer(v, name, usage, size, numBuffers).result.value;
      Mapped(b, i) != Mapped(b, j)
  {
    var n := numBuffers.GetOr(v.desiredImageCount);
    var units := NewBufferUnits(v.device, v.bufferMemoryType, usage, size, n).result.value;
    assert units[i] == BufferUnitAt(v.device.issued + 4 * i);
    assert units[j] == BufferUnitAt(v.device.issued + 4 * j);
  }
}
