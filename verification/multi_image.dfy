/** N-fold images (`MultiImage`): one unit (image, memory, view) per frame in flight,
    created all or nothing, marked stale and registered under a name, and the
    `prev_shift` rotation that exposes the previous frame's image under another name. */
module MultiImages {
  import opened Wrappers
  import opened Errors
  import opened Vk
  import opened Native
  import opened Registry

  datatype ImageUnit = ImageUnit(image: Handle, memory: Handle, view: Handle)

  datatype MultiImage = MultiImage(units: seq<ImageUnit>)

  /** The native calls of one unit, starting at call number `base`: create the image,
      allocate memory of the size the image requires, bind it, create the view. */
  function ImageUnitCalls(memoryType: nat, format: Format, extent: Extent2D, base: nat): seq<Call> {
    var image, memory := Handle(base, 0), Handle(base + 1, 0);
    [CreateImage(format, extent), AllocateMemory(memoryType, RequirementOf(image)),
     BindImageMemory(image, memory), CreateImageView(image, format)]
  }

  /** The unit whose calls start at call number `base`. */
  function ImageUnitAt(base: nat): ImageUnit {
    ImageUnit(Handle(base, 0), Handle(base + 1, 0), Handle(base + 3, 0))
  }

  /** `MultiImageUnit::new`. */
  function NewImageUnit(dev: Device, memoryType: nat, format: Format, extent: Extent2D): (o: Outcome<ImageUnit>)
    ensures o.result.Success? ==> o.result.value == ImageUnitAt(dev.issued)
  {
    var image := Invoke(dev, CreateImage(format, extent));
    if image.result.Failure? then Outcome(Failure(image.result.error), image.device)
    else
      var memory := Invoke(image.device, AllocateMemory(memoryType, RequirementOf(image.result.value)));
      if memory.result.Failure? then Outcome(Failure(memory.result.error), memory.device)
      else
        var bind := Invoke(memory.device, BindImageMemory(image.result.value, memory.result.value));
        if bind.result.Failure? then Outcome(Failure(bind.result.error), bind.device)
        else
          var view := Invoke(bind.device, CreateImageView(image.result.value, format));
          if view.result.Failure? then Outcome(Failure(view.result.error), view.device)
          else Outcome(Success(ImageUnit(image.result.value, memory.result.value, view.result.value)), view.device)
  }

  /** A unit issues its four calls in order and stops at the first that fails. */
  lemma NewImageUnitSteps(dev: Device, memoryType: nat, format: Format, extent: Extent2D)
    ensures var o := NewImageUnit(dev, memoryType, format, extent);
      Traced(dev, ImageUnitCalls(memoryType, format, extent, dev.issued), o.result, o.device)
  {
    var calls := ImageUnitCalls(memoryType, format, extent, dev.issued);
    var image := Invoke(dev, calls[0]);
    if image.result.Failure? {
      TracedStop<Handle, ImageUnit>(dev, [calls[0]], image.result, image.device, calls[1..]);
      assert [calls[0]] + calls[1..] == calls;
    } else {
      var memory := Invoke(image.device, calls[1]);
      TracedThen(dev, [calls[0]], image.result, image.device, [calls[1]], memory.result, memory.device);
      assert [calls[0]] + [calls[1]] == calls[..2];
      if memory.result.Failure? {
        TracedStop<Handle, ImageUnit>(dev, calls[..2], memory.result, memory.device, calls[2..]);
        assert calls[..2] + calls[2..] == calls;
      } else {
        var bind := Invoke(memory.device, calls[2]);
        TracedThen(dev, calls[..2], memory.result, memory.device, [calls[2]], bind.result, bind.device);
        assert calls[..2] + [calls[2]] == calls[..3];
        if bind.result.Failure? {
          TracedStop<Handle, ImageUnit>(dev, calls[..3], bind.result, bind.device, calls[3..]);
          assert calls[..3] + calls[3..] == calls;
        } else {
          var view := Invoke(bind.device, calls[3]);
          TracedThen(dev, calls[..3], bind.result, bind.device, [calls[3]], view.result, view.device);
          assert calls[..3] + [calls[3]] == calls;
        }
      }
    }
  }

  /** The calls of `n` units issued one after the other from call number `base`. */
  function ImageUnitsCalls(memoryType: nat, format: Format, extent: Extent2D, base: nat, n: nat): (r: seq<Call>)
    ensures |r| == 4 * n
    ensures forall k :: 0 <= k < n ==> r[4 * k..4 * k + 4] == ImageUnitCalls(memoryType, format, extent, base + 4 * k)
  {
    if n == 0 then []
    else
      var front := ImageUnitsCalls(memoryType, format, extent, base, n - 1);
      var last := ImageUnitCalls(memoryType, format, extent, base + 4 * (n - 1));
      var r := front + last;
      assert forall k :: 0 <= k < n - 1 ==> r[4 * k..4 * k + 4] == front[4 * k..4 * k + 4];
      assert r[4 * (n - 1)..4 * n] == last;
      r
  }

  /** `MultiImage::new`: `n` units, or the error of the first unit that could not be
      created; the units created before it are dropped. */
  function NewImageUnits(dev: Device, memoryType: nat, format: Format, extent: Extent2D, n: nat): (o: Outcome<seq<ImageUnit>>)
    ensures o.result.Success? ==> |o.result.value| == n
    ensures o.result.Success? ==> forall k :: 0 <= k < n ==> o.result.value[k] == ImageUnitAt(dev.issued + 4 * k)
    ensures Traced(dev, ImageUnitsCalls(memoryType, format, extent, dev.issued, n), o.result, o.device)
  {
    if n == 0 then Outcome(Success([]), dev)
    else
      var front := NewImageUnits(dev, memoryType, format, extent, n - 1);
      var calls := ImageUnitsCalls(memoryType, format, extent, dev.issued, n);
      var frontCalls := ImageUnitsCalls(memoryType, format, extent, dev.issued, n - 1);
      var lastCalls := ImageUnitCalls(memoryType, format, extent, dev.issued + 4 * (n - 1));
      assert calls == frontCalls + lastCalls;
      if front.result.Failure? then
        TracedStop<seq<ImageUnit>, seq<ImageUnit>>(dev, frontCalls, front.result, front.device, lastCalls);
        Outcome(Failure(front.result.error), front.device)
      else
        var unit := NewImageUnit(front.device, memoryType, format, extent);
        NewImageUnitSteps(front.device, memoryType, format, extent);
        TracedThen(dev, frontCalls, front.result, front.device, lastCalls, unit.result, unit.device);
        if unit.result.Failure? then Outcome(Failure(unit.result.error), unit.device)
        else Outcome(Success(front.result.value + [unit.result.value]), unit.device)
  }

  /** Unit `k` is built by the four calls `4 k` to `4 k + 3` of the log, in the order
      image, memory sized to the image, bind, view. */
  lemma NewImageUnitsLog(dev: Device, memoryType: nat, format: Format, extent: Extent2D, n: nat, k: nat)
    requires k < n
    requires NewImageUnits(dev, memoryType, format, extent, n).result.Success?
    ensures var o := NewImageUnits(dev, memoryType, format, extent, n);
      && o.result.value[k] == ImageUnitAt(dev.issued + 4 * k)
      && o.device.log[|dev.log| + 4 * k..|dev.log| + 4 * k + 4] == ImageUnitCalls(memoryType, format, extent, dev.issued + 4 * k)
  {
    var o := NewImageUnits(dev, memoryType, format, extent, n);
    ImageUnitsSlice(dev, memoryType, format, extent, n, k, o.result, o.device);
  }

  /** Unit `k`'s slice of a successful run of the calls of `n` units. */
  lemma ImageUnitsSlice(dev: Device, memoryType: nat, format: Format, extent: Extent2D, n: nat, k: nat, r: VResult<seq<ImageUnit>>, after: Device)
    requires k < n
    requires Traced(dev, ImageUnitsCalls(memoryType, format, extent, dev.issued, n), r, after) && r.Success?
    ensures after.log[|dev.log| + 4 * k..|dev.log| + 4 * k + 4] == ImageUnitCalls(memoryType, format, extent, dev.issued + 4 * k)
  {
    var calls := ImageUnitsCalls(memoryType, format, extent, dev.issued, n);
    TracedLog(dev, calls, r, after, 4 * k, 4 * k + 4);
  }

  // ---------------------------------------------------------------------------
  // The context operations.

  /** The stale-queue entries of freshly created units, in unit order. */
  function StaleEntries(name: string, units: seq<ImageUnit>): seq<StaleImage> {
    seq(|units|, k requires 0 <= k < |units| => StaleImage(name, units[k].image, Undefined, General))
  }

  /** One (view, shared sampler) pair per unit, in unit order. */
  function ViewsAndSamplers(units: seq<ImageUnit>, sampler: Handle): seq<(Handle, Handle)> {
    seq(|units|, k requires 0 <= k < |units| => (units[k].view, sampler))
  }

  /** `Vulkan::new_multi_image`. */
  function NewMultiImage(v: Vulkan, name: string, format: Format, extent: Extent2D, numImages: Option<nat>): (r: Updated<MultiImage>)
    ensures var n := numImages.GetOr(v.desiredImageCount);
      r.result.Success? <==> NoneFail(v.device, 4 * n)
    ensures r.result.Success? ==> |r.result.value.units| == numImages.GetOr(v.desiredImageCount)
    ensures r.result.Failure? ==> r.vulkan == v.(device := r.vulkan.device)
    ensures r.result.Success? ==>
      var units, stale := r.result.value.units, r.vulkan.staleImages;
      && |stale| == |v.staleImages| + |units|
      && stale[..|v.staleImages|] == v.staleImages
      && (forall k :: 0 <= k < |units| ==>
            stale[|v.staleImages| + k] == StaleImage(name, units[k].image, Undefined, General))
    ensures r.result.Success? ==>
      var units := r.result.value.units;
      && name in r.vulkan.registry
      && r.vulkan.registry == v.registry[name := r.vulkan.registry[name]]
      && r.vulkan.registry[name].ImageViews?
      && |r.vulkan.registry[name].pairs| == |units|
      && (forall k :: 0 <= k < |units| ==> r.vulkan.registry[name].pairs[k] == (units[k].view, v.sampler))
    ensures r.vulkan == v.(device := r.vulkan.device, staleImages := r.vulkan.staleImages, registry := r.vulkan.registry)
    ensures Traced(v.device, ImageUnitsCalls(v.imageMemoryType, format, extent, v.device.issued, numImages.GetOr(v.desiredImageCount)), r.result, r.vulkan.device)
    ensures r.result.Success? ==> forall k :: 0 <= k < |r.result.value.units| ==> r.result.value.units[k] == ImageUnitAt(v.device.issued + 4 * k)
  {
    var n := numImages.GetOr(v.desiredImageCount);
    var o := NewImageUnits(v.device, v.imageMemoryType, format, extent, n);
    if o.result.Failure? then Updated(Failure(o.result.error), v.(device := o.device))
    else
      var units := o.result.value;
      var queued := v.(device := o.device, staleImages := v.staleImages + StaleEntries(name, units));
      Updated(Success(MultiImage(units)), RegisterImage(queued, name, ViewsAndSamplers(units, v.sampler)))
  }

  // ---------------------------------------------------------------------------
  // Rotation.

  /** The last element moved to the front. */
  function Rotated<T>(s: seq<T>): (r: seq<T>)
    requires |s| > 0
    ensures |r| == |s| && r[0] == s[|s| - 1]
    ensures forall i :: 1 <= i < |s| ==> r[i] == s[i - 1]
  {
    s[|s| - 1..] + s[..|s| - 1]
  }

  /** Rotating reorders and neither loses nor duplicates. */
  lemma RotatedPermutes<T>(s: seq<T>)
    requires |s| > 0
    ensures multiset(Rotated(s)) == multiset(s)
  {
    assert s == s[..|s| - 1] + s[|s| - 1..];
  }

  /** `k` successive applications of `Rotated`. This is a fact about the rotation as a
      sequence operation; the program itself applies `prev_shift` once per multi-image. */
  function RotatedTimes<T>(s: seq<T>, k: nat): (r: seq<T>)
    requires |s| > 0
    ensures |r| == |s|
  {
    if k == 0 then s else Rotated(RotatedTimes(s, k - 1))
  }

  /** `k` rotations move the last `k` elements to the front, in order. */
  lemma {:induction false} RotatedTimesSplit<T>(s: seq<T>, k: nat)
    requires 0 < |s| && k <= |s|
    ensures RotatedTimes(s, k) == s[|s| - k..] + s[..|s| - k]
  {
    if k > 0 {
      RotatedTimesSplit(s, k - 1);
      var prev := RotatedTimes(s, k - 1);
      var r := RotatedTimes(s, k);
      var n := |s|;
      assert r == Rotated(prev);
      forall i | 0 <= i < n
        ensures r[i] == (s[n - k..] + s[..n - k])[i]
      {
        if i == 0 {
          assert r[0] == prev[n - 1];
        } else {
          assert r[i] == prev[i - 1];
        }
      }
    }
  }

  /** As many rotations as there are elements give back the original order, so the
      rotation `prev_shift` applies is a cyclic shift of the units. */
  lemma RotatedTimesLength<T>(s: seq<T>)
    requires |s| > 0
    ensures RotatedTimes(s, |s|) == s
  {
    RotatedTimesSplit(s, |s|);
    assert s[..0] == [];
  }

  /** `Vulkan::prev_shift`: the same units with the last one first, registered under
      `name`; nothing is marked stale and no native call is made. */
  function PrevShift(v: Vulkan, image: MultiImage, name: string): (r: (MultiImage, Vulkan))
    requires |image.units| > 0
    ensures var n := |image.units|;
      && |r.0.units| == n
      && r.0.units[0] == image.units[n - 1]
      && (forall i :: 1 <= i < n ==> r.0.units[i] == image.units[i - 1])
    ensures r.1 == v.(registry := v.registry[name := ImageViews(ViewsAndSamplers(r.0.units, v.sampler))])
  {
    var shifted := MultiImage(Rotated(image.units));
    (shifted, RegisterImage(v, name, ViewsAndSamplers(shifted.units, v.sampler)))
  }

  /** The shifted image holds the same units, and its registered views are the original
      views rotated. */
  lemma PrevShiftRegistersRotatedViews(v: Vulkan, image: MultiImage, name: string)
    requires |image.units| > 0
    ensures multiset(PrevShift(v, image, name).0.units) == multiset(image.units)
    ensures PrevShift(v, image, name).1.registry[name] ==
      ImageViews(Rotated(ViewsAndSamplers(image.units, v.sampler)))
    ensures PrevShift(v, image, name).1.staleImages == v.staleImages
    ensures PrevShift(v, image, name).1.device == v.device
  {
    RotatedPermutes(image.units);
    var shifted := PrevShift(v, image, name).0.units;
    assert ViewsAndSamplers(shifted, v.sampler) == Rotated(ViewsAndSamplers(image.units, v.sampler));
  }
}
