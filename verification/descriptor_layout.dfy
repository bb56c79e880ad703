/** Descriptor set layout creation (`DescriptorLayout::new`): every descriptor must have
    its own binding index; the first descriptor whose binding is already taken is
    reported together with the descriptor that took it, and only then is the layout
    created, with one layout binding per descriptor. */
module DescriptorLayout {
  import opened Wrappers
  import opened Errors
  import opened Vk
  import opened Native

  /** A descriptor as the layout sees it: its name, its binding index, and the layout
      binding it converts to (the conversion itself lives in `descriptors.rs`, which is
      not part of this model). */
  datatype DescriptorBinding = DescriptorBinding(name: string, binding: nat, layoutBinding: LayoutBinding)

  /** Two descriptors share a binding index. */
  predicate HasSharedBinding(ds: seq<DescriptorBinding>) {
    exists i, j :: 0 <= i < j < |ds| && ds[i].binding == ds[j].binding
  }

  /** No two of the first `n` descriptors share a binding index. */
  predicate DistinctPrefix(ds: seq<DescriptorBinding>, n: nat)
    requires n <= |ds|
  {
    forall i, j :: 0 <= i < j < n ==> ds[i].binding != ds[j].binding
  }

  /** The position of the first descriptor with binding index `b`. */
  function FirstWithBinding(ds: seq<DescriptorBinding>, b: nat): (r: nat)
    requires exists i :: 0 <= i < |ds| && ds[i].binding == b
    ensures r < |ds| && ds[r].binding == b
    ensures forall i :: 0 <= i < r ==> ds[i].binding != b
  {
    if ds[0].binding == b then 0
    else
      assert exists i :: 0 <= i < |ds[1..]| && ds[1..][i].binding == b by {
        var i :| 0 <= i < |ds| && ds[i].binding == b;
        assert ds[1..][i - 1] == ds[i];
      }
      1 + FirstWithBinding(ds[1..], b)
  }

  /** `j` is the first descriptor whose binding index is taken by an earlier one. */
  predicate IsFirstClash(ds: seq<DescriptorBinding>, j: nat) {
    && j < |ds|
    && DistinctPrefix(ds, j)
    && exists i :: 0 <= i < j && ds[i].binding == ds[j].binding
  }

  /** The error for the first clash: the binding index, the clashing descriptor and the
      earlier descriptor that holds the binding. */
  function ClashError(ds: seq<DescriptorBinding>, j: nat): Error
    requires IsFirstClash(ds, j)
  {
    var prev := FirstWithBinding(ds[..j], ds[j].binding);
    Local(SharedBinding(ds[j].binding, ds[j].name, ds[prev].name))
  }

  /** The scan in `DescriptorLayout::new`, keyed on the binding index alone. */
  method CheckBindings(ds: seq<DescriptorBinding>) returns (r: Option<Error>)
    ensures r.None? <==> !HasSharedBinding(ds)
    ensures r.Some? ==> exists j :: IsFirstClash(ds, j) && r.value == ClashError(ds, j)
  {
    var used: map<nat, string> := map[];
    var n := 0;
    while n < |ds|
      invariant n <= |ds|
      invariant DistinctPrefix(ds, n)
      invariant forall b :: b in used <==> exists i :: 0 <= i < n && ds[i].binding == b
      invariant forall i :: 0 <= i < n ==> used[ds[i].binding] == ds[i].name
    {
      var b := ds[n].binding;
      if b in used {
        var i :| 0 <= i < n && ds[i].binding == b;
        assert ds[..n][i] == ds[i];
        var prev := FirstWithBinding(ds[..n], b);
        assert ds[..n][prev] == ds[prev];
        assert prev == i;
        assert IsFirstClash(ds, n);
        return Some(Local(SharedBinding(b, ds[n].name, used[b])));
      }
      used := used[b := ds[n].name];
      n := n + 1;
    }
    return None;
  }

  /** The shared-binding check looks at binding indices only: descriptors with the same
      binding indices in the same order clash alike, whatever their names and types. */
  lemma SharedBindingKeyedOnIndex(ds1: seq<DescriptorBinding>, ds2: seq<DescriptorBinding>)
    requires |ds1| == |ds2|
    requires forall i :: 0 <= i < |ds1| ==> ds1[i].binding == ds2[i].binding
    ensures HasSharedBinding(ds1) <==> HasSharedBinding(ds2)
    ensures forall j :: IsFirstClash(ds1, j) <==> IsFirstClash(ds2, j)
  {
    if HasSharedBinding(ds1) {
      var i, j :| 0 <= i < j < |ds1| && ds1[i].binding == ds1[j].binding;
      assert ds2[i].binding == ds2[j].binding;
    }
    if HasSharedBinding(ds2) {
      var i, j :| 0 <= i < j < |ds2| && ds2[i].binding == ds2[j].binding;
      assert ds1[i].binding == ds1[j].binding;
    }
  }

  /** A list with a shared binding has a first clash. */
  lemma {:induction false} FirstClashExists(ds: seq<DescriptorBinding>)
    requires HasSharedBinding(ds)
    ensures exists j :: IsFirstClash(ds, j)
    decreases |ds|
  {
    var p := ds[..|ds| - 1];
    if HasSharedBinding(p) {
      FirstClashExists(p);
      var j: nat :| IsFirstClash(p, j);
      var i :| 0 <= i < j && p[i].binding == p[j].binding;
      assert ds[i] == p[i] && ds[j] == p[j];
      assert IsFirstClash(ds, j);
    } else {
      var i, j :| 0 <= i < j < |ds| && ds[i].binding == ds[j].binding;
      assert j == |ds| - 1;
      forall a, b | 0 <= a < b < j
        ensures ds[a].binding != ds[b].binding
      {
        assert p[a] == ds[a] && p[b] == ds[b];
      }
      assert IsFirstClash(ds, j);
    }
  }

  /** The layout bindings of the descriptors, in descriptor order. */
  function LayoutBindings(ds: seq<DescriptorBinding>): (r: seq<LayoutBinding>)
    ensures |r| == |ds| && forall k :: 0 <= k < |ds| ==> r[k] == ds[k].layoutBinding
  {
    seq(|ds|, k requires 0 <= k < |ds| => ds[k].layoutBinding)
  }

  /** `DescriptorLayout::new`: the check first, then one native call creating a
      push-descriptor layout with one binding per descriptor. */
  method NewDescriptorLayout(dev: Device, ds: seq<DescriptorBinding>) returns (o: Outcome<Handle>)
    ensures HasSharedBinding(ds) ==> o.device == dev && o.result.Failure?
    ensures HasSharedBinding(ds) ==>
      exists j :: IsFirstClash(ds, j) && o.result.error == ClashError(ds, j)
    ensures !HasSharedBinding(ds) ==>
      Traced(dev, [CreateDescriptorSetLayout(LayoutBindings(ds), true)], o.result, o.device)
  {
    var clash := CheckBindings(ds);
    if clash.Some? {
      return Outcome(Failure(clash.value), dev);
    }
    o := Invoke(dev, CreateDescriptorSetLayout(LayoutBindings(ds), true));
  }
}
