/** Reduction of a GLSL type qualifier (`layout(...)` entries and storage keywords) to the
    properties the analyser needs: `simplify_layout_qualifier_spec` and
    `simplify_type_qualifier` of the shader-module analysis. */
module LayoutQualifiers {
  import opened Wrappers
  import opened Glsl
  import opened Errors

  datatype MemoryLayout = Std140 | Std430

  datatype ImageFormat = Rgba32f

  /** A workgroup local size. The code does not reject a zero component. */
  datatype LocalSize = LocalSize(x: nat, y: nat, z: nat)

  const DefaultLocalSize := LocalSize(1, 1, 1)

  datatype TypeProperties = TypeProperties(
    storage: Option<StorageQualifier>,
    binding: Option<nat>,
    setIndex: Option<nat>,
    offset: Option<nat>,
    pushConstant: bool,
    memoryLayout: Option<MemoryLayout>,
    imageFormat: Option<ImageFormat>,
    localSize: Option<LocalSize>)

  const DefaultProperties := TypeProperties(None, None, None, None, false, None, None, None)

  /** How processing of a piece of syntax ends: normally, with an error value, or with a
      panic (a negative integer literal reaching `usize::try_from(..).unwrap()`). The
      operations require that processing does not panic and fail exactly when it rejects. */
  datatype Status = Accepts | Rejects | Aborts

  /** Processing one thing and then another: the first one that does not accept decides. */
  function Then(first: Status, next: Status): Status {
    if first == Accepts then next else first
  }

  /** Layout ids that are accepted only with an integer value. */
  predicate IsIntId(name: string) {
    || name == "binding" || name == "set" || name == "offset"
    || name == "local_size_x" || name == "local_size_y" || name == "local_size_z"
  }

  /** Layout ids that are accepted only without a value. */
  predicate IsFlagId(name: string) {
    name == "rgba32f" || name == "push_constant" || name == "std140" || name == "std430"
  }

  /** The value is converted before the name is looked at, so a negative literal panics
      and a value other than an integer literal is rejected whatever the name. */
  function LayoutSpecStatus(spec: LayoutQualifierSpec): Status {
    match spec
    case SharedLayout => Rejects
    case Identifier(name, None) => if IsFlagId(name) then Accepts else Rejects
    case Identifier(name, Some(IntConst(n))) =>
      if n < 0 then Aborts else if IsIntId(name) then Accepts else Rejects
    case Identifier(_, Some(_)) => Rejects
  }

  /** The state threaded through the qualifier: the properties and the local size. */
  datatype Acc = Acc(props: TypeProperties, size: LocalSize)

  function WithStorage(acc: Acc, storage: Option<StorageQualifier>): Acc {
    acc.(props := acc.props.(storage := storage))
  }

  predicate NamedAt(spec: LayoutQualifierSpec, name: string) {
    spec.Identifier? && spec.name == name
  }

  /** The non-negative integer literal a layout id carries, if any. */
  function IntArgOf(spec: LayoutQualifierSpec): Option<nat> {
    match spec
    case Identifier(_, Some(IntConst(n))) => if n >= 0 then Some(n) else None
    case _ => None
  }

  /** The value an integer layout id has set in `acc` (local sizes always have one). */
  function IntSetting(acc: Acc, name: string): Option<nat> {
    if name == "binding" then acc.props.binding
    else if name == "set" then acc.props.setIndex
    else if name == "offset" then acc.props.offset
    else if name == "local_size_x" then Some(acc.size.x)
    else if name == "local_size_y" then Some(acc.size.y)
    else if name == "local_size_z" then Some(acc.size.z)
    else None
  }

  function ApplyLayoutSpec(acc: Acc, spec: LayoutQualifierSpec): (r: VResult<Acc>)
    requires LayoutSpecStatus(spec) != Aborts
    ensures r.Failure? <==> LayoutSpecStatus(spec) == Rejects
    ensures r.Success? ==> r.value.props.storage == acc.props.storage
    ensures spec.SharedLayout? ==> r == Failure(Local(UnexpectedLayoutSpec(spec)))
    ensures r.Failure? && spec.Identifier? && (spec.value.None? || spec.value.value.IntConst?) ==>
      r.error == Local(UnexpectedLayoutId(spec.name, IntArgOf(spec)))
    ensures spec.Identifier? && spec.value.Some? && !spec.value.value.IntConst? ==>
      r == Failure(Local(UnexpectedLayoutValue(spec.value.value)))
  {
    match spec
    case SharedLayout => Failure(Local(UnexpectedLayoutSpec(spec)))
    case Identifier(name, None) =>
      if name == "rgba32f" then Success(acc.(props := acc.props.(imageFormat := Some(Rgba32f))))
      else if name == "push_constant" then Success(acc.(props := acc.props.(pushConstant := true)))
      else if name == "std140" then Success(acc.(props := acc.props.(memoryLayout := Some(Std140))))
      else if name == "std430" then Success(acc.(props := acc.props.(memoryLayout := Some(Std430))))
      else Failure(Local(UnexpectedLayoutId(name, None)))
    case Identifier(name, Some(IntConst(n))) =>
      if name == "binding" then Success(acc.(props := acc.props.(binding := Some(n))))
      else if name == "set" then Success(acc.(props := acc.props.(setIndex := Some(n))))
      else if name == "offset" then Success(acc.(props := acc.props.(offset := Some(n))))
      else if name == "local_size_x" then Success(acc.(size := acc.size.(x := n)))
      else if name == "local_size_y" then Success(acc.(size := acc.size.(y := n)))
      else if name == "local_size_z" then Success(acc.(size := acc.size.(z := n)))
      else Failure(Local(UnexpectedLayoutId(name, Some(n))))
    case Identifier(_, Some(e)) => Failure(Local(UnexpectedLayoutValue(e)))
  }

  /** An accepted integer id sets its own setting to its value and leaves every other
      integer setting as it was. */
  lemma ApplyLayoutSpecSetting(acc: Acc, spec: LayoutQualifierSpec, name: string)
    requires LayoutSpecStatus(spec) == Accepts && IsIntId(name)
    ensures IntSetting(ApplyLayoutSpec(acc, spec).value, name)
            == if NamedAt(spec, name) then IntArgOf(spec) else IntSetting(acc, name)
  {
  }

  // ---------------------------------------------------------------------------
  // The ids of one `layout(...)`, processed left to right: the prefix, then the last.

  function LayoutIdsStatus(ids: seq<LayoutQualifierSpec>): Status
    decreases |ids|
  {
    if |ids| == 0 then Accepts
    else Then(LayoutIdsStatus(ids[..|ids| - 1]), LayoutSpecStatus(ids[|ids| - 1]))
  }

  function ApplyLayoutIds(acc: Acc, ids: seq<LayoutQualifierSpec>): (r: VResult<Acc>)
    requires LayoutIdsStatus(ids) != Aborts
    ensures r.Failure? <==> LayoutIdsStatus(ids) == Rejects
    ensures r.Success? ==> r.value.props.storage == acc.props.storage
    decreases |ids|
  {
    if |ids| == 0 then Success(acc)
    else
      var front := ApplyLayoutIds(acc, ids[..|ids| - 1]);
      if front.Failure? then front
      else ApplyLayoutSpec(front.value, ids[|ids| - 1])
  }

  /** `setting` holds the value of the last id called `name`, or `default` if none is. */
  predicate LastWins(ids: seq<LayoutQualifierSpec>, name: string, setting: Option<nat>, default: Option<nat>) {
    && ((forall i :: 0 <= i < |ids| ==> !NamedAt(ids[i], name)) ==> setting == default)
    && (forall i :: 0 <= i < |ids| && NamedAt(ids[i], name)
          && (forall j :: i < j < |ids| ==> !NamedAt(ids[j], name))
          ==> setting == IntArgOf(ids[i]))
  }

  /** The value of the last id called `name`, or `default` when no id has that name. */
  function LastIntOr(ids: seq<LayoutQualifierSpec>, name: string, default: Option<nat>): Option<nat>
    decreases |ids|
  {
    if |ids| == 0 then default
    else if NamedAt(ids[|ids| - 1], name) then IntArgOf(ids[|ids| - 1])
    else LastIntOr(ids[..|ids| - 1], name, default)
  }

  lemma LastIntOrLastWins(ids: seq<LayoutQualifierSpec>, name: string, default: Option<nat>)
    ensures LastWins(ids, name, LastIntOr(ids, name, default), default)
  {
    if forall i :: 0 <= i < |ids| ==> !NamedAt(ids[i], name) {
      LastIntOrUnnamed(ids, name, default);
    }
    forall i | 0 <= i < |ids| && NamedAt(ids[i], name) && (forall j :: i < j < |ids| ==> !NamedAt(ids[j], name))
      ensures LastIntOr(ids, name, default) == IntArgOf(ids[i])
    {
      LastIntOrNamed(ids, name, default, i);
    }
  }

  lemma {:induction false} LastIntOrUnnamed(ids: seq<LayoutQualifierSpec>, name: string, default: Option<nat>)
    requires forall i :: 0 <= i < |ids| ==> !NamedAt(ids[i], name)
    ensures LastIntOr(ids, name, default) == default
    decreases |ids|
  {
    if |ids| > 0 {
      var p := ids[..|ids| - 1];
      assert forall i :: 0 <= i < |p| ==> p[i] == ids[i];
      LastIntOrUnnamed(p, name, default);
    }
  }

  lemma {:induction false} LastIntOrNamed(ids: seq<LayoutQualifierSpec>, name: string, default: Option<nat>, i: nat)
    requires i < |ids| && NamedAt(ids[i], name)
    requires forall j :: i < j < |ids| ==> !NamedAt(ids[j], name)
    ensures LastIntOr(ids, name, default) == IntArgOf(ids[i])
    decreases |ids|
  {
    if i < |ids| - 1 {
      var p := ids[..|ids| - 1];
      assert !NamedAt(ids[|ids| - 1], name);
      assert forall j :: i < j < |p| ==> p[j] == ids[j];
      LastIntOrNamed(p, name, default, i);
    }
  }

  /** Processing the ids leaves each integer setting at the last value given to it. */
  lemma {:induction false} ApplyLayoutIdsSetting(acc: Acc, ids: seq<LayoutQualifierSpec>, name: string)
    requires LayoutIdsStatus(ids) == Accepts && IsIntId(name)
    ensures IntSetting(ApplyLayoutIds(acc, ids).value, name) == LastIntOr(ids, name, IntSetting(acc, name))
    decreases |ids|
  {
    if |ids| > 0 {
      var p := ids[..|ids| - 1];
      assert LayoutIdsStatus(p) == Accepts;
      ApplyLayoutIdsSetting(acc, p, name);
      ApplyLayoutSpecSetting(ApplyLayoutIds(acc, p).value, ids[|ids| - 1], name);
    }
  }

  /** `push_constant` and `rgba32f` only ever switch their property on. */
  lemma {:induction false} ApplyLayoutIdsFlags(acc: Acc, ids: seq<LayoutQualifierSpec>)
    requires LayoutIdsStatus(ids) == Accepts
    ensures var r := ApplyLayoutIds(acc, ids).value;
      && (r.props.pushConstant
          <==> acc.props.pushConstant
               || exists i :: 0 <= i < |ids| && ids[i] == Identifier("push_constant", None))
      && r.props.imageFormat
         == if exists i :: 0 <= i < |ids| && ids[i] == Identifier("rgba32f", None)
            then Some(Rgba32f) else acc.props.imageFormat
    decreases |ids|
  {
    if |ids| > 0 {
      var p := ids[..|ids| - 1];
      assert LayoutIdsStatus(p) == Accepts;
      ApplyLayoutIdsFlags(acc, p);
      assert forall i :: 0 <= i < |p| ==> p[i] == ids[i];
      assert forall i :: 0 <= i < |ids| ==> i == |ids| - 1 || ids[i] == p[i];
    }
  }

  lemma {:induction false} LayoutIdsStatusAppend(a: seq<LayoutQualifierSpec>, b: seq<LayoutQualifierSpec>)
    ensures LayoutIdsStatus(a + b) == Then(LayoutIdsStatus(a), LayoutIdsStatus(b))
    decreases |b|
  {
    if |b| == 0 {
      assert a + b == a;
    } else {
      var b' := b[..|b| - 1];
      assert (a + b)[..|a + b| - 1] == a + b';
      assert (a + b)[|a + b| - 1] == b[|b| - 1];
      LayoutIdsStatusAppend(a, b');
    }
  }

  /** Processing `a + b` is processing `a` and then, unless that failed, `b`. */
  lemma {:induction false} ApplyLayoutIdsAppend(acc: Acc, a: seq<LayoutQualifierSpec>, b: seq<LayoutQualifierSpec>)
    requires LayoutIdsStatus(a + b) != Aborts
    ensures LayoutIdsStatus(a) != Aborts
    ensures ApplyLayoutIds(acc, a).Failure? ==> ApplyLayoutIds(acc, a + b) == ApplyLayoutIds(acc, a)
    ensures ApplyLayoutIds(acc, a).Success? ==>
      LayoutIdsStatus(b) != Aborts && ApplyLayoutIds(acc, a + b) == ApplyLayoutIds(ApplyLayoutIds(acc, a).value, b)
    decreases |b|
  {
    LayoutIdsStatusAppend(a, b);
    if |b| == 0 {
      assert a + b == a;
    } else {
      var b' := b[..|b| - 1];
      assert (a + b)[..|a + b| - 1] == a + b';
      assert (a + b)[|a + b| - 1] == b[|b| - 1];
      LayoutIdsStatusAppend(a, b');
      ApplyLayoutIdsAppend(acc, a, b');
    }
  }

  /** When every id accepts, so does the whole list. */
  lemma {:induction false} AllAcceptedStatus(ids: seq<LayoutQualifierSpec>)
    requires forall j :: 0 <= j < |ids| ==> LayoutSpecStatus(ids[j]) == Accepts
    ensures LayoutIdsStatus(ids) == Accepts
    decreases |ids|
  {
    if |ids| > 0 {
      AllAcceptedStatus(ids[..|ids| - 1]);
    }
  }

  /** The ids of one `layout(...)` fail with the error of the first rejected id. */
  lemma {:induction false} ApplyLayoutIdsFirstError(acc: Acc, ids: seq<LayoutQualifierSpec>, i: nat)
    requires LayoutIdsStatus(ids) != Aborts
    requires i < |ids| && LayoutSpecStatus(ids[i]) == Rejects
    requires forall j :: 0 <= j < i ==> LayoutSpecStatus(ids[j]) == Accepts
    ensures ApplyLayoutIds(acc, ids).Failure?
    ensures ApplyLayoutIds(acc, ids).error == ApplyLayoutSpec(acc, ids[i]).error
  {
    var a := ids[..i + 1];
    assert ids == a + ids[i + 1..];
    ApplyLayoutIdsAppend(acc, a, ids[i + 1..]);
    assert a[..|a| - 1] == ids[..i];
    AllAcceptedStatus(ids[..i]);
  }

  /** Layout ids never read the storage property. */
  lemma {:induction false} ApplyLayoutIdsIgnoresStorage(acc: Acc, ids: seq<LayoutQualifierSpec>, s: Option<StorageQualifier>)
    requires LayoutIdsStatus(ids) != Aborts
    ensures ApplyLayoutIds(WithStorage(acc, s), ids)
            == match ApplyLayoutIds(acc, ids)
               case Success(m) => Success(WithStorage(m, s))
               case Failure(e) => Failure(e)
    decreases |ids|
  {
    if |ids| > 0 {
      ApplyLayoutIdsIgnoresStorage(acc, ids[..|ids| - 1], s);
    }
  }

  // ---------------------------------------------------------------------------
  // The whole qualifier: storage keywords and `layout(...)` groups, left to right.

  function QualifierSpecStatus(spec: TypeQualifierSpec): Status {
    match spec
    case Layout(ids) => LayoutIdsStatus(ids)
    case _ => Accepts
  }

  function QualifierSpecsStatus(specs: seq<TypeQualifierSpec>): Status
    decreases |specs|
  {
    if |specs| == 0 then Accepts
    else Then(QualifierSpecsStatus(specs[..|specs| - 1]), QualifierSpecStatus(specs[|specs| - 1]))
  }

  function QualifierStatus(tq: TypeQualifier): Status {
    QualifierSpecsStatus(tq.qualifiers)
  }

  /** Storage keywords overwrite the storage; precision, interpolation, `invariant` and
      `precise` are ignored. */
  function ApplyQualifierSpec(acc: Acc, spec: TypeQualifierSpec): (r: VResult<Acc>)
    requires QualifierSpecStatus(spec) != Aborts
    ensures r.Failure? <==> QualifierSpecStatus(spec) == Rejects
  {
    match spec
    case Storage(s) => Success(WithStorage(acc, Some(s)))
    case Layout(ids) => ApplyLayoutIds(acc, ids)
    case _ => Success(acc)
  }

  function ApplyQualifierSpecs(acc: Acc, specs: seq<TypeQualifierSpec>): (r: VResult<Acc>)
    requires QualifierSpecsStatus(specs) != Aborts
    ensures r.Failure? <==> QualifierSpecsStatus(specs) == Rejects
    decreases |specs|
  {
    if |specs| == 0 then Success(acc)
    else
      var front := ApplyQualifierSpecs(acc, specs[..|specs| - 1]);
      if front.Failure? then front
      else ApplyQualifierSpec(front.value, specs[|specs| - 1])
  }

  /** All layout ids of a qualifier, in source order. */
  function LayoutIdsOf(specs: seq<TypeQualifierSpec>): (ids: seq<LayoutQualifierSpec>)
    decreases |specs|
  {
    if |specs| == 0 then []
    else
      var last := specs[|specs| - 1];
      LayoutIdsOf(specs[..|specs| - 1]) + (if last.Layout? then last.ids else [])
  }

  /** `storage` is the last storage keyword, or `default` if there is none. */
  predicate StorageLastWins(specs: seq<TypeQualifierSpec>, storage: Option<StorageQualifier>, default: Option<StorageQualifier>) {
    && ((forall i :: 0 <= i < |specs| ==> !specs[i].Storage?) ==> storage == default)
    && (forall i :: 0 <= i < |specs| && specs[i].Storage?
          && (forall j :: i < j < |specs| ==> !specs[j].Storage?)
          ==> storage == Some(specs[i].storage))
  }

  /** The last storage keyword, or `default` when there is none. */
  function LastStorageOr(specs: seq<TypeQualifierSpec>, default: Option<StorageQualifier>): Option<StorageQualifier>
    decreases |specs|
  {
    if |specs| == 0 then default
    else if specs[|specs| - 1].Storage? then Some(specs[|specs| - 1].storage)
    else LastStorageOr(specs[..|specs| - 1], default)
  }

  lemma {:induction false} LastStorageOrLastWins(specs: seq<TypeQualifierSpec>, default: Option<StorageQualifier>)
    ensures StorageLastWins(specs, LastStorageOr(specs, default), default)
    decreases |specs|
  {
    if |specs| > 0 {
      var p := specs[..|specs| - 1];
      LastStorageOrLastWins(p, default);
      var storage := LastStorageOr(specs, default);
      if specs[|specs| - 1].Storage? {
        forall i | 0 <= i < |specs| && specs[i].Storage? && (forall j :: i < j < |specs| ==> !specs[j].Storage?)
          ensures storage == Some(specs[i].storage)
        {
          assert i == |specs| - 1;
        }
      } else {
        forall i | 0 <= i < |specs| && specs[i].Storage? && (forall j :: i < j < |specs| ==> !specs[j].Storage?)
          ensures storage == Some(specs[i].storage)
        {
          assert i < |p| && p[i] == specs[i];
          assert forall j :: i < j < |p| ==> p[j] == specs[j];
        }
        if forall i :: 0 <= i < |specs| ==> !specs[i].Storage? {
          assert forall i :: 0 <= i < |p| ==> p[i] == specs[i];
        }
      }
    }
  }

  lemma {:induction false} ApplyQualifierSpecsStorage(acc: Acc, specs: seq<TypeQualifierSpec>)
    requires QualifierSpecsStatus(specs) == Accepts
    ensures ApplyQualifierSpecs(acc, specs).value.props.storage == LastStorageOr(specs, acc.props.storage)
    decreases |specs|
  {
    if |specs| > 0 {
      var p := specs[..|specs| - 1];
      assert QualifierSpecsStatus(p) == Accepts;
      ApplyQualifierSpecsStorage(acc, p);
    }
  }

  /** Apart from the storage, a qualifier has the effect of its layout ids read as one
      list, and it is rejected or panics exactly when that list is. */
  lemma {:induction false} ApplyQualifierSpecsAsLayoutIds(acc: Acc, specs: seq<TypeQualifierSpec>)
    requires QualifierSpecsStatus(specs) != Aborts
    ensures LayoutIdsStatus(LayoutIdsOf(specs)) == QualifierSpecsStatus(specs)
    ensures var r := ApplyQualifierSpecs(acc, specs);
            var q := ApplyLayoutIds(acc, LayoutIdsOf(specs));
            && (r.Success? <==> q.Success?)
            && (r.Success? ==> r.value == WithStorage(q.value, r.value.props.storage))
    decreases |specs|
  {
    if |specs| > 0 {
      var p, last := specs[..|specs| - 1], specs[|specs| - 1];
      var tail := if last.Layout? then last.ids else [];
      LayoutIdsStatusAppend(LayoutIdsOf(p), tail);
      assert QualifierSpecsStatus(p) != Aborts;
      ApplyQualifierSpecsAsLayoutIds(acc, p);
      ApplyLayoutIdsAppend(acc, LayoutIdsOf(p), tail);
      var r := ApplyQualifierSpecs(acc, p);
      if r.Success? {
        var q := ApplyLayoutIds(acc, LayoutIdsOf(p)).value;
        if last.Layout? {
          ApplyLayoutIdsIgnoresStorage(q, tail, r.value.props.storage);
        } else {
          assert tail == [];
          ApplyLayoutIdsAppend(q, [], []);
        }
      }
    }
  }

  /** The last storage keyword of a qualifier, if any. */
  function LastStorage(tq: TypeQualifier): Option<StorageQualifier> {
    LastStorageOr(tq.qualifiers, None)
  }

  /** The local size the ids describe: every component not given stays 1. */
  function LocalSizeOf(ids: seq<LayoutQualifierSpec>): LocalSize {
    LocalSize(
      LastIntOr(ids, "local_size_x", Some(1)).GetOr(1),
      LastIntOr(ids, "local_size_y", Some(1)).GetOr(1),
      LastIntOr(ids, "local_size_z", Some(1)).GetOr(1))
  }

  predicate HasFlag(ids: seq<LayoutQualifierSpec>, name: string) {
    exists i :: 0 <= i < |ids| && ids[i] == Identifier(name, None)
  }

  /** `simplify_type_qualifier`: later qualifiers overwrite earlier ones, ignored kinds of
      qualifier change nothing, and the local size is reported only when it differs from
      (1, 1, 1). */
  function SimplifyTypeQualifier(tq: TypeQualifier): (r: VResult<TypeProperties>)
    requires QualifierStatus(tq) != Aborts
    ensures r.Failure? <==> QualifierStatus(tq) == Rejects
    ensures r.Success? ==> r.value.storage == LastStorage(tq)
    ensures r.Success? ==> r.value.binding == LastIntOr(LayoutIdsOf(tq.qualifiers), "binding", None)
    ensures r.Success? ==> r.value.setIndex == LastIntOr(LayoutIdsOf(tq.qualifiers), "set", None)
    ensures r.Success? ==> r.value.offset == LastIntOr(LayoutIdsOf(tq.qualifiers), "offset", None)
    ensures r.Success? ==>
      var size := LocalSizeOf(LayoutIdsOf(tq.qualifiers));
      r.value.localSize == if size != DefaultLocalSize then Some(size) else None
    ensures r.Success? ==> (r.value.pushConstant <==> HasFlag(LayoutIdsOf(tq.qualifiers), "push_constant"))
    ensures r.Success? ==> (r.value.imageFormat.Some? <==> HasFlag(LayoutIdsOf(tq.qualifiers), "rgba32f"))
  {
    var start := Acc(DefaultProperties, DefaultLocalSize);
    var folded := ApplyQualifierSpecs(start, tq.qualifiers);
    if folded.Failure? then Failure(folded.error)
    else
      var size := folded.value.size;
      var props := folded.value.props.(localSize := if size != DefaultLocalSize then Some(size) else None);
      ApplyQualifierSpecsStorage(start, tq.qualifiers);
      ApplyQualifierSpecsAsLayoutIds(start, tq.qualifiers);
      var ids := LayoutIdsOf(tq.qualifiers);
      ApplyLayoutIdsSetting(start, ids, "binding");
      ApplyLayoutIdsSetting(start, ids, "set");
      ApplyLayoutIdsSetting(start, ids, "offset");
      ApplyLayoutIdsSetting(start, ids, "local_size_x");
      ApplyLayoutIdsSetting(start, ids, "local_size_y");
      ApplyLayoutIdsSetting(start, ids, "local_size_z");
      ApplyLayoutIdsFlags(start, ids);
      Success(props)
  }
}
