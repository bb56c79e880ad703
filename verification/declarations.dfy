/** Classification of single GLSL declarations: the global `in` qualifier carrying the
    local size (`match_globals`), free uniform variables (`match_init_declarator_list`),
    and uniform/buffer blocks with their fields (`match_block`, `match_block_field`),
    together with the descriptor view of variables and blocks (`DescriptorInfo`). */
module Declarations {
  import opened Wrappers
  import opened Glsl
  import opened Errors
  import opened Vk
  import opened LayoutQualifiers

  // ---------------------------------------------------------------------------
  // Global declarations: `layout(local_size_x = 8) in;`

  function GlobalStatus(tq: TypeQualifier): Status {
    var q := QualifierStatus(tq);
    if q != Accepts then q
    else if LastStorage(tq) != Some(In) then Rejects
    else Accepts
  }

  /** `match_globals`: the storage must be `in`; the result is the local size the
      qualifier gives, with every component it does not give equal to 1. */
  function MatchGlobals(tq: TypeQualifier, names: seq<string>): (r: VResult<LocalSize>)
    requires QualifierStatus(tq) != Aborts
    ensures r.Failure? <==> GlobalStatus(tq) == Rejects
    ensures QualifierStatus(tq) == Accepts && LastStorage(tq) != Some(In) ==>
      r == Failure(Local(UnexpectedGlobalStorage(LastStorage(tq))))
    ensures r.Success? ==> r.value == LocalSizeOf(LayoutIdsOf(tq.qualifiers))
  {
    var props :- SimplifyTypeQualifier(tq);
    if props.storage != Some(In) then Failure(Local(UnexpectedGlobalStorage(props.storage)))
    else Success(props.localSize.GetOr(DefaultLocalSize))
  }

  // ---------------------------------------------------------------------------
  // Free variables: `layout(rgba32f, binding = 0) uniform image2D present;`

  datatype VariableDeclaration = VariableDeclaration(
    name: string,
    typeSpecifier: TypeSpecifierNonArray,
    binding: Option<nat>,
    setIndex: Option<nat>,
    imageFormat: Option<ImageFormat>)

  /** `simplify_type_specifier`: an array type is an error. */
  function SimplifyTypeSpecifier(ts: TypeSpecifier): (r: VResult<TypeSpecifierNonArray>)
    ensures r.Success? <==> ts.arraySpecifier.None?
    ensures r.Success? ==> r.value == ts.ty
    ensures r.Failure? ==> r.error == Local(UnexpectedArraySpecifier(ts.arraySpecifier.value))
  {
    if ts.arraySpecifier.Some? then Failure(Local(UnexpectedArraySpecifier(ts.arraySpecifier.value)))
    else Success(ts.ty)
  }

  /** A declaration whose type is neither an array nor a struct and that has a qualifier:
      the only kind whose qualifier is looked at. */
  predicate IsQualifiedValue(idl: InitDeclaratorList) {
    var ty := idl.head.ty;
    ty.ty.arraySpecifier.None? && !ty.ty.ty.Struct? && ty.qualifier.Some?
  }

  function InitDeclaratorListStatus(idl: InitDeclaratorList): Status {
    var head := idl.head;
    if head.ty.ty.arraySpecifier.Some? then Rejects
    else if head.ty.ty.ty.Struct? then Accepts
    else if head.ty.qualifier.None? then Rejects
    else
      var q := QualifierStatus(head.ty.qualifier.value);
      var storage := LastStorage(head.ty.qualifier.value);
      if q != Accepts then q
      else if storage == Some(Const) then Accepts
      else if storage != Some(Uniform) || head.name.None? || |idl.tail| > 0 then Rejects
      else Accepts
  }

  /** The declarations that yield a variable: qualified, storage `uniform`, named, alone. */
  predicate IsUniformVariable(idl: InitDeclaratorList) {
    && IsQualifiedValue(idl)
    && QualifierStatus(idl.head.ty.qualifier.value) == Accepts
    && LastStorage(idl.head.ty.qualifier.value) == Some(Uniform)
    && idl.head.name.Some?
    && |idl.tail| == 0
  }

  /** `match_init_declarator_list`. Struct-typed declarations are dropped before the
      qualifier is looked at, `const` ones after it; the array size and initializer of
      the declared name are ignored. */
  function MatchInitDeclaratorList(idl: InitDeclaratorList): (r: VResult<Option<VariableDeclaration>>)
    requires InitDeclaratorListStatus(idl) != Aborts
    ensures r.Failure? <==> InitDeclaratorListStatus(idl) == Rejects
    ensures idl.head.ty.ty.arraySpecifier.Some? ==>
      r == Failure(Local(UnexpectedArraySpecifier(idl.head.ty.ty.arraySpecifier.value)))
    ensures idl.head.ty.ty.arraySpecifier.None? && idl.head.ty.ty.ty.Struct? ==> r == Success(None)
    ensures idl.head.ty.ty.arraySpecifier.None? && !idl.head.ty.ty.ty.Struct? && idl.head.ty.qualifier.None? ==>
      r == Failure(Local(MissingTypeQualifier))
    ensures IsQualifiedValue(idl) && QualifierStatus(idl.head.ty.qualifier.value) == Accepts ==>
      var storage := LastStorage(idl.head.ty.qualifier.value);
      && (storage == Some(Const) ==> r == Success(None))
      && (storage != Some(Const) && storage != Some(Uniform) ==>
            r == Failure(Local(UnexpectedVariableStorage(storage))))
      && (storage == Some(Uniform) && idl.head.name.None? ==> r == Failure(Local(MissingVariableName)))
      && (storage == Some(Uniform) && idl.head.name.Some? && |idl.tail| > 0 ==>
            r == Failure(Local(UnexpectedTail(idl.tail))))
    ensures r.Success? && r.value.Some? <==> IsUniformVariable(idl)
    ensures r.Success? && r.value.Some? ==>
      var v := r.value.value;
      var ids := LayoutIdsOf(idl.head.ty.qualifier.value.qualifiers);
      && v.name == idl.head.name.value
      && v.typeSpecifier == idl.head.ty.ty.ty
      && v.binding == LastIntOr(ids, "binding", None)
      && v.setIndex == LastIntOr(ids, "set", None)
      && (v.imageFormat.Some? <==> HasFlag(ids, "rgba32f"))
  {
    var head := idl.head;
    var ty :- SimplifyTypeSpecifier(head.ty.ty);
    if ty.Struct? then Success(None)
    else if head.ty.qualifier.None? then Failure(Local(MissingTypeQualifier))
    else
      var props :- SimplifyTypeQualifier(head.ty.qualifier.value);
      if props.storage == Some(Const) then Success(None)
      else if props.storage != Some(Uniform) then Failure(Local(UnexpectedVariableStorage(props.storage)))
      else if head.name.None? then Failure(Local(MissingVariableName))
      else if |idl.tail| > 0 then Failure(Local(UnexpectedTail(idl.tail)))
      else Success(Some(VariableDeclaration(head.name.value, ty, props.binding, props.setIndex, props.imageFormat)))
  }

  // ---------------------------------------------------------------------------
  // Block fields: `layout(offset = 16) vec4 colour[4];`

  datatype BlockField = BlockField(
    name: string,
    typeSpecifier: TypeSpecifierNonArray,
    offset: Option<nat>,
    dimensions: Option<seq<Option<nat>>>)

  function DimensionStatus(d: ArraySpecifierDimension): Status {
    match d
    case Unsized => Accepts
    case ExplicitlySized(IntConst(n)) => if n < 0 then Aborts else Accepts
    case ExplicitlySized(_) => Rejects
  }

  function DimensionsStatus(ds: seq<ArraySpecifierDimension>): Status
    decreases |ds|
  {
    if |ds| == 0 then Accepts
    else Then(DimensionsStatus(ds[..|ds| - 1]), DimensionStatus(ds[|ds| - 1]))
  }

  /** The size an accepted dimension records: its literal, or nothing when unsized. */
  function DimensionValue(d: ArraySpecifierDimension): Option<nat> {
    match d
    case ExplicitlySized(IntConst(n)) => if n >= 0 then Some(n) else None
    case _ => None
  }

  function MatchDimensions(ds: seq<ArraySpecifierDimension>): (r: VResult<seq<Option<nat>>>)
    requires DimensionsStatus(ds) != Aborts
    ensures r.Failure? <==> DimensionsStatus(ds) == Rejects
    ensures r.Success? ==>
      |r.value| == |ds| && forall k :: 0 <= k < |ds| ==> r.value[k] == DimensionValue(ds[k])
    decreases |ds|
  {
    if |ds| == 0 then Success([])
    else
      var front :- MatchDimensions(ds[..|ds| - 1]);
      match ds[|ds| - 1]
      case Unsized => Success(front + [None])
      case ExplicitlySized(IntConst(n)) => Success(front + [Some(n)])
      case ExplicitlySized(e) => Failure(Local(UnexpectedArrayDimension(e)))
  }

  function FieldStatus(f: StructFieldSpecifier): Status {
    var q := if f.qualifier.Some? then QualifierStatus(f.qualifier.value) else Accepts;
    if q != Accepts then q
    else if f.ty.arraySpecifier.Some? || |f.identifiers| != 1 then Rejects
    else if f.identifiers[0].arraySpec.None? then Accepts
    else DimensionsStatus(f.identifiers[0].arraySpec.value.dimensions)
  }

  /** `match_block_field`: the qualifier is read first, then the type, then the single
      declared name and its dimensions. */
  function MatchBlockField(f: StructFieldSpecifier): (r: VResult<BlockField>)
    requires FieldStatus(f) != Aborts
    ensures r.Failure? <==> FieldStatus(f) == Rejects
    ensures (f.qualifier.None? || QualifierStatus(f.qualifier.value) == Accepts)
            && f.ty.arraySpecifier.None? && |f.identifiers| != 1 ==>
      r == Failure(Local(UnexpectedIdentifiers(f.identifiers)))
    ensures r.Success? ==>
      && |f.identifiers| == 1
      && r.value.name == f.identifiers[0].ident
      && r.value.typeSpecifier == f.ty.ty
      && r.value.offset == (if f.qualifier.None? then None
                            else LastIntOr(LayoutIdsOf(f.qualifier.value.qualifiers), "offset", None))
      && (r.value.dimensions.None? <==> f.identifiers[0].arraySpec.None?)
      && (r.value.dimensions.Some? ==>
            var ds := f.identifiers[0].arraySpec.value.dimensions;
            |r.value.dimensions.value| == |ds|
            && forall k :: 0 <= k < |ds| ==> r.value.dimensions.value[k] == DimensionValue(ds[k]))
  {
    if f.qualifier.Some? && SimplifyTypeQualifier(f.qualifier.value).Failure? then
      Failure(SimplifyTypeQualifier(f.qualifier.value).error)
    else
      var offset := if f.qualifier.Some? then SimplifyTypeQualifier(f.qualifier.value).value.offset else None;
      var ty :- SimplifyTypeSpecifier(f.ty);
      if |f.identifiers| != 1 then Failure(Local(UnexpectedIdentifiers(f.identifiers)))
      else
        var named := f.identifiers[0];
        if named.arraySpec.None? then Success(BlockField(named.ident, ty, offset, None))
        else
          var dims :- MatchDimensions(named.arraySpec.value.dimensions);
          Success(BlockField(named.ident, ty, offset, Some(dims)))
  }

  function FieldsStatus(fs: seq<StructFieldSpecifier>): Status
    decreases |fs|
  {
    if |fs| == 0 then Accepts
    else Then(FieldsStatus(fs[..|fs| - 1]), FieldStatus(fs[|fs| - 1]))
  }

  /** The fields in source order; the first field in error decides the error. */
  function MatchBlockFields(fs: seq<StructFieldSpecifier>): (r: VResult<seq<BlockField>>)
    requires FieldsStatus(fs) != Aborts
    ensures r.Failure? <==> FieldsStatus(fs) == Rejects
    ensures r.Success? ==>
      && |r.value| == |fs|
      && forall k :: 0 <= k < |fs| ==>
           FieldStatus(fs[k]) == Accepts && MatchBlockField(fs[k]) == Success(r.value[k])
    decreases |fs|
  {
    if |fs| == 0 then Success([])
    else
      var front :- MatchBlockFields(fs[..|fs| - 1]);
      var last :- MatchBlockField(fs[|fs| - 1]);
      Success(front + [last])
  }

  // ---------------------------------------------------------------------------
  // Blocks: `layout(std140, binding = 1) uniform Globals { uint x; } globals;`

  datatype BlockDeclaration = BlockDeclaration(
    structName: string,
    variableName: Option<string>,
    pushConstant: bool,
    storage: DescriptorType,
    binding: Option<nat>,
    setIndex: Option<nat>,
    fields: seq<BlockField>)

  predicate HasArrayedInstance(b: Block) {
    b.identifier.Some? && b.identifier.value.arraySpec.Some?
  }

  predicate IsBlockStorage(storage: Option<StorageQualifier>) {
    storage == Some(Uniform) || storage == Some(Buffer)
  }

  function BlockStatus(b: Block): Status {
    if HasArrayedInstance(b) then Rejects
    else
      var q := QualifierStatus(b.qualifier);
      if q != Accepts then q
      else if !IsBlockStorage(LastStorage(b.qualifier)) then Rejects
      else FieldsStatus(b.fields)
  }

  /** `match_block`: `uniform` blocks are uniform buffers, `buffer` blocks storage
      buffers, and the fields keep their source order. */
  function MatchBlock(b: Block): (r: VResult<BlockDeclaration>)
    requires BlockStatus(b) != Aborts
    ensures r.Failure? <==> BlockStatus(b) == Rejects
    ensures HasArrayedInstance(b) ==>
      r == Failure(Local(UnexpectedInstanceArray(b.identifier.value.arraySpec.value)))
    ensures !HasArrayedInstance(b) && QualifierStatus(b.qualifier) == Accepts
            && !IsBlockStorage(LastStorage(b.qualifier)) ==>
      r == Failure(Local(InvalidBlockStorage(LastStorage(b.qualifier))))
    ensures r.Success? ==>
      var ids := LayoutIdsOf(b.qualifier.qualifiers);
      && r.value.structName == b.name
      && r.value.variableName == (if b.identifier.Some? then Some(b.identifier.value.ident) else None)
      && r.value.storage == (if LastStorage(b.qualifier) == Some(Uniform) then UniformBuffer else StorageBuffer)
      && IsBlockStorage(LastStorage(b.qualifier))
      && (r.value.pushConstant <==> HasFlag(ids, "push_constant"))
      && r.value.binding == LastIntOr(ids, "binding", None)
      && r.value.setIndex == LastIntOr(ids, "set", None)
      && |r.value.fields| == |b.fields|
      && forall k :: 0 <= k < |b.fields| ==>
           FieldStatus(b.fields[k]) == Accepts && MatchBlockField(b.fields[k]) == Success(r.value.fields[k])
  {
    if HasArrayedInstance(b) then Failure(Local(UnexpectedInstanceArray(b.identifier.value.arraySpec.value)))
    else
      var identifier := if b.identifier.Some? then Some(b.identifier.value.ident) else None;
      var props :- SimplifyTypeQualifier(b.qualifier);
      var storage :-
        if props.storage == Some(Uniform) then Success(UniformBuffer)
        else if props.storage == Some(Buffer) then Success(StorageBuffer)
        else Failure(Local(InvalidBlockStorage(props.storage)));
      var fields :- MatchBlockFields(b.fields);
      Success(BlockDeclaration(b.name, identifier, props.pushConstant, storage, props.binding, props.setIndex, fields))
  }

  // ---------------------------------------------------------------------------
  // The descriptor view shared by variables and blocks (`DescriptorInfo`).

  datatype Descriptor = VariableDescriptor(variable: VariableDeclaration) | BlockDescriptor(block: BlockDeclaration)

  /** `storage()`: 2D samplers are combined image samplers; every other variable type is
      taken to be a storage image; a block has the type its storage qualifier gave it. */
  function DescriptorTypeOf(d: Descriptor): DescriptorType {
    match d
    case VariableDescriptor(v) => if v.typeSpecifier == Sampler2D then CombinedImageSampler else StorageImage
    case BlockDescriptor(b) => b.storage
  }

  /** `set_index()`: an absent set is set 0. */
  function SetIndexOf(d: Descriptor): nat {
    match d
    case VariableDescriptor(v) => v.setIndex.GetOr(0)
    case BlockDescriptor(b) => b.setIndex.GetOr(0)
  }

  /** `binding()`: an absent binding is an error naming the variable, or the block's
      struct name (not its instance name). */
  function BindingOf(d: Descriptor): VResult<nat> {
    match d
    case VariableDescriptor(v) => if v.binding.Some? then Success(v.binding.value) else Failure(Local(MissingBinding(v.name)))
    case BlockDescriptor(b) => if b.binding.Some? then Success(b.binding.value) else Failure(Local(MissingBinding(b.structName)))
  }

  /** `name()`: a block is known by its instance name when it has one. */
  function NameOf(d: Descriptor): string {
    match d
    case VariableDescriptor(v) => v.name
    case BlockDescriptor(b) => b.variableName.GetOr(b.structName)
  }

  /** What an analysed variable declaration offers as a descriptor, in terms of its source. */
  lemma VariableDescriptorInfo(idl: InitDeclaratorList)
    requires InitDeclaratorListStatus(idl) != Aborts
    requires MatchInitDeclaratorList(idl).Success? && MatchInitDeclaratorList(idl).value.Some?
    ensures var d := VariableDescriptor(MatchInitDeclaratorList(idl).value.value);
      var ids := LayoutIdsOf(idl.head.ty.qualifier.value.qualifiers);
      && NameOf(d) == idl.head.name.value
      && DescriptorTypeOf(d) == (if idl.head.ty.ty.ty == Sampler2D then CombinedImageSampler else StorageImage)
      && SetIndexOf(d) == LastIntOr(ids, "set", None).GetOr(0)
      && (BindingOf(d).Success? <==> LastIntOr(ids, "binding", None).Some?)
      && (BindingOf(d).Failure? ==> BindingOf(d).error == Local(MissingBinding(idl.head.name.value)))
  {
  }

  /** What an analysed block offers as a descriptor, in terms of its source. */
  lemma BlockDescriptorInfo(b: Block)
    requires BlockStatus(b) != Aborts && MatchBlock(b).Success?
    ensures var d := BlockDescriptor(MatchBlock(b).value);
      var ids := LayoutIdsOf(b.qualifier.qualifiers);
      && NameOf(d) == (if b.identifier.Some? then b.identifier.value.ident else b.name)
      && DescriptorTypeOf(d) == (if LastStorage(b.qualifier) == Some(Uniform) then UniformBuffer else StorageBuffer)
      && SetIndexOf(d) == LastIntOr(ids, "set", None).GetOr(0)
      && (BindingOf(d).Success? <==> LastIntOr(ids, "binding", None).Some?)
      && (BindingOf(d).Failure? ==> BindingOf(d).error == Local(MissingBinding(b.name)))
  {
  }
}
