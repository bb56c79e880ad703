/** The part of the GLSL syntax tree (as produced by the `glsl` crate's parser) that the
    declaration analyser inspects. Parsing itself is not modelled: the analyser starts
    from a tree of this shape. Names follow the crate's `syntax` module. */
module Glsl {
  import opened Wrappers

  /** Expressions: only integer literals matter to the analyser; everything else is
      carried so that "not an integer literal" can be expressed. */
  datatype Expr =
    | IntConst(intValue: int)
    | UIntConst(uintValue: nat)
    | BoolConst(boolValue: bool)
    | FloatConst(text: string)
    | Variable(ident: string)
    | OtherExpr(source: string)

  /** One entry of `layout(...)`: `name` or `name = value`, or the keyword `shared`. */
  datatype LayoutQualifierSpec =
    | Identifier(name: string, value: Option<Expr>)
    | SharedLayout

  datatype StorageQualifier =
    | Const | InOut | In | Out | Centroid | Patch | Sample | Uniform | Attribute
    | Varying | Buffer | Shared | Coherent | Volatile | Restrict | ReadOnly | WriteOnly
    | Subroutine(typeNames: seq<string>)

  datatype PrecisionQualifier = High | Medium | Low

  datatype InterpolationQualifier = Smooth | Flat | NoPerspective

  datatype TypeQualifierSpec =
    | Storage(storage: StorageQualifier)
    | Layout(ids: seq<LayoutQualifierSpec>)
    | Precision(precision: PrecisionQualifier)
    | Interpolation(interpolation: InterpolationQualifier)
    | Invariant
    | Precise

  datatype TypeQualifier = TypeQualifier(qualifiers: seq<TypeQualifierSpec>)

  /** The non-array type names. The scalar, vector and matrix types listed here are
      exactly those with an entry in the block field size table; `OtherType` stands for
      the remaining type names of GLSL (samplers and images of other dimensions,
      user type names, ...). */
  datatype TypeSpecifierNonArray =
    | Void | Bool | Int | UInt | Float | Double
    | Vec2 | Vec3 | Vec4 | IVec2 | IVec3 | IVec4 | UVec2 | UVec3 | UVec4
    | Mat2 | Mat3 | Mat4 | Mat23 | Mat24 | Mat32 | Mat34 | Mat42 | Mat43
    | Image2D
    | Sampler2D
    | Struct(structName: Option<string>)
    | OtherType(typeName: string)

  datatype ArraySpecifierDimension = Unsized | ExplicitlySized(size: Expr)

  datatype ArraySpecifier = ArraySpecifier(dimensions: seq<ArraySpecifierDimension>)

  datatype TypeSpecifier = TypeSpecifier(ty: TypeSpecifierNonArray, arraySpecifier: Option<ArraySpecifier>)

  datatype FullySpecifiedType = FullySpecifiedType(qualifier: Option<TypeQualifier>, ty: TypeSpecifier)

  datatype ArrayedIdentifier = ArrayedIdentifier(ident: string, arraySpec: Option<ArraySpecifier>)

  datatype SingleDeclaration = SingleDeclaration(
    ty: FullySpecifiedType,
    name: Option<string>,
    arraySpecifier: Option<ArraySpecifier>,
    initializer: Option<Expr>)

  /** `T a, b[2] = ...;` — the head declaration and the further declarators. */
  datatype InitDeclaratorList = InitDeclaratorList(head: SingleDeclaration, tail: seq<ArrayedIdentifier>)

  datatype StructFieldSpecifier = StructFieldSpecifier(
    qualifier: Option<TypeQualifier>,
    ty: TypeSpecifier,
    identifiers: seq<ArrayedIdentifier>)

  /** `qualifier Name { fields } identifier;` */
  datatype Block = Block(
    qualifier: TypeQualifier,
    name: string,
    fields: seq<StructFieldSpecifier>,
    identifier: Option<ArrayedIdentifier>)

  datatype Declaration =
    | FunctionPrototype(prototypeName: string)
    | InitDeclarators(list: InitDeclaratorList)
    | PrecisionDeclaration(precisionQualifier: PrecisionQualifier, precisionType: TypeSpecifier)
    | BlockItem(block: Block)
    | Global(qualifier: TypeQualifier, names: seq<string>)

  datatype ExternalDeclaration =
    | Preprocessor(directive: string)
    | FunctionDefinition(functionName: string)
    | DeclarationItem(declaration: Declaration)
}
