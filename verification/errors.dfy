/** The crate's `Error`: a local error with a reason (the source formats it into a message
    string; the model keeps the values the message names) or a native Vulkan result code. */
module Errors {
  import opened Wrappers
  import opened Glsl

  datatype Reason =
    | UnexpectedLayoutValue(value: Expr)
    | UnexpectedLayoutId(id: string, idValue: Option<nat>)
    | UnexpectedLayoutSpec(spec: LayoutQualifierSpec)
    | UnexpectedGlobalStorage(globalStorage: Option<StorageQualifier>)
    | UnexpectedArraySpecifier(arraySpecifier: ArraySpecifier)
    | MissingTypeQualifier
    | UnexpectedVariableStorage(variableStorage: Option<StorageQualifier>)
    | MissingVariableName
    | UnexpectedTail(tail: seq<ArrayedIdentifier>)
    | UnexpectedIdentifiers(identifiers: seq<ArrayedIdentifier>)
    | UnexpectedArrayDimension(dimension: Expr)
    | UnexpectedInstanceArray(instanceArray: ArraySpecifier)
    | InvalidBlockStorage(blockStorage: Option<StorageQualifier>)
    | MissingBinding(declarationName: string)
    | SharedBinding(binding: nat, name: string, previous: string)

  datatype Error = Local(reason: Reason) | Vk(code: int)

  type VResult<T> = Result<T, Error>
}
