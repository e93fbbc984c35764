/** The abstract syntax tree of a schema document: a document is an ordered list
    of definitions, each of which is (for now) a scalar type declaration with an
    optional description and a name. Every node is an immutable value. */
module Ast {

  /** An optional value, as for the description of a declaration. */
  datatype Option<+T> = None | Some(value: T)

  /** An identifier leaf; nothing requires the text to be non-empty. */
  datatype Name = Name(value: string)

  /** A scalar type declaration. */
  datatype ScalarType = ScalarType(description: Option<string>, name: Name)

  /** A type declaration; the object case is reserved and not yet present. */
  datatype TypeDefinition = Scalar(scalar: ScalarType)

  /** A top-level declaration; its only case wraps a type declaration. */
  datatype Definition = TypeDefinitionDef(typeDefinition: TypeDefinition)

  /** The root of a schema text: definitions in emission order. */
  datatype Document = Document(definitions: seq<Definition>)

  /** A reference to a type, possibly wrapped in list or non-null markers.
      Declared for completeness; no traversal reaches it. */
  datatype Type = NamedType | ListType(inner: Type) | NonNullType(inner: Type)

  /** A field of an object type. Declared for completeness; no traversal reaches it. */
  datatype Field = Field(description: Option<string>, name: Name, fieldType: Type)

  /** An object type declaration. Declared for completeness; no traversal reaches it. */
  datatype ObjectType = ObjectType(description: Option<string>, name: Name, fields: seq<Field>)

  /** Any node that can accept a visitor: the closed set of node kinds that the
      generic printing entry point can be started on. */
  datatype Node =
    | DocumentNode(document: Document)
    | DefinitionNode(definition: Definition)
    | TypeDefinitionNode(typeDefinition: TypeDefinition)
    | ScalarTypeNode(scalarType: ScalarType)
    | NameNode(name: Name)
}
