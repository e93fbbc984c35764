# Schema AST and visitor printer

A Dafny model of the small GraphQL-like schema printer in `rust-graphql/src/main.rs`.
A schema document is a tree of immutable nodes. A `Document` holds its definitions in
order. Each `Definition` wraps a `TypeDefinition`, which so far is always a `Scalar`
declaration (`ScalarType`). A scalar has an optional description and a `Name`. The
printer is a visitor whose only state is a text accumulator, `output`. Each visit
method appends to `output`, either directly or by calling the visit method of the
inner node. The document visit walks the definitions in order. The `print` entry
point starts a printer with empty output, hands it to the node's acceptor and
returns what has accumulated.

The model has three parts:

- `ast.dfy` (module `Ast`): the node kinds as datatypes. `Node` is the closed set of
  kinds that the generic entry point accepts. It stands in for the Rust `ASTNode`
  trait bound.
- `print_spec.dfy` (module `PrintSpec`): the exact text of each node kind as pure
  functions (`PrintName`, `PrintScalarType`, …, `PrintDocument`), plus lemmas about
  that text. These cover the two scalar forms, where each part sits in a scalar's
  text, the wrappers adding nothing, and concatenation and order of definitions.
  They also prove that a document prints empty exactly when it has no definitions.
- `printer.dfy` (module `Printing`): the `Printer` class with its `output: string`
  field. Each visit method has a `modifies this` clause. It is proved to leave
  `output == old(output) + <the spec text of its node>`. So the printer only ever
  appends, and what it appends depends only on the node. `VisitDocument` keeps the
  source's `for` loop. Its invariant states that the text of the definitions
  visited so far has been appended. `Accept` sends each node kind to the visit
  method of that same kind. `Print` is the entry point. `PrintSample` is the
  demonstration document from `main`, with its exact text.

`PrintTwice` states that printing the same node twice gives the same text: the
printer has no state beyond the accumulator that each call starts afresh.

A description is embedded verbatim, so one that contains `"""` closes the block
early. `ScalarWithDescription` states the exact text for every description,
including such ones.

## Model

| member | source | states |
|---|---|---|
| Printing.Printer.constructor | rust-graphql/src/main.rs:175-177 | a new printer's accumulator is empty |
| Printing.Printer.VisitName | rust-graphql/src/main.rs:141-143 | appends the name's raw value, unchanged, to whatever was already printed |
| Printing.Printer.VisitScalarType | rust-graphql/src/main.rs:144-153 | appends exactly the scalar's text (optional description block, name, `;\n`) after the previous output |
| Printing.Printer.VisitTypeDefinition | rust-graphql/src/main.rs:154-160 | appends exactly the text of the wrapped scalar after the previous output |
| Printing.Printer.VisitDefinition | rust-graphql/src/main.rs:161-167 | appends exactly the text of the wrapped type definition after the previous output |
| Printing.Printer.VisitDocument | rust-graphql/src/main.rs:168-172 | appends the texts of all definitions, in document order, after the previous output; loop invariant: the prefix of definitions visited so far has been appended |
| Printing.Printer.Accept | rust-graphql/src/main.rs:41-113 | for each node kind, the appended text is that kind's own visit output (document, definition, type definition, scalar, name) |
| Printing.Print | rust-graphql/src/main.rs:135-180 | starting from an empty accumulator, the returned string is exactly the visit output of the node's own kind |
| Printing.SampleText | rust-graphql/src/main.rs:182-199 | the demonstration document prints as the described block for `MyScalar` followed by `AnotherScalar;\n` |
| Printing.PrintTwice | rust-graphql/src/main.rs:135-180 | two calls of the entry point on the same node return the same text |
| Printing.PrintSample | rust-graphql/src/main.rs:182-199 | running the entry point on the demonstration document returns that exact text |
| PrintSpec.ScalarWithoutDescription | rust-graphql/src/main.rs:144-153 | a scalar without description prints as exactly its name followed by `;\n` |
| PrintSpec.ScalarWithDescription | rust-graphql/src/main.rs:145-152 | a scalar with description `t` prints as `"""\n` ++ t ++ `\n"""\n` ++ name ++ `;\n`, with `t` unescaped, for every `t` |
| PrintSpec.EmptyNameScalar | rust-graphql/src/main.rs:141-153 | an empty name is not rejected: a scalar with no description and an empty name prints as `;\n` |
| PrintSpec.ScalarTextLayout | rust-graphql/src/main.rs:144-153 | the scalar's text ends in `;\n` with the name right before it; its length is name + 2, plus description + 9 when described; a description sits at offset 4, right after the opening delimiter line and followed by the closing one |
| PrintSpec.WrappersAddNothing | rust-graphql/src/main.rs:154-167 | a definition wrapping a type definition wrapping a scalar prints exactly as the scalar does |
| PrintSpec.EmptyDocument | rust-graphql/src/main.rs:168-179 | a document with no definitions prints as the empty string |
| PrintSpec.DefinitionsAppend | rust-graphql/src/main.rs:168-172 | the text of `a ++ b` is the text of `a` followed by the text of `b` (in order, no separators) |
| PrintSpec.DefinitionsSnoc | rust-graphql/src/main.rs:168-172 | one more definition at the end adds exactly its text at the end |
| PrintSpec.DocumentConcat | rust-graphql/src/main.rs:168-172 | the document whose definitions are those of `a` then `b` prints as `a`'s text followed by `b`'s |
| PrintSpec.DefinitionAtOffset | rust-graphql/src/main.rs:168-172 | definition i's text occurs verbatim in the document text, starting exactly where the text of definitions 0..i-1 ends |
| PrintSpec.DefinitionEndsWithTerminator | rust-graphql/src/main.rs:144-167 | every definition's text is non-empty and ends with `;\n` |
| PrintSpec.DocumentEmptyIff | rust-graphql/src/main.rs:144-172 | a document prints as the empty string if and only if it has no definitions; a non-empty one's text ends with `;\n` |

## Left out

- `main`'s `println!` (rust-graphql/src/main.rs:199) is standard-output I/O. Only its sample document and the string `print` returns for it are modelled (`SampleDocument`, `PrintSample`); the newline that `println!` adds is not modelled.
- `Field`, `Type` and `ObjectType` (rust-graphql/src/main.rs:85-125) are declared as datatypes only. The source gives them no acceptor and no visit method, so nothing can print them, and the model invents no printing for them.
- The `Visitor` and `ASTNode` traits with generic double dispatch (rust-graphql/src/main.rs:13-26) are not reproduced as an open interface. The node kinds form a closed datatype (`Ast.Node`), and `Printer.Accept` dispatches with a `match`. Other visitors than the printer do not exist in the source and are not modelled.
- `Printer` is a struct local to `print` in the source. Here it is a class at module level, with the same single field.
- Rust `String`s are UTF-8 byte strings. The model uses `string` (a sequence of characters), so the lengths and offsets in `ScalarTextLayout` and `DefinitionAtOffset` count characters, not bytes.
- Parsing, and any escaping of `"""` inside descriptions, do not exist in the source. So no re-parse or round-trip property is stated.
