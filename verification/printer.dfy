/** The printer: a visitor whose only state is a text accumulator. Each visit
    method appends to the accumulator (directly, or by delegating to the visit
    method of the inner node) and is proved to append exactly the text that
    module PrintSpec gives for its node. */
module Printing {
  import opened Ast
  import opened PrintSpec

  class Printer {
    /** Everything printed so far. */
    var output: string

    /** A printer starts with nothing printed. */
    constructor ()
      ensures output == ""
    {
      output := "";
    }

    method VisitName(n: Name)
      modifies this
      ensures output == old(output) + PrintName(n)
    {
      output := output + n.value;
    }

    method VisitScalarType(st: ScalarType)
      modifies this
      ensures output == old(output) + PrintScalarType(st)
    {
      match st.description {
        case Some(description) =>
          output := output + ("\"\"\"\n" + description + "\n\"\"\"\n");
        case None =>
      }
      VisitName(st.name);
      output := output + ";\n";
    }

    method VisitTypeDefinition(td: TypeDefinition)
      modifies this
      ensures output == old(output) + PrintTypeDefinition(td)
    {
      match td {
        case Scalar(st) => VisitScalarType(st);
      }
    }

    method VisitDefinition(d: Definition)
      modifies this
      ensures output == old(output) + PrintDefinition(d)
    {
      match d {
        case TypeDefinitionDef(td) => VisitTypeDefinition(td);
      }
    }

    /** Visits the definitions one by one, in document order. */
    method VisitDocument(d: Document)
      modifies this
      ensures output == old(output) + PrintDocument(d)
    {
      var defs := d.definitions;
      ghost var start := output;
      for i := 0 to |defs|
        invariant output == start + PrintDefinitions(defs[..i])
      {
        VisitDefinition(defs[i]);
        assert defs[..i + 1] == defs[..i] + [defs[i]];
        DefinitionsSnoc(defs[..i], defs[i]);
        ConcatAssoc(start, PrintDefinitions(defs[..i]), PrintDefinition(defs[i]));
      }
      assert defs[..|defs|] == defs;
    }

    /** The acceptor of every node kind: each kind is handed to the visit
        method of that same kind, and nothing else is appended. */
    method Accept(n: Node)
      modifies this
      ensures n.DocumentNode? ==> output == old(output) + PrintDocument(n.document)
      ensures n.DefinitionNode? ==> output == old(output) + PrintDefinition(n.definition)
      ensures n.TypeDefinitionNode? ==> output == old(output) + PrintTypeDefinition(n.typeDefinition)
      ensures n.ScalarTypeNode? ==> output == old(output) + PrintScalarType(n.scalarType)
      ensures n.NameNode? ==> output == old(output) + PrintName(n.name)
    {
      match n {
        case DocumentNode(d) => VisitDocument(d);
        case DefinitionNode(d) => VisitDefinition(d);
        case TypeDefinitionNode(td) => VisitTypeDefinition(td);
        case ScalarTypeNode(st) => VisitScalarType(st);
        case NameNode(name) => VisitName(name);
      }
    }
  }

  /** The printing entry point: a fresh printer, one accept, and what it has
      accumulated. Any node kind prints as its own visit output from empty. */
  method Print(n: Node) returns (s: string)
    ensures n.DocumentNode? ==> s == PrintDocument(n.document)
    ensures n.DefinitionNode? ==> s == PrintDefinition(n.definition)
    ensures n.TypeDefinitionNode? ==> s == PrintTypeDefinition(n.typeDefinition)
    ensures n.ScalarTypeNode? ==> s == PrintScalarType(n.scalarType)
    ensures n.NameNode? ==> s == PrintName(n.name)
  {
    var printer := new Printer();
    printer.Accept(n);
    s := printer.output;
  }

  /** Printing is repeatable: each call starts from a fresh, empty
      accumulator, so the same node always prints as the same text. */
  method PrintTwice(n: Node) returns (a: string, b: string)
    ensures a == b
  {
    a := Print(n);
    b := Print(n);
  }

  /** The demonstration document: one described scalar and one bare scalar. */
  function SampleDocument(): Document
  {
    Document([
      TypeDefinitionDef(Scalar(ScalarType(Some("a value that we can use :)"), Name("MyScalar")))),
      TypeDefinitionDef(Scalar(ScalarType(None, Name("AnotherScalar"))))
    ])
  }

  /** The expected text of the two demonstration declarations. */
  const SampleDescribedText: string := "\"\"\"\na value that we can use :)\n\"\"\"\nMyScalar;\n"
  const SampleBareText: string := "AnotherScalar;\n"

  /** The described demonstration scalar's text, split into its parts. */
  lemma SampleDescribedParts()
    ensures SampleDescribedText
         == "\"\"\"\n" + "a value that we can use :)" + "\n\"\"\"\n" + "MyScalar" + ";\n"
  {
  }

  /** The described demonstration scalar prints as a delimited block and its name. */
  lemma SampleDescribedScalar()
    ensures PrintDefinition(SampleDocument().definitions[0]) == SampleDescribedText
  {
    var st := ScalarType(Some("a value that we can use :)"), Name("MyScalar"));
    assert SampleDocument().definitions[0] == TypeDefinitionDef(Scalar(st));
    ScalarWithDescription(st, "a value that we can use :)");
    SampleDescribedParts();
  }

  /** The bare demonstration scalar prints as its name and the terminator. */
  lemma SampleBareScalar()
    ensures PrintDefinition(SampleDocument().definitions[1]) == SampleBareText
  {
    ScalarWithoutDescription(ScalarType(None, Name("AnotherScalar")));
  }

  /** The text of the demonstration document: the described scalar as a
      delimited block followed by its name, then the bare scalar. */
  lemma SampleText()
    ensures PrintDocument(SampleDocument()) == SampleDescribedText + SampleBareText
  {
    var defs := SampleDocument().definitions;
    SampleDescribedScalar();
    SampleBareScalar();
    assert defs == [defs[0]] + [defs[1]];
    DefinitionsAppend([defs[0]], [defs[1]]);
    assert [defs[0]][1..] == [] && [defs[1]][1..] == [];
  }

  /** Printing the demonstration document gives exactly this text. */
  method PrintSample() returns (s: string)
    ensures s == SampleDescribedText + SampleBareText
  {
    s := Print(DocumentNode(SampleDocument()));
    SampleText();
  }
}
