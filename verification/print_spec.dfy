/** The schema text that the printer produces for each node kind, as pure
    functions, and what is proved about that text. The imperative printer in
    module Printing is proved to append exactly these strings. */
module PrintSpec {
  import opened Ast

  /** The delimiter that opens and closes a description block. */
  const TripleQuote: string := "\"\"\""

  /** A name prints as its raw text: no quoting, escaping or validation. */
  function PrintName(n: Name): string
  {
    n.value
  }

  /** A present description prints as a block between two delimiter lines; the
      text is embedded verbatim. An absent description prints nothing. */
  function PrintDescription(description: Option<string>): string
  {
    match description
    case None => ""
    case Some(text) => TripleQuote + "\n" + text + "\n" + TripleQuote + "\n"
  }

  /** A scalar declaration: its description block, its name, then a terminator. */
  function PrintScalarType(st: ScalarType): string
  {
    PrintDescription(st.description) + PrintName(st.name) + ";\n"
  }

  function PrintTypeDefinition(td: TypeDefinition): string
  {
    match td
    case Scalar(st) => PrintScalarType(st)
  }

  function PrintDefinition(d: Definition): string
  {
    match d
    case TypeDefinitionDef(td) => PrintTypeDefinition(td)
  }

  /** Definitions in order, with nothing between them. */
  function PrintDefinitions(defs: seq<Definition>): string
  {
    if defs == [] then "" else PrintDefinition(defs[0]) + PrintDefinitions(defs[1..])
  }

  function PrintDocument(d: Document): string
  {
    PrintDefinitions(d.definitions)
  }

  // ----- scalar declarations -----

  /** Without a description a scalar is its name followed by the terminator. */
  lemma ScalarWithoutDescription(st: ScalarType)
    requires st.description == None
    ensures PrintScalarType(st) == st.name.value + ";\n"
  {
  }

  /** With a description the text is embedded, unescaped, between delimiter lines. */
  lemma ScalarWithDescription(st: ScalarType, text: string)
    requires st.description == Some(text)
    ensures PrintScalarType(st) == "\"\"\"\n" + text + "\n\"\"\"\n" + st.name.value + ";\n"
  {
  }

  /** An empty name is not rejected: a scalar without description prints as the
      bare terminator. */
  lemma EmptyNameScalar(st: ScalarType)
    requires st.description == None && st.name.value == ""
    ensures PrintScalarType(st) == ";\n"
  {
  }

  /** Where each part of a scalar's text sits: the description (if any) right
      after the opening delimiter line, the name right before the terminator. */
  lemma ScalarTextLayout(st: ScalarType)
    ensures var r := PrintScalarType(st);
      |r| >= |st.name.value| + 2 &&
      r[|r| - 2..] == ";\n" &&
      r[|r| - 2 - |st.name.value|..|r| - 2] == st.name.value &&
      (st.description.None? ==> |r| == |st.name.value| + 2) &&
      (st.description.Some? ==>
         var text := st.description.value;
         |r| == |text| + 9 + |st.name.value| + 2 &&
         r[..4] == TripleQuote + "\n" &&
         r[4..4 + |text|] == text &&
         r[4 + |text|..8 + |text|] == "\n" + TripleQuote)
  {
    var r := PrintScalarType(st);
    var tail := st.name.value + ";\n";
    assert r == PrintDescription(st.description) + tail;
    assert r[|r| - |tail|..] == tail;
    assert tail[..|st.name.value|] == st.name.value;
    if st.description.Some? {
      var text := st.description.value;
      var block := PrintDescription(st.description);
      assert block == (TripleQuote + "\n") + text + ("\n" + TripleQuote) + "\n";
      assert r[..|block|] == block;
      assert block[4..4 + |text|] == text;
      assert block[4 + |text|..8 + |text|] == "\n" + TripleQuote;
    }
  }

  // ----- the wrapper nodes -----

  /** The two one-case wrappers add no text of their own. */
  lemma WrappersAddNothing(st: ScalarType)
    ensures PrintDefinition(TypeDefinitionDef(Scalar(st))) == PrintScalarType(st)
    ensures PrintTypeDefinition(Scalar(st)) == PrintScalarType(st)
  {
  }

  // ----- documents -----

  /** Regrouping a concatenation of three strings (stated once, so that the
      solver does not search for it). */
  lemma ConcatAssoc(a: string, b: string, c: string)
    ensures (a + b) + c == a + (b + c)
  {
  }

  /** A document without definitions prints as the empty string. */
  lemma EmptyDocument()
    ensures PrintDocument(Document([])) == ""
  {
  }

  /** Printing a concatenation of definition lists is the concatenation of
      their texts: definitions are emitted in order, with no separators. */
  lemma {:induction false} DefinitionsAppend(a: seq<Definition>, b: seq<Definition>)
    ensures PrintDefinitions(a + b) == PrintDefinitions(a) + PrintDefinitions(b)
    decreases |a|
  {
    if a == [] {
      assert a + b == b;
    } else {
      assert (a + b)[0] == a[0];
      assert (a + b)[1..] == a[1..] + b;
      DefinitionsAppend(a[1..], b);
    }
  }

  /** One definition more at the end of the list is its text more at the end. */
  lemma DefinitionsSnoc(defs: seq<Definition>, d: Definition)
    ensures PrintDefinitions(defs + [d]) == PrintDefinitions(defs) + PrintDefinition(d)
  {
    DefinitionsAppend(defs, [d]);
    assert [d][1..] == [];
  }

  /** Document form of the concatenation property. */
  lemma DocumentConcat(a: Document, b: Document)
    ensures PrintDocument(Document(a.definitions + b.definitions))
         == PrintDocument(a) + PrintDocument(b)
  {
    DefinitionsAppend(a.definitions, b.definitions);
  }

  /** The text of definition i appears verbatim in the document's text, starting
      right where the text of the definitions before it ends. */
  lemma DefinitionAtOffset(defs: seq<Definition>, i: nat)
    requires i < |defs|
    ensures var offset := |PrintDefinitions(defs[..i])|;
      var piece := PrintDefinition(defs[i]);
      var r := PrintDefinitions(defs);
      offset + |piece| <= |r| && r[offset..offset + |piece|] == piece
  {
    var before, after := defs[..i], defs[i + 1..];
    assert defs == before + ([defs[i]] + after);
    DefinitionsAppend(before, [defs[i]] + after);
    assert ([defs[i]] + after)[1..] == after;
  }

  /** Every definition's text is non-empty and ends with the terminator. */
  lemma DefinitionEndsWithTerminator(d: Definition)
    ensures var r := PrintDefinition(d); |r| >= 2 && r[|r| - 2..] == ";\n"
  {
    match d
    case TypeDefinitionDef(Scalar(st)) => ScalarTextLayout(st);
  }

  /** A document prints as the empty string exactly when it has no definitions;
      otherwise its text ends with the terminator of its last definition. */
  lemma {:induction false} DocumentEmptyIff(d: Document)
    ensures PrintDocument(d) == "" <==> d.definitions == []
    ensures d.definitions != [] ==>
      var r := PrintDocument(d); |r| >= 2 && r[|r| - 2..] == ";\n"
    decreases |d.definitions|
  {
    var defs := d.definitions;
    if defs != [] {
      var head, rest := PrintDefinition(defs[0]), PrintDefinitions(defs[1..]);
      DefinitionEndsWithTerminator(defs[0]);
      DocumentEmptyIff(Document(defs[1..]));
      var r := head + rest;
      if rest == [] {
        assert r == head;
      } else {
        assert r[|r| - 2..] == rest[|rest| - 2..];
      }
    }
  }
}
