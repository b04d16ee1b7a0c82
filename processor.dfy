/**
 * `RabbitPacketProcessor`: the compile-time step that writes
 * `GeneratedPacketRegistry`, a Kotlin object whose `registerAll` registers
 * every class labelled `RabbitPacketLabel`.  Only the produced text is
 * modelled; the symbol resolver is a list of declarations.
 */
module Processor {
  import opened Base

  /** The fully qualified annotation the processor asks the resolver for. */
  const LabelAnnotation := "gg.levely.system.hoppermq.core.packet.RabbitPacketLabel"

  /** A declaration the resolver can return: its annotations, whether it is a class, and its names. */
  datatype Declaration = Declaration(annotations: set<string>, isClass: bool,
                                     qualifiedName: Option<string>, simpleName: string)

  /** The symbols `process` works on: labelled class declarations, in resolver order. */
  function Selected(all: seq<Declaration>): (r: seq<Declaration>)
    ensures |r| <= |all|
    ensures forall d :: d in r <==> d in all && d.isClass && LabelAnnotation in d.annotations
    ensures all != [] && all[0].isClass && LabelAnnotation in all[0].annotations ==> r != [] && r[0] == all[0]
  {
    if all == [] then []
    else if all[0].isClass && LabelAnnotation in all[0].annotations then [all[0]] + Selected(all[1..])
    else Selected(all[1..])
  }

  const Header := "package gg.levely.system.hoppermq.generated\n\n"
  const RegistryImport := "import gg.levely.system.hoppermq.core.packet.PacketRegistry\n"
  const ObjectOpen := "\nobject GeneratedPacketRegistry {\n\n    fun registerAll(registry: PacketRegistry) {\n"
  const Footer := "    }\n\n}\n"

  function ImportLine(qualifiedName: string): string { "import " + qualifiedName + "\n" }
  function RegisterLine(simpleName: string): string { "        registry.register(" + simpleName + "::class.java)\n" }

  /** What the first loop writes after `symbols`: an import per qualified name. */
  function Imports(symbols: seq<Declaration>): string
  {
    if symbols == [] then ""
    else
      var last := symbols[|symbols| - 1];
      Imports(symbols[..|symbols| - 1]) + (if last.qualifiedName.Some? then ImportLine(last.qualifiedName.value) else "")
  }

  /** What the second loop writes after `symbols`: a register call per symbol. */
  function Registers(symbols: seq<Declaration>): string
  {
    if symbols == [] then ""
    else Registers(symbols[..|symbols| - 1]) + RegisterLine(symbols[|symbols| - 1].simpleName)
  }

  /** The whole generated file for a non-empty list of symbols. */
  function GeneratedText(symbols: seq<Declaration>): string
  {
    Header + RegistryImport + Imports(symbols) + ObjectOpen + Registers(symbols) + Footer
  }

  /** The first `forEach`: an import line for each symbol whose qualified name is known. */
  method WriteImports(symbols: seq<Declaration>) returns (written: string)
    ensures written == Imports(symbols)
  {
    written := "";
    var i := 0;
    while i < |symbols|
      invariant 0 <= i <= |symbols|
      invariant written == Imports(symbols[..i])
    {
      assert symbols[..i + 1][..i] == symbols[..i];
      var qualifiedName := symbols[i].qualifiedName;
      if qualifiedName.Some? {
        written := written + ImportLine(qualifiedName.value);
      }
      i := i + 1;
    }
    assert symbols[..i] == symbols;
  }

  /** The second `forEach`: a register call for each symbol. */
  method WriteRegisters(symbols: seq<Declaration>) returns (written: string)
    ensures written == Registers(symbols)
  {
    written := "";
    var i := 0;
    while i < |symbols|
      invariant 0 <= i <= |symbols|
      invariant written == Registers(symbols[..i])
    {
      assert symbols[..i + 1][..i] == symbols[..i];
      written := written + RegisterLine(symbols[i].simpleName);
      i := i + 1;
    }
    assert symbols[..i] == symbols;
  }

  /**
   * `process(resolver)`: no file at all when no symbol is selected; otherwise
   * the generated text, written piece by piece in file order.  No symbol is
   * ever deferred to a later round.
   */
  method Process(all: seq<Declaration>) returns (file: Option<string>, deferred: seq<Declaration>)
    ensures file.None? <==> Selected(all) == []
    ensures file.Some? ==> file.value == GeneratedText(Selected(all))
    ensures deferred == []
  {
    deferred := [];
    var symbols := Selected(all);
    if |symbols| == 0 {
      return None, deferred;
    }
    var imports := WriteImports(symbols);
    var registers := WriteRegisters(symbols);
    file := Some(Header + RegistryImport + imports + ObjectOpen + registers + Footer);
  }

  /** The concatenation of a list of lines. */
  function Concat(lines: seq<string>): string
  {
    if lines == [] then "" else lines[0] + Concat(lines[1..])
  }

  lemma {:induction false} ConcatAppend(a: seq<string>, b: seq<string>)
    ensures Concat(a + b) == Concat(a) + Concat(b)
    decreases |a|
  {
    if a == [] {
      assert a + b == b;
    } else {
      assert (a + b)[1..] == a[1..] + b;
      ConcatAppend(a[1..], b);
    }
  }

  /** The import lines, one per symbol that has a qualified name, in order. */
  function ImportLines(symbols: seq<Declaration>): seq<string>
  {
    if symbols == [] then []
    else (if symbols[0].qualifiedName.Some? then [ImportLine(symbols[0].qualifiedName.value)] else [])
         + ImportLines(symbols[1..])
  }

  lemma {:induction false} ImportLinesAppend(a: seq<Declaration>, b: seq<Declaration>)
    ensures ImportLines(a + b) == ImportLines(a) + ImportLines(b)
    decreases |a|
  {
    if a == [] {
      assert a + b == b;
    } else {
      assert (a + b)[1..] == a[1..] + b;
      ImportLinesAppend(a[1..], b);
    }
  }

  /** Each symbol with a qualified name contributes exactly its import; the others contribute none. */
  lemma {:induction false} ImportsInOrder(symbols: seq<Declaration>)
    ensures Imports(symbols) == Concat(ImportLines(symbols))
    ensures |ImportLines(symbols)| <= |symbols|
    ensures (forall d :: d in symbols ==> d.qualifiedName.Some?) ==> |ImportLines(symbols)| == |symbols|
    decreases |symbols|
  {
    if symbols != [] {
      var init, last := symbols[..|symbols| - 1], symbols[|symbols| - 1];
      assert symbols == init + [last];
      ImportsInOrder(init);
      ImportLinesAppend(init, [last]);
      assert [last][1..] == [];
      ConcatAppend(ImportLines(init), ImportLines([last]));
      assert (forall d :: d in symbols ==> d.qualifiedName.Some?) ==> (forall d :: d in init ==> d.qualifiedName.Some?);
    }
  }

  /** Exactly one register call per symbol, qualified name or not, in order. */
  lemma {:induction false} RegistersInOrder(symbols: seq<Declaration>)
    ensures Registers(symbols) == Concat(seq(|symbols|, i requires 0 <= i < |symbols| => RegisterLine(symbols[i].simpleName)))
    decreases |symbols|
  {
    if symbols != [] {
      var n := |symbols| - 1;
      var init := symbols[..n];
      RegistersInOrder(init);
      var lines := seq(|symbols|, i requires 0 <= i < |symbols| => RegisterLine(symbols[i].simpleName));
      var initLines := seq(|init|, i requires 0 <= i < |init| => RegisterLine(init[i].simpleName));
      assert lines == initLines + [RegisterLine(symbols[n].simpleName)];
      ConcatAppend(initLines, [RegisterLine(symbols[n].simpleName)]);
      assert Concat([RegisterLine(symbols[n].simpleName)]) == RegisterLine(symbols[n].simpleName);
    }
  }

  /** The file opens with the package line and the registry import, and closes `registerAll` and the object. */
  lemma GeneratedFraming(symbols: seq<Declaration>)
    ensures Header + RegistryImport <= GeneratedText(symbols)
    ensures var text := GeneratedText(symbols);
      |text| >= |Footer| && text[|text| - |Footer|..] == Footer
  {
    var text := GeneratedText(symbols);
    var rest := Imports(symbols) + ObjectOpen + Registers(symbols) + Footer;
    assert text == (Header + RegistryImport) + rest;
    var body := Header + RegistryImport + Imports(symbols) + ObjectOpen + Registers(symbols);
    assert text == body + Footer;
  }

  /**
   * `Selected` is the order-preserving filter of the resolver's list: it
   * keeps a single declaration exactly when it is a labelled class, and the
   * selection of a concatenation is the concatenation of the selections, so
   * order and repetitions are those of the resolver.
   */
  lemma {:induction false} SelectedAppend(a: seq<Declaration>, b: seq<Declaration>)
    ensures Selected(a + b) == Selected(a) + Selected(b)
    decreases |a|
  {
    if a == [] {
      assert a + b == b;
    } else {
      assert (a + b)[1..] == a[1..] + b;
      SelectedAppend(a[1..], b);
    }
  }

  lemma SelectedSingle(d: Declaration)
    ensures Selected([d]) == if d.isClass && LabelAnnotation in d.annotations then [d] else []
  {
    assert [d][1..] == [];
  }
}
