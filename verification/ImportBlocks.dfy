/**
 Where an import stands matters as much as what it binds. Lines are executed with
 Python's rule for indentation: a line at a deeper column must follow a block
 header, a line at a shallower one closes blocks, and any other line is an error.
 The script replaces an import by text whose lines start at column 0, except the
 first, which is left where the import stood.
 */
module ImportBlocks {
  import opened Wrappers
  import opened StringOrder
  import opened ImportRewriter
  import opened ImportMeaning

  // ----- executing lines

  /**
   All the rest of the language: what packages export, what other statements do,
   which of them open a block, what a block starts with, and what its end does to
   the enclosing block.
   */
  datatype Language = Language(
    exports: Exports,
    run: (string, Namespace) -> Namespace,
    opens: string -> bool,
    enter: (string, Namespace) -> Namespace,
    leave: (string, Namespace, Namespace) -> Namespace)

  datatype Block = Block(column: nat, header: string, ns: Namespace)

  /** The open blocks, and the header just read if its body must come next. Broken is an IndentationError or SyntaxError. */
  datatype Machine = Broken | At(outer: seq<Block>, inner: Block, header: Option<string>)

  function Dedent(lang: Language, outer: seq<Block>, inner: Block, column: nat): Machine
    decreases |outer|
  {
    if column == inner.column then At(outer, inner, None)
    else if column > inner.column || outer == [] then Broken
    else
      var parent := outer[|outer| - 1];
      Dedent(lang, outer[..|outer| - 1], parent.(ns := lang.leave(inner.header, parent.ns, inner.ns)), column)
  }

  /** The blocks in force for a line at `column`. */
  function Place(lang: Language, m: Machine, column: nat): Machine {
    if m.Broken? then Broken
    else if m.header.None? then Dedent(lang, m.outer, m.inner, column)
    else if column <= m.inner.column then Broken
    else At(m.outer + [m.inner], Block(column, m.header.value, lang.enter(m.header.value, m.inner.ns)), None)
  }

  /** An import of nothing is a SyntaxError. */
  function Perform(lang: Language, m: Machine, s: Stmt): Machine
    requires m.At?
  {
    match s
    case FromImport(_, package, _, symbols) =>
      if symbols == [] then Broken
      else m.(inner := m.inner.(ns := Bind(m.inner.ns, Bindings(lang.exports, package, symbols))))
    case Other(_, text) =>
      if lang.opens(text) then m.(header := Some(text))
      else m.(inner := m.inner.(ns := lang.run(text, m.inner.ns)))
  }

  function Step(lang: Language, m: Machine, s: Stmt): Machine {
    var at := Place(lang, m, s.indent);
    if at.Broken? then Broken else Perform(lang, at, s)
  }

  function Run(lang: Language, m: Machine, lines: seq<Stmt>): Machine
    decreases |lines|
  {
    if lines == [] then m else Step(lang, Run(lang, m, lines[..|lines| - 1]), lines[|lines| - 1])
  }

  /** The namespace a file leaves behind, or None if it does not compile. */
  function Meaning(lang: Language, ns: Namespace, file: seq<Stmt>): Option<Namespace> {
    var end := Run(lang, At([], Block(0, "", ns), None), file);
    if end.Broken? || end.header.Some? then None else
      var top := Dedent(lang, end.outer, end.inner, 0);
      if top.Broken? then None else Some(top.inner.ns)
  }

  lemma {:induction false} RunConcat(lang: Language, m: Machine, a: seq<Stmt>, b: seq<Stmt>)
    ensures Run(lang, m, a + b) == Run(lang, Run(lang, m, a), b)
    decreases |b|
  {
    if b == [] {
      assert a + b == a;
    } else {
      RunConcat(lang, m, a, b[..|b| - 1]);
      assert (a + b)[..|a + b| - 1] == a + b[..|b| - 1];
    }
  }

  lemma {:induction false} RunOne(lang: Language, m: Machine, s: Stmt)
    ensures Run(lang, m, [s]) == Step(lang, m, s)
  {
    assert [s][..0] == [] && Run(lang, m, []) == m;
  }

  lemma {:induction false} DedentPlaces(lang: Language, outer: seq<Block>, inner: Block, column: nat)
    ensures var m := Dedent(lang, outer, inner, column); m.At? ==> m.inner.column == column && m.header == None
    decreases |outer|
  {
    if column < inner.column && outer != [] {
      var parent := outer[|outer| - 1];
      DedentPlaces(lang, outer[..|outer| - 1], parent.(ns := lang.leave(inner.header, parent.ns, inner.ns)), column);
    }
  }

  /** After placing a line at a column the innermost block stands there, and placing it again changes nothing. */
  lemma {:induction false} Placed(lang: Language, m: Machine, column: nat)
    ensures var at := Place(lang, m, column);
      at.At? ==> at.inner.column == column && at.header == None && Place(lang, at, column) == at
  {
    if m.At? && m.header.None? { DedentPlaces(lang, m.outer, m.inner, column); }
  }

  /** After an import the innermost block is the one the import stands in. */
  lemma {:induction false} ImportStays(lang: Language, m: Machine, s: Stmt)
    requires s.FromImport?
    ensures var after := Step(lang, m, s); after.At? ==> after.inner.column == s.indent && after.header == None
  {
    Placed(lang, m, s.indent);
  }

  // ----- the text put in place of an import

  function Moved(s: Stmt, indent: nat): Stmt { s.(indent := indent) }

  /** Only the first of the new lines stands where the import stood. */
  function Splice(indent: nat, lines: seq<Stmt>): seq<Stmt> {
    if lines == [] then [] else [Moved(lines[0], indent)] + lines[1..]
  }

  function NewLines(indent: nat, base: string, mapping: Mapping, symbols: seq<string>): (lines: seq<Stmt>)
    ensures |lines| == |Rewrite(base, mapping, symbols)|
  {
    Splice(indent, Rewrite(base, mapping, symbols))
  }

  /** Line i differs from the generated one in its column at most. */
  lemma {:induction false} NewLineIs(indent: nat, base: string, mapping: Mapping, symbols: seq<string>, i: nat)
    requires i < |Rewrite(base, mapping, symbols)|
    ensures NewLines(indent, base, mapping, symbols)[i] ==
            Moved(Rewrite(base, mapping, symbols)[i], if i == 0 then indent else 0)
  {
    SpliceAt(indent, Rewrite(base, mapping, symbols), i);
  }

  lemma {:induction false} SpliceAt(indent: nat, lines: seq<Stmt>, i: nat)
    requires i < |lines| && lines[i].indent == 0
    ensures Splice(indent, lines)[i] == Moved(lines[i], if i == 0 then indent else 0)
  {
  }

  lemma {:induction false} LineCount(base: string, mapping: Mapping, symbols: seq<string>)
    ensures |Rewrite(base, mapping, symbols)| == |Modules(mapping, symbols)|
  {
    SortStringsCorrect(Modules(mapping, symbols));
    assert |multiset(SortStrings(Modules(mapping, symbols)))| == |multiset(Modules(mapping, symbols))|;
  }

  /** All symbols come from the same module. */
  ghost predicate OneModule(mapping: Mapping, symbols: seq<string>) {
    forall a, b :: a in symbols && b in symbols ==> ModuleOf(mapping, a) == ModuleOf(mapping, b)
  }

  lemma {:induction false} OneModuleExactly(mapping: Mapping, symbols: seq<string>)
    ensures OneModule(mapping, symbols) <==> |Modules(mapping, symbols)| <= 1
  {
    var modules := Modules(mapping, symbols);
    if |modules| > 1 {
      ModulesAre(mapping, symbols, modules[0]);
      ModulesAre(mapping, symbols, modules[1]);
      var i :| 0 <= i < |symbols| && ModuleOf(mapping, symbols[i]) == modules[0];
      var j :| 0 <= j < |symbols| && ModuleOf(mapping, symbols[j]) == modules[1];
      assert modules[0] != modules[1] && symbols[i] in symbols && symbols[j] in symbols;
    } else {
      forall a, b | a in symbols && b in symbols ensures ModuleOf(mapping, a) == ModuleOf(mapping, b) {
        ModuleListed(mapping, symbols, a);
        ModuleListed(mapping, symbols, b);
      }
    }
  }

  lemma {:induction false} ModuleListed(mapping: Mapping, symbols: seq<string>, symbol: string)
    requires symbol in symbols
    ensures ModuleOf(mapping, symbol) in Modules(mapping, symbols)
  {
    ModulesAre(mapping, symbols, ModuleOf(mapping, symbol));
    var i :| 0 <= i < |symbols| && symbols[i] == symbol;
    assert ModuleOf(mapping, symbols[i]) == ModuleOf(mapping, symbol);
  }

  /** Every new line stands where the import stood exactly when that is column 0 or there is no second line. */
  lemma {:induction false} IndentKeptExactly(indent: nat, base: string, mapping: Mapping, symbols: seq<string>)
    ensures (forall i :: 0 <= i < |NewLines(indent, base, mapping, symbols)| ==>
               NewLines(indent, base, mapping, symbols)[i].indent == indent)
       <==> indent == 0 || OneModule(mapping, symbols)
  {
    var lines := NewLines(indent, base, mapping, symbols);
    LineCount(base, mapping, symbols);
    OneModuleExactly(mapping, symbols);
    forall i | 0 <= i < |lines| ensures lines[i].indent == if i == 0 then indent else 0 {
      NewLineIs(indent, base, mapping, symbols, i);
    }
    if |lines| > 1 { assert lines[1].indent == 0; }
  }

  // ----- executing the new lines in place of the import

  /** Imports at the column of the innermost block bind there, one after the other. */
  lemma {:induction false} ImportsBindHere(lang: Language, m: Machine, lines: seq<Stmt>)
    requires m.At? && m.header == None
    requires forall s :: s in lines ==> s.FromImport? && s.symbols != [] && s.indent == m.inner.column
    ensures Run(lang, m, lines) == m.(inner := m.inner.(ns := Bind(m.inner.ns, AllBindings(lang.exports, lines))))
    decreases |lines|
  {
    if lines != [] {
      var earlier, last := lines[..|lines| - 1], lines[|lines| - 1];
      ImportsBindHere(lang, m, earlier);
      assert last in lines;
      BindConcat(m.inner.ns, AllBindings(lang.exports, earlier), Bindings(lang.exports, last.package, last.symbols));
    }
  }

  lemma {:induction false} PlaceFirst(lang: Language, m: Machine, lines: seq<Stmt>)
    requires lines != [] && Place(lang, m, lines[0].indent).At?
    ensures Run(lang, m, lines) == Run(lang, Place(lang, m, lines[0].indent), lines)
  {
    var at, first, rest := Place(lang, m, lines[0].indent), lines[0], lines[1..];
    Placed(lang, m, first.indent);
    RunOne(lang, m, first);
    RunOne(lang, at, first);
    RunConcat(lang, m, [first], rest);
    RunConcat(lang, at, [first], rest);
    assert lines == [first] + rest;
  }

  /** Bindings do not depend on columns. */
  lemma {:induction false} SameBindingsAnywhere(env: Exports, a: seq<Stmt>, b: seq<Stmt>)
    requires |a| == |b| && (forall s :: s in a ==> s.FromImport?) && (forall s :: s in b ==> s.FromImport?)
    requires forall i :: 0 <= i < |a| ==> a[i].package == b[i].package && a[i].symbols == b[i].symbols
    ensures AllBindings(env, a) == AllBindings(env, b)
  {
    if a != [] { SameBindingsAnywhere(env, a[..|a| - 1], b[..|b| - 1]); }
  }

  lemma {:induction false} NewLinesImport(indent: nat, base: string, mapping: Mapping, symbols: seq<string>)
    ensures forall s :: s in NewLines(indent, base, mapping, symbols) ==> s.FromImport? && s.layout.Generated? && s.symbols != []
  {
    var lines := NewLines(indent, base, mapping, symbols);
    SortedModulesDistinct(mapping, symbols);
    forall i | 0 <= i < |lines| ensures lines[i].FromImport? && lines[i].layout.Generated? && lines[i].symbols != [] {
      var m := SortStrings(Modules(mapping, symbols))[i];
      NewLineIs(indent, base, mapping, symbols, i);
      ModulesAre(mapping, symbols, m);
      var k :| 0 <= k < |symbols| && ModuleOf(mapping, symbols[k]) == m;
      ImportMembers(base, mapping, symbols, m, symbols[k]);
    }
  }

  lemma {:induction false} NewLinesBindings(env: Exports, indent: nat, base: string, mapping: Mapping, symbols: seq<string>)
    ensures forall s :: s in NewLines(indent, base, mapping, symbols) ==> s.FromImport?
    ensures AllBindings(env, NewLines(indent, base, mapping, symbols)) == AllBindings(env, Rewrite(base, mapping, symbols))
  {
    NewLinesImport(indent, base, mapping, symbols);
    var lines := NewLines(indent, base, mapping, symbols);
    forall i | 0 <= i < |lines|
      ensures lines[i].package == Rewrite(base, mapping, symbols)[i].package && lines[i].symbols == Rewrite(base, mapping, symbols)[i].symbols
    {
      NewLineIs(indent, base, mapping, symbols, i);
    }
    SameBindingsAnywhere(env, lines, Rewrite(base, mapping, symbols));
  }

  lemma {:induction false} LinesRemain(base: string, mapping: Mapping, symbols: seq<string>)
    requires symbols != []
    ensures Rewrite(base, mapping, symbols) != []
  {
    ModuleListed(mapping, symbols, symbols[0]);
    LineCount(base, mapping, symbols);
  }

  lemma {:induction false} KeptInPlace(lang: Language, m: Machine, mapping: Mapping, s: Stmt)
    requires s.FromImport? && s.symbols != [] && NoClash(s.symbols)
    requires PlainKeys(mapping) && Reexports(lang.exports, s.package, mapping)
    requires s.indent == 0 || OneModule(mapping, s.symbols)
    ensures Run(lang, m, NewLines(s.indent, s.package, mapping, s.symbols)) == Step(lang, m, s)
  {
    var lines, at := NewLines(s.indent, s.package, mapping, s.symbols), Place(lang, m, s.indent);
    LinesRemain(s.package, mapping, s.symbols);
    IndentKeptExactly(s.indent, s.package, mapping, s.symbols);
    if at.Broken? {
      StaysBroken(lang, m, lines);
    } else {
      Placed(lang, m, s.indent);
      PlaceFirst(lang, m, lines);
      NewLinesImport(s.indent, s.package, mapping, s.symbols);
      ImportsBindHere(lang, at, lines);
      NewLinesBindings(lang.exports, s.indent, s.package, mapping, s.symbols);
      MeaningPreserved(lang.exports, at.inner.ns, s.package, mapping, s.symbols);
    }
  }

  lemma {:induction false} StaysBroken(lang: Language, m: Machine, lines: seq<Stmt>)
    requires lines != [] && Place(lang, m, lines[0].indent).Broken?
    ensures Run(lang, m, lines) == Broken
    decreases |lines|
  {
    if |lines| == 1 {
      RunOne(lang, m, lines[0]);
      assert lines == [lines[0]];
    } else {
      StaysBroken(lang, m, lines[..|lines| - 1]);
    }
  }

  /** An indented import of several modules leaves its block: what follows it is read at column 0. */
  lemma {:induction false} LeavesBlock(lang: Language, m: Machine, mapping: Mapping, s: Stmt)
    requires s.FromImport? && s.indent > 0 && !OneModule(mapping, s.symbols)
    ensures var after := Run(lang, m, NewLines(s.indent, s.package, mapping, s.symbols));
      after.At? ==> after.inner.column == 0 && after.header == None
  {
    var lines := NewLines(s.indent, s.package, mapping, s.symbols);
    LineCount(s.package, mapping, s.symbols);
    OneModuleExactly(mapping, s.symbols);
    NewLinesImport(s.indent, s.package, mapping, s.symbols);
    NewLineIs(s.indent, s.package, mapping, s.symbols, |lines| - 1);
    assert lines[|lines| - 1] in lines;
    EndsAtLastLine(lang, m, lines);
  }

  lemma {:induction false} EndsAtLastLine(lang: Language, m: Machine, lines: seq<Stmt>)
    requires lines != [] && lines[|lines| - 1].FromImport?
    ensures var after := Run(lang, m, lines); after.At? ==> after.inner.column == lines[|lines| - 1].indent && after.header == None
  {
    ImportStays(lang, Run(lang, m, lines[..|lines| - 1]), lines[|lines| - 1]);
  }

  /**
   Wherever an import can stand, executing the new lines has the effect of the
   import exactly when it stood at column 0 or all its symbols come from one
   module.
   */
  lemma {:induction false} KeptInPlaceExactly(lang: Language, m: Machine, mapping: Mapping, s: Stmt)
    requires s.FromImport? && s.symbols != [] && NoClash(s.symbols)
    requires PlainKeys(mapping) && Reexports(lang.exports, s.package, mapping)
    requires Place(lang, m, s.indent).At?
    ensures Run(lang, m, NewLines(s.indent, s.package, mapping, s.symbols)) == Step(lang, m, s)
       <==> s.indent == 0 || OneModule(mapping, s.symbols)
  {
    if s.indent == 0 || OneModule(mapping, s.symbols) {
      KeptInPlace(lang, m, mapping, s);
    } else {
      LeavesBlock(lang, m, mapping, s);
      ImportStays(lang, m, s);
    }
  }

  /** Otherwise the file does not compile as soon as the block has another line. */
  lemma {:induction false} NextLineBreaks(lang: Language, m: Machine, mapping: Mapping, s: Stmt, next: Stmt)
    requires s.FromImport? && s.indent > 0 && !OneModule(mapping, s.symbols) && next.indent > 0
    ensures Run(lang, m, NewLines(s.indent, s.package, mapping, s.symbols) + [next]) == Broken
  {
    var lines := NewLines(s.indent, s.package, mapping, s.symbols);
    LeavesBlock(lang, m, mapping, s);
    RunConcat(lang, m, lines, [next]);
    RunOne(lang, Run(lang, m, lines), next);
  }

  lemma {:induction false} NextLineBreaksFile(lang: Language, m: Machine, mapping: Mapping, first: Stmt, s: Stmt, next: Stmt)
    requires s.FromImport? && s.indent > 0 && !OneModule(mapping, s.symbols) && next.indent > 0
    ensures Run(lang, m, [first] + NewLines(s.indent, s.package, mapping, s.symbols) + [next]) == Broken
  {
    var lines := NewLines(s.indent, s.package, mapping, s.symbols);
    NextLineBreaks(lang, Run(lang, m, [first]), mapping, s, next);
    RunConcat(lang, m, [first], lines + [next]);
    assert [first] + lines + [next] == [first] + (lines + [next]);
  }

  /** A block that starts with an import compiles. */
  lemma {:induction false} BlockCompiles(lang: Language, ns: Namespace, header: Stmt, s: Stmt, next: Stmt)
    requires header.Other? && header.indent == 0 && lang.opens(header.text)
    requires s.FromImport? && s.symbols != [] && s.indent > 0
    requires next.Other? && next.indent == s.indent && !lang.opens(next.text)
    ensures Meaning(lang, ns, [header, s, next]).Some?
  {
    var top := Block(0, "", ns);
    var start, begun := At([], top, None), At([], top, Some(header.text));
    ThreeLines(lang, start, header, s, next);
    assert Step(lang, start, header) == begun;
    Opens(lang, begun, s);
    Continues(lang, Step(lang, begun, s), next);
    Closes(lang, Step(lang, Step(lang, begun, s), next), top);
  }

  lemma {:induction false} ThreeLines(lang: Language, m: Machine, a: Stmt, b: Stmt, c: Stmt)
    ensures Run(lang, m, [a, b, c]) == Step(lang, Step(lang, Step(lang, m, a), b), c)
  {
    RunOne(lang, m, a);
    RunConcat(lang, m, [a], [b]);
    RunOne(lang, Step(lang, m, a), b);
    RunConcat(lang, m, [a] + [b], [c]);
    RunOne(lang, Run(lang, m, [a] + [b]), c);
    assert [a, b, c] == [a] + [b] + [c];
  }

  lemma {:induction false} Opens(lang: Language, m: Machine, s: Stmt)
    requires m.At? && m.header.Some? && s.indent > m.inner.column && s.FromImport? && s.symbols != []
    ensures var m' := Step(lang, m, s); m'.At? && m'.header == None && m'.outer == m.outer + [m.inner] && m'.inner.column == s.indent
  {
  }

  lemma {:induction false} Continues(lang: Language, m: Machine, s: Stmt)
    requires m.At? && m.header == None && s.indent == m.inner.column && s.Other? && !lang.opens(s.text)
    ensures var m' := Step(lang, m, s); m'.At? && m'.header == None && m'.outer == m.outer && m'.inner.column == m.inner.column
  {
  }

  lemma {:induction false} Closes(lang: Language, m: Machine, top: Block)
    requires m.At? && m.outer == [] + [top] && top.column == 0 < m.inner.column
    ensures Dedent(lang, m.outer, m.inner, 0).At?
  {
    var closed := top.(ns := lang.leave(m.inner.header, top.ns, m.inner.ns));
    assert m.outer[..0] == [] && Dedent(lang, [], closed, 0) == At([], closed, None);
  }

  // ----- replacing every line of a file

  /** The lines do what the statement does, wherever it stands. */
  ghost predicate Equivalent(lang: Language, lines: seq<Stmt>, s: Stmt) {
    forall m {:trigger Step(lang, m, s)} :: Run(lang, m, lines) == Step(lang, m, s)
  }

  function Flatten(parts: seq<seq<Stmt>>): seq<Stmt> {
    if parts == [] then [] else Flatten(parts[..|parts| - 1]) + parts[|parts| - 1]
  }

  lemma {:induction false} ReplaceOne(lang: Language, m: Machine, a: seq<Stmt>, a': seq<Stmt>, b: seq<Stmt>, s: Stmt)
    requires Run(lang, m, a) == Run(lang, m, a') && Equivalent(lang, b, s)
    ensures Run(lang, m, a + b) == Run(lang, m, a' + [s])
  {
    RunConcat(lang, m, a, b);
    RunConcat(lang, m, a', [s]);
    RunOne(lang, Run(lang, m, a'), s);
  }

  lemma {:induction false} ReplaceEach(lang: Language, m: Machine, parts: seq<seq<Stmt>>, file: seq<Stmt>)
    requires |parts| == |file| && forall i :: 0 <= i < |file| ==> Equivalent(lang, parts[i], file[i])
    ensures Run(lang, m, Flatten(parts)) == Run(lang, m, file)
    decreases |file|
  {
    if file != [] {
      var n := |file| - 1;
      ReplaceEach(lang, m, parts[..n], file[..n]);
      ReplaceOne(lang, m, Flatten(parts[..n]), file[..n], parts[n], file[n]);
      assert file[..n] + [file[n]] == file;
    }
  }
}
