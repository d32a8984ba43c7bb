/** Strings in Python's order: character by character, a prefix first. */
module StringOrder {
  import opened Sorting

  predicate LexLe(a: string, b: string) {
    a == "" || (b != "" && (a[0] < b[0] || (a[0] == b[0] && LexLe(a[1..], b[1..]))))
  }

  lemma {:induction false} LexTotal(a: string, b: string)
    ensures LexLe(a, b) || LexLe(b, a)
  {
    if a != "" && b != "" && a[0] == b[0] { LexTotal(a[1..], b[1..]); }
  }

  lemma {:induction false} LexAntisymmetric(a: string, b: string)
    requires LexLe(a, b) && LexLe(b, a)
    ensures a == b
  {
    if a != "" {
      LexAntisymmetric(a[1..], b[1..]);
      assert a == [a[0]] + a[1..] && b == [b[0]] + b[1..];
    }
  }

  lemma {:induction false} LexTransitive(a: string, b: string, c: string)
    requires LexLe(a, b) && LexLe(b, c)
    ensures LexLe(a, c)
  {
    if a != "" && a[0] == b[0] && b[0] == c[0] { LexTransitive(a[1..], b[1..], c[1..]); }
  }

  lemma LexIsTotalOrder()
    ensures TotalOrder(LexLe)
  {
    forall a, b ensures LexLe(a, b) || LexLe(b, a) { LexTotal(a, b); }
    forall a, b | LexLe(a, b) && LexLe(b, a) ensures a == b { LexAntisymmetric(a, b); }
    forall a, b, c | LexLe(a, b) && LexLe(b, c) ensures LexLe(a, c) { LexTransitive(a, b, c); }
  }

  /** a comes before b in a dictionary: they agree up to some place, where a ends or has the smaller character. */
  ghost predicate Precedes(a: string, b: string) {
    exists i :: 0 <= i <= |a| && i < |b| && a[..i] == b[..i] && (i == |a| || a[i] < b[i])
  }

  lemma {:induction false} LexIs(a: string, b: string)
    ensures LexLe(a, b) <==> a == b || Precedes(a, b)
  {
    if a != "" && b != "" && a[0] == b[0] {
      LexIs(a[1..], b[1..]);
      assert a == [a[0]] + a[1..] && b == [b[0]] + b[1..];
      if Precedes(a[1..], b[1..]) { PrecedesLonger(a, b); }
      if Precedes(a, b) { PrecedesShorter(a, b); }
    } else if a != "" && b != "" {
      assert a[..0] == b[..0];
      assert forall i :: 0 < i <= |a| && i < |b| ==> a[..i][0] == a[0] && b[..i][0] == b[0];
    } else if a == "" && b != "" {
      assert a[..0] == b[..0];
    }
  }

  lemma {:induction false} PrecedesLonger(a: string, b: string)
    requires a != "" && b != "" && a[0] == b[0] && Precedes(a[1..], b[1..])
    ensures Precedes(a, b)
  {
    var x, y := a[1..], b[1..];
    var i :| 0 <= i <= |x| && i < |y| && x[..i] == y[..i] && (i == |x| || x[i] < y[i]);
    assert a[..i + 1] == [a[0]] + x[..i] && b[..i + 1] == [b[0]] + y[..i];
  }

  lemma {:induction false} PrecedesShorter(a: string, b: string)
    requires a != "" && b != "" && a[0] == b[0] && Precedes(a, b)
    ensures Precedes(a[1..], b[1..])
  {
    var i :| 0 <= i <= |a| && i < |b| && a[..i] == b[..i] && (i == |a| || a[i] < b[i]);
    assert i > 0;
    assert a[1..][..i - 1] == a[..i][1..] && b[1..][..i - 1] == b[..i][1..];
  }

  function SortStrings(s: seq<string>): seq<string> { Sort(s, LexLe) }

  predicate Ordered(s: seq<string>) { SortedBy(s, LexLe) }

  lemma SortStringsCorrect(s: seq<string>)
    ensures Ordered(SortStrings(s)) && multiset(SortStrings(s)) == multiset(s)
  {
    LexIsTotalOrder();
    SortCorrect(s, LexLe);
  }

  lemma OrderedUnique(a: seq<string>, b: seq<string>)
    requires Ordered(a) && Ordered(b) && multiset(a) == multiset(b)
    ensures a == b
  {
    LexIsTotalOrder();
    SortedUnique(a, b, LexLe);
  }

  /** Sorting forgets the original order. */
  lemma SortStringsCanonical(a: seq<string>, b: seq<string>)
    requires multiset(a) == multiset(b)
    ensures SortStrings(a) == SortStrings(b)
  {
    SortStringsCorrect(a);
    SortStringsCorrect(b);
    OrderedUnique(SortStrings(a), SortStrings(b));
  }

  lemma SortTwice(s: seq<string>)
    ensures SortStrings(SortStrings(s)) == SortStrings(s)
  {
    SortStringsCorrect(s);
    SortStringsCanonical(SortStrings(s), s);
  }

  lemma SortOne(x: string)
    ensures SortStrings([x]) == [x]
  {
    assert [x][1..] == [] && Sort([], LexLe) == [];
  }

  lemma InsertOrdered(x: string, s: seq<string>)
    requires Ordered(s)
    ensures Ordered(Insert(x, s, LexLe)) && multiset(Insert(x, s, LexLe)) == multiset(s) + multiset{x}
  {
    LexIsTotalOrder();
    InsertCorrect(x, s, LexLe);
  }
}

/**
 Rewriting imports of re-exported names into imports from the defining modules.
 A file is a sequence of statements; an import names a package and a list of
 symbols, each written "Name" or "Name as alias", and stands at some column.
 */
module ImportRewriter {
  import opened Sorting
  import opened StringOrder

  type Mapping = map<string, string>  // symbol to defining module

  const INIT := "__init__"

  /** How an import is laid out: as the script writes it, otherwise on one line, or in parentheses. */
  datatype Layout = Generated | SingleLine | Parenthesised

  datatype Stmt =
    | FromImport(indent: nat, package: string, layout: Layout, symbols: seq<string>)
    | Other(indent: nat, text: string)

  // ----- group_symbols_by_module and generate_new_imports

  function ModuleOf(mapping: Mapping, symbol: string): string {
    if symbol in mapping then mapping[symbol] else INIT
  }

  function Home(base: string, module_: string): string {
    if module_ == INIT then base else base + "." + module_
  }

  /** The symbols of one module, in the order they were listed. */
  function Select(mapping: Mapping, symbols: seq<string>, module_: string): seq<string> {
    if symbols == [] then []
    else (if ModuleOf(mapping, symbols[0]) == module_ then [symbols[0]] else []) + Select(mapping, symbols[1..], module_)
  }

  function Members(s: seq<string>): set<string> { set x | x in s }

  /** The modules needed, each once, in the order they were first met. */
  function Modules(mapping: Mapping, symbols: seq<string>): seq<string> {
    if symbols == [] then [] else
      var earlier := Modules(mapping, symbols[..|symbols| - 1]);
      var m := ModuleOf(mapping, symbols[|symbols| - 1]);
      if m in earlier then earlier else earlier + [m]
  }

  function ImportOf(base: string, mapping: Mapping, symbols: seq<string>, module_: string): Stmt {
    FromImport(0, Home(base, module_), Generated, SortStrings(Select(mapping, symbols, module_)))
  }

  function ImportsOf(base: string, mapping: Mapping, symbols: seq<string>, modules: seq<string>): seq<Stmt> {
    seq(|modules|, i requires 0 <= i < |modules| => ImportOf(base, mapping, symbols, modules[i]))
  }

  /** One import statement per module, modules and symbols in order, all at column 0. */
  function Rewrite(base: string, mapping: Mapping, symbols: seq<string>): seq<Stmt> {
    ImportsOf(base, mapping, symbols, SortStrings(Modules(mapping, symbols)))
  }

  /** The dictionary holds exactly the modules met so far, each with its selection. */
  ghost predicate Grouped(mapping: Mapping, symbols: seq<string>, groups: map<string, seq<string>>) {
    && (forall m :: m in groups <==> m in Modules(mapping, symbols))
    && forall m :: m in groups ==> groups[m] == Select(mapping, symbols, m)
  }

  method GroupSymbols(symbols: seq<string>, mapping: Mapping) returns (groups: map<string, seq<string>>)
    ensures Grouped(mapping, symbols, groups)
  {
    groups := map[];
    for i := 0 to |symbols|
      invariant Grouped(mapping, symbols[..i], groups)
    {
      var symbol := symbols[i];
      var m := if symbol in mapping then mapping[symbol] else INIT;
      GroupStep(mapping, symbols[..i], symbol, groups);
      PutTwice(groups, m, [], [] + [symbol]);
      if m !in groups { groups := groups[m := []]; }
      groups := groups[m := groups[m] + [symbol]];
      assert symbols[..i + 1] == symbols[..i] + [symbol];
    }
    assert symbols[..|symbols|] == symbols;
  }

  lemma PutTwice(groups: map<string, seq<string>>, m: string, x: seq<string>, y: seq<string>)
    ensures groups[m := x][m := y] == groups[m := y]
  {
  }

  /** Appending a symbol to its group keeps every group the selection of its module. */
  lemma {:induction false} GroupStep(mapping: Mapping, symbols: seq<string>, symbol: string, before: map<string, seq<string>>)
    requires Grouped(mapping, symbols, before)
    ensures var m := ModuleOf(mapping, symbol);
      Grouped(mapping, symbols + [symbol], before[m := (if m in before then before[m] else []) + [symbol]])
  {
    var home := ModuleOf(mapping, symbol);
    var after := before[home := (if home in before then before[home] else []) + [symbol]];
    ModulesSnoc(mapping, symbols, symbol);
    forall m | m in after ensures after[m] == Select(mapping, symbols + [symbol], m) {
      SelectSnoc(mapping, symbols, symbol, m);
      if m !in before { SelectAbsent(mapping, symbols, m); }
    }
  }

  lemma {:induction false} ModulesSnoc(mapping: Mapping, symbols: seq<string>, symbol: string)
    ensures forall m :: m in Modules(mapping, symbols + [symbol]) <==> m in Modules(mapping, symbols) || m == ModuleOf(mapping, symbol)
  {
    assert (symbols + [symbol])[..|symbols|] == symbols;
  }

  /** A group, symbol by symbol: one more symbol is appended to the group of its module and to no other. */
  lemma SelectIs(mapping: Mapping, symbols: seq<string>, symbol: string, module_: string)
    ensures Select(mapping, [], module_) == []
    ensures Select(mapping, symbols + [symbol], module_) ==
            Select(mapping, symbols, module_) + if (if symbol in mapping then mapping[symbol] else "__init__") == module_ then [symbol] else []
  {
    SelectSnoc(mapping, symbols, symbol, module_);
  }

  lemma {:induction false} SelectSnoc(mapping: Mapping, symbols: seq<string>, symbol: string, module_: string)
    ensures Select(mapping, symbols + [symbol], module_) ==
            Select(mapping, symbols, module_) + if ModuleOf(mapping, symbol) == module_ then [symbol] else []
  {
    if symbols == [] {
      assert symbols + [symbol] == [symbol];
    } else {
      SelectSnoc(mapping, symbols[1..], symbol, module_);
      assert (symbols + [symbol])[1..] == symbols[1..] + [symbol];
      Associate(if ModuleOf(mapping, symbols[0]) == module_ then [symbols[0]] else [], Select(mapping, symbols[1..], module_),
                if ModuleOf(mapping, symbol) == module_ then [symbol] else []);
    }
  }

  lemma Associate(a: seq<string>, b: seq<string>, c: seq<string>)
    ensures a + (b + c) == (a + b) + c
  {
  }

  lemma {:induction false} ModulesAre(mapping: Mapping, symbols: seq<string>, m: string)
    ensures m in Modules(mapping, symbols) <==> exists i :: 0 <= i < |symbols| && ModuleOf(mapping, symbols[i]) == m
    ensures Distinct(Modules(mapping, symbols))
  {
    if symbols != [] {
      var earlier := symbols[..|symbols| - 1];
      ModulesAre(mapping, earlier, m);
      if ModuleOf(mapping, symbols[|symbols| - 1]) != m && m in Modules(mapping, symbols) {
        var i :| 0 <= i < |earlier| && ModuleOf(mapping, earlier[i]) == m;
        assert ModuleOf(mapping, symbols[i]) == m;
      }
      if i :| 0 <= i < |symbols| && ModuleOf(mapping, symbols[i]) == m {
        if i < |earlier| { assert ModuleOf(mapping, earlier[i]) == m; }
      }
    }
  }

  lemma {:induction false} SelectAbsent(mapping: Mapping, symbols: seq<string>, m: string)
    requires m !in Modules(mapping, symbols)
    ensures Select(mapping, symbols, m) == []
  {
    ModulesAre(mapping, symbols, m);
    SelectNone(mapping, symbols, m);
  }

  lemma {:induction false} SelectNone(mapping: Mapping, symbols: seq<string>, m: string)
    requires forall i :: 0 <= i < |symbols| ==> ModuleOf(mapping, symbols[i]) != m
    ensures Select(mapping, symbols, m) == []
  {
    if symbols != [] { SelectNone(mapping, symbols[1..], m); }
  }

  method SortedKeys(keys: set<string>) returns (sorted: seq<string>)
    ensures Ordered(sorted) && multiset(sorted) == multiset(keys)
  {
    sorted := [];
    var left := keys;
    while left != {}
      invariant left <= keys && Ordered(sorted) && multiset(sorted) == multiset(keys - left)
    {
      var k :| k in left;
      InsertOrdered(k, sorted);
      sorted := Insert(k, sorted, LexLe);
      assert multiset(keys - (left - {k})) == multiset(keys - left) + multiset{k};
      left := left - {k};
    }
    assert keys - {} == keys;
  }

  /** One line per group, in the order of the modules. */
  ghost predicate GeneratedFrom(base: string, groups: map<string, seq<string>>, modules: seq<string>, lines: seq<Stmt>) {
    && Ordered(modules) && multiset(modules) == multiset(groups.Keys) && |lines| == |modules|
    && forall i :: 0 <= i < |lines| ==>
         && modules[i] in groups
         && lines[i] == FromImport(0, if modules[i] == "__init__" then base else base + "." + modules[i], Generated, SortStrings(groups[modules[i]]))
  }

  method GenerateImports(base: string, groups: map<string, seq<string>>) returns (lines: seq<Stmt>)
    ensures exists modules :: GeneratedFrom(base, groups, modules, lines)
  {
    var sorted := SortedKeys(groups.Keys);
    lines := [];
    forall i | 0 <= i < |sorted| ensures sorted[i] in groups { assert sorted[i] in multiset(sorted); }
    for i := 0 to |sorted|
      invariant |lines| == i
      invariant forall k :: 0 <= k < i ==> lines[k] == FromImport(0, Home(base, sorted[k]), Generated, SortStrings(groups[sorted[k]]))
    {
      var m := sorted[i];
      if m == INIT {
        lines := lines + [FromImport(0, base, Generated, SortStrings(groups[m]))];
      } else {
        lines := lines + [FromImport(0, base + "." + m, Generated, SortStrings(groups[m]))];
      }
    }
    assert GeneratedFrom(base, groups, sorted, lines);
  }

  /** The line for a module: its package, and its symbols in order, each as often as it was listed. */
  ghost predicate LineFor(base: string, mapping: Mapping, symbols: seq<string>, m: string, line: Stmt) {
    && line.FromImport? && line.indent == 0 && line.layout.Generated? && line.symbols != []
    && line.package == (if m == "__init__" then base else base + "." + m)
    && (forall i, j :: 0 <= i < j < |line.symbols| ==> line.symbols[i] == line.symbols[j] || Precedes(line.symbols[i], line.symbols[j]))
    && (forall x :: multiset(line.symbols)[x] ==
          if (if x in mapping then mapping[x] else "__init__") == m then multiset(symbols)[x] else 0)
  }

  /** The whole output: one line per module, in dictionary order. */
  ghost predicate LinesFor(base: string, mapping: Mapping, symbols: seq<string>, modules: seq<string>, lines: seq<Stmt>) {
    && |lines| == |modules|
    && (forall i, j :: 0 <= i < j < |modules| ==> Precedes(modules[i], modules[j]))
    && (forall i :: 0 <= i < |lines| ==> LineFor(base, mapping, symbols, modules[i], lines[i]))
    && (forall x :: x in symbols ==> (if x in mapping then mapping[x] else "__init__") in modules)
  }

  lemma {:induction false} LineIs(base: string, mapping: Mapping, symbols: seq<string>, m: string)
    requires m in Modules(mapping, symbols)
    ensures LineFor(base, mapping, symbols, m, ImportOf(base, mapping, symbols, m))
  {
    var line := ImportOf(base, mapping, symbols, m);
    SortStringsCorrect(Select(mapping, symbols, m));
    forall i, j | 0 <= i < j < |line.symbols| ensures line.symbols[i] == line.symbols[j] || Precedes(line.symbols[i], line.symbols[j]) {
      LexIs(line.symbols[i], line.symbols[j]);
    }
    forall x ensures multiset(line.symbols)[x] == if (if x in mapping then mapping[x] else "__init__") == m then multiset(symbols)[x] else 0 {
      SelectCount(mapping, symbols, m, x);
    }
    ModulesAre(mapping, symbols, m);
    var i :| 0 <= i < |symbols| && ModuleOf(mapping, symbols[i]) == m;
    assert symbols[i] in multiset(symbols) && multiset(line.symbols)[symbols[i]] > 0;
  }

  /** What Rewrite writes, spelled out. */
  lemma {:induction false} RewriteIs(base: string, mapping: Mapping, symbols: seq<string>)
    ensures LinesFor(base, mapping, symbols, SortStrings(Modules(mapping, symbols)), Rewrite(base, mapping, symbols))
  {
    var modules := SortStrings(Modules(mapping, symbols));
    SortedModules(mapping, symbols);
    SortedModulesDistinct(mapping, symbols);
    forall i, j | 0 <= i < j < |modules| ensures Precedes(modules[i], modules[j]) { LexIs(modules[i], modules[j]); }
    forall i | 0 <= i < |modules| ensures LineFor(base, mapping, symbols, modules[i], Rewrite(base, mapping, symbols)[i]) {
      assert modules[i] in modules;
      LineIs(base, mapping, symbols, modules[i]);
    }
    forall x | x in symbols ensures (if x in mapping then mapping[x] else "__init__") in modules {
      ModulesAre(mapping, symbols, ModuleOf(mapping, x));
      var i :| 0 <= i < |symbols| && symbols[i] == x;
      assert ModuleOf(mapping, symbols[i]) == ModuleOf(mapping, x);
    }
  }

  /** The two loops together compute Rewrite. */
  method NewImports(base: string, mapping: Mapping, symbols: seq<string>) returns (lines: seq<Stmt>)
    ensures lines == Rewrite(base, mapping, symbols)
  {
    var groups := GroupSymbols(symbols, mapping);
    lines := GenerateImports(base, groups);
    ghost var modules :| GeneratedFrom(base, groups, modules, lines);
    GeneratedIsRewrite(base, mapping, symbols, groups, modules, lines);
  }

  lemma {:induction false} GeneratedIsRewrite(base: string, mapping: Mapping, symbols: seq<string>,
                                              groups: map<string, seq<string>>, modules: seq<string>, lines: seq<Stmt>)
    requires Grouped(mapping, symbols, groups) && GeneratedFrom(base, groups, modules, lines)
    ensures lines == Rewrite(base, mapping, symbols)
  {
    SortedModules(mapping, symbols);
    assert groups.Keys == Members(Modules(mapping, symbols));
    OrderedUnique(modules, SortStrings(Modules(mapping, symbols)));
    var rewritten := Rewrite(base, mapping, symbols);
    forall i | 0 <= i < |lines| ensures lines[i] == rewritten[i] {
      assert groups[modules[i]] == Select(mapping, symbols, modules[i]);
    }
  }

  lemma {:induction false} SortedModules(mapping: Mapping, symbols: seq<string>)
    ensures Ordered(SortStrings(Modules(mapping, symbols)))
    ensures multiset(SortStrings(Modules(mapping, symbols))) == multiset(Members(Modules(mapping, symbols)))
  {
    SortStringsCorrect(Modules(mapping, symbols));
    ModulesAre(mapping, symbols, "");
    DistinctMultiset(Modules(mapping, symbols));
  }

  ghost predicate Distinct(s: seq<string>) {
    forall i, j :: 0 <= i < j < |s| ==> s[i] != s[j]
  }

  lemma {:induction false} DistinctMultiset(s: seq<string>)
    requires Distinct(s)
    ensures multiset(s) == multiset(Members(s))
  {
    if s != [] {
      DistinctMultiset(s[1..]);
      assert s == [s[0]] + s[1..];
      assert Members(s) == {s[0]} + Members(s[1..]) && s[0] !in Members(s[1..]);
    }
  }

  lemma {:induction false} OfSetDistinct(s: seq<string>, members: set<string>)
    requires multiset(s) == multiset(members)
    ensures Distinct(s) && forall x :: x in s <==> x in members
  {
    forall i, j | 0 <= i < j < |s| ensures s[i] != s[j] {
      var x := s[j];
      assert s == s[..j] + [x] + s[j + 1..];
      assert multiset(s)[x] == multiset(s[..j])[x] + 1 + multiset(s[j + 1..])[x];
      assert s[..j][i] == s[i];
    }
    forall x ensures x in s <==> x in members { assert x in s <==> x in multiset(s); }
  }

  // ----- nothing lost, nothing added, and only the symbols matter

  lemma {:induction false} SelectCount(mapping: Mapping, symbols: seq<string>, m: string, x: string)
    ensures multiset(Select(mapping, symbols, m))[x] == if ModuleOf(mapping, x) == m then multiset(symbols)[x] else 0
  {
    if symbols != [] {
      SelectCount(mapping, symbols[1..], m, x);
      assert symbols == [symbols[0]] + symbols[1..];
    }
  }

  function AllSymbols(stmts: seq<Stmt>): seq<string> {
    if stmts == [] then []
    else (if stmts[0].FromImport? then stmts[0].symbols else []) + AllSymbols(stmts[1..])
  }

  lemma {:induction false} AllSymbolsCons(head: Stmt, tail: seq<Stmt>, x: string)
    requires head.FromImport?
    ensures multiset(AllSymbols([head] + tail))[x] == multiset(head.symbols)[x] + multiset(AllSymbols(tail))[x]
  {
    assert ([head] + tail)[1..] == tail;
  }

  lemma {:induction false} ImportCount(base: string, mapping: Mapping, symbols: seq<string>, m: string, x: string)
    ensures multiset(ImportOf(base, mapping, symbols, m).symbols)[x] ==
            if ModuleOf(mapping, x) == m then multiset(symbols)[x] else 0
  {
    SortStringsCorrect(Select(mapping, symbols, m));
    SelectCount(mapping, symbols, m, x);
  }

  lemma {:induction false} ImportsCount(base: string, mapping: Mapping, symbols: seq<string>, modules: seq<string>, x: string)
    requires Distinct(modules)
    ensures multiset(AllSymbols(ImportsOf(base, mapping, symbols, modules)))[x] ==
            if ModuleOf(mapping, x) in modules then multiset(symbols)[x] else 0
  {
    if modules != [] {
      var head, tail := ImportOf(base, mapping, symbols, modules[0]), ImportsOf(base, mapping, symbols, modules[1..]);
      ImportsCount(base, mapping, symbols, modules[1..], x);
      ImportCount(base, mapping, symbols, modules[0], x);
      AllSymbolsCons(head, tail, x);
      assert ImportsOf(base, mapping, symbols, modules) == [head] + tail;
    }
  }

  lemma {:induction false} SortedModulesDistinct(mapping: Mapping, symbols: seq<string>)
    ensures Distinct(SortStrings(Modules(mapping, symbols)))
    ensures forall m :: m in SortStrings(Modules(mapping, symbols)) <==> m in Modules(mapping, symbols)
  {
    SortedModules(mapping, symbols);
    OfSetDistinct(SortStrings(Modules(mapping, symbols)), Members(Modules(mapping, symbols)));
  }

  lemma {:induction false} SymbolCount(base: string, mapping: Mapping, symbols: seq<string>, x: string)
    ensures multiset(AllSymbols(Rewrite(base, mapping, symbols)))[x] == multiset(symbols)[x]
  {
    SortedModulesDistinct(mapping, symbols);
    ImportsCount(base, mapping, symbols, SortStrings(Modules(mapping, symbols)), x);
    ModulesAre(mapping, symbols, ModuleOf(mapping, x));
    if x in symbols {
      var i :| 0 <= i < |symbols| && symbols[i] == x;
      assert ModuleOf(mapping, symbols[i]) == ModuleOf(mapping, x);
    }
  }

  /** The rewritten statements import every symbol exactly as often as the original did. */
  lemma {:induction false} SymbolsConserved(base: string, mapping: Mapping, symbols: seq<string>)
    ensures multiset(AllSymbols(Rewrite(base, mapping, symbols))) == multiset(symbols)
  {
    forall x ensures multiset(AllSymbols(Rewrite(base, mapping, symbols)))[x] == multiset(symbols)[x] {
      SymbolCount(base, mapping, symbols, x);
    }
  }

  /** The result depends only on the multiset of symbols, not on their order. */
  lemma {:induction false} Canonical(base: string, mapping: Mapping, a: seq<string>, b: seq<string>)
    requires multiset(a) == multiset(b)
    ensures Rewrite(base, mapping, a) == Rewrite(base, mapping, b)
  {
    SameModules(mapping, a, b);
    forall m ensures ImportOf(base, mapping, a, m) == ImportOf(base, mapping, b, m) {
      SameSelection(mapping, a, b, m);
    }
  }

  lemma {:induction false} ModuleCarriesOver(mapping: Mapping, a: seq<string>, b: seq<string>, m: string)
    requires multiset(a) == multiset(b) && m in Modules(mapping, a)
    ensures m in Modules(mapping, b)
  {
    ModulesAre(mapping, a, m);
    ModulesAre(mapping, b, m);
    var i :| 0 <= i < |a| && ModuleOf(mapping, a[i]) == m;
    assert a[i] in multiset(b);
    var j :| 0 <= j < |b| && b[j] == a[i];
    assert ModuleOf(mapping, b[j]) == m;
  }

  lemma {:induction false} SameModules(mapping: Mapping, a: seq<string>, b: seq<string>)
    requires multiset(a) == multiset(b)
    ensures SortStrings(Modules(mapping, a)) == SortStrings(Modules(mapping, b))
  {
    SortedModules(mapping, a);
    SortedModules(mapping, b);
    forall m ensures m in Modules(mapping, a) <==> m in Modules(mapping, b) {
      if m in Modules(mapping, a) { ModuleCarriesOver(mapping, a, b, m); }
      if m in Modules(mapping, b) { ModuleCarriesOver(mapping, b, a, m); }
    }
    assert Members(Modules(mapping, a)) == Members(Modules(mapping, b));
    OrderedUnique(SortStrings(Modules(mapping, a)), SortStrings(Modules(mapping, b)));
  }

  lemma {:induction false} SameSelection(mapping: Mapping, a: seq<string>, b: seq<string>, m: string)
    requires multiset(a) == multiset(b)
    ensures SortStrings(Select(mapping, a, m)) == SortStrings(Select(mapping, b, m))
  {
    forall x ensures multiset(Select(mapping, a, m))[x] == multiset(Select(mapping, b, m))[x] {
      SelectCount(mapping, a, m, x);
      SelectCount(mapping, b, m, x);
    }
    assert multiset(Select(mapping, a, m)) == multiset(Select(mapping, b, m));
    SortStringsCanonical(Select(mapping, a, m), Select(mapping, b, m));
  }
}
