/**
 Rewriting whole files: for each known package, first its parenthesised imports,
 then its single-line ones, including those the first pass has just produced.
 */
module ImportFiles {
  import opened Wrappers
  import opened StringOrder
  import opened ImportRewriter
  import opened ImportMeaning
  import opened ImportBlocks

  datatype Pattern = Pattern(base: string, mapping: Mapping)

  predicate Hit(p: Pattern, parenthesised: bool, s: Stmt) {
    s.FromImport? && s.package == p.base && s.layout.Parenthesised? == parenthesised
  }

  function RewriteStmt(p: Pattern, parenthesised: bool, s: Stmt): seq<Stmt> {
    if Hit(p, parenthesised, s) then NewLines(s.indent, p.base, p.mapping, s.symbols) else [s]
  }

  function Pass(p: Pattern, parenthesised: bool, file: seq<Stmt>): seq<Stmt> {
    if file == [] then []
    else Pass(p, parenthesised, file[..|file| - 1]) + RewriteStmt(p, parenthesised, file[|file| - 1])
  }

  function ProcessPattern(p: Pattern, file: seq<Stmt>): seq<Stmt> { Pass(p, false, Pass(p, true, file)) }

  function Process(patterns: seq<Pattern>, file: seq<Stmt>): seq<Stmt>
    decreases |patterns|
  {
    if patterns == [] then file
    else ProcessPattern(patterns[|patterns| - 1], Process(patterns[..|patterns| - 1], file))
  }

  /** How many statements a pass replaces by something else. */
  function Changed(p: Pattern, parenthesised: bool, file: seq<Stmt>): nat {
    if file == [] then 0 else
      var last := file[|file| - 1];
      Changed(p, parenthesised, file[..|file| - 1]) + if RewriteStmt(p, parenthesised, last) == [last] then 0 else 1
  }

  function ChangedByPattern(p: Pattern, file: seq<Stmt>): nat {
    Changed(p, true, file) + Changed(p, false, Pass(p, true, file))
  }

  function Changes(patterns: seq<Pattern>, file: seq<Stmt>): nat
    decreases |patterns|
  {
    if patterns == [] then 0 else
      var earlier := patterns[..|patterns| - 1];
      Changes(earlier, file) + ChangedByPattern(patterns[|patterns| - 1], Process(earlier, file))
  }

  lemma {:induction false} PassNext(p: Pattern, parenthesised: bool, file: seq<Stmt>, i: nat)
    requires i < |file|
    ensures Pass(p, parenthesised, file[..i + 1]) == Pass(p, parenthesised, file[..i]) + RewriteStmt(p, parenthesised, file[i])
    ensures Changed(p, parenthesised, file[..i + 1]) ==
            Changed(p, parenthesised, file[..i]) + if RewriteStmt(p, parenthesised, file[i]) == [file[i]] then 0 else 1
  {
    assert file[..i + 1][..i] == file[..i];
  }

  function Marked(marks: seq<bool>): set<int> { set i | 0 <= i < |marks| && marks[i] }

  /** The count is the number of places where the text of a statement is replaced by another. */
  lemma {:induction false} ChangedIs(p: Pattern, parenthesised: bool, file: seq<Stmt>, marks: seq<bool>)
    requires |marks| == |file| && forall i :: 0 <= i < |file| ==> (marks[i] <==> RewriteStmt(p, parenthesised, file[i]) != [file[i]])
    ensures Changed(p, parenthesised, file) == |Marked(marks)|
  {
    if file != [] {
      var n := |file| - 1;
      ChangedIs(p, parenthesised, file[..n], marks[..n]);
      MarkedNext(marks);
    }
  }

  function Marks(p: Pattern, parenthesised: bool, file: seq<Stmt>): seq<bool> {
    seq(|file|, i requires 0 <= i < |file| => RewriteStmt(p, parenthesised, file[i]) != [file[i]])
  }

  lemma {:induction false} NoneMarked(marks: seq<bool>)
    ensures |Marked(marks)| == 0 <==> forall i :: 0 <= i < |marks| ==> !marks[i]
  {
    if i :| 0 <= i < |marks| && marks[i] { assert i in Marked(marks); }
  }

  lemma {:induction false} MarkedNext(marks: seq<bool>)
    requires marks != []
    ensures |Marked(marks)| == |Marked(marks[..|marks| - 1])| + if marks[|marks| - 1] then 1 else 0
  {
    var n := |marks| - 1;
    assert Marked(marks) == if marks[n] then Marked(marks[..n]) + {n} else Marked(marks[..n]);
  }

  /** One substitution over the file. */
  method RewritePass(p: Pattern, parenthesised: bool, file: seq<Stmt>) returns (out: seq<Stmt>, changed: nat)
    ensures out == Pass(p, parenthesised, file) && changed == Changed(p, parenthesised, file)
  {
    out, changed := [], 0;
    for i := 0 to |file|
      invariant out == Pass(p, parenthesised, file[..i]) && changed == Changed(p, parenthesised, file[..i])
    {
      PassNext(p, parenthesised, file, i);
      if Hit(p, parenthesised, file[i]) {
        var imports := NewImports(p.base, p.mapping, file[i].symbols);
        var lines := Splice(file[i].indent, imports);
        if lines != [file[i]] { changed := changed + 1; }
        out := out + lines;
      } else {
        out := out + [file[i]];
      }
    }
    assert file[..|file|] == file;
  }

  /** The new content and the number of reported changes. */
  method ProcessFile(patterns: seq<Pattern>, file: seq<Stmt>) returns (content: seq<Stmt>, changes: nat)
    ensures content == Process(patterns, file) && changes == Changes(patterns, file)
  {
    content, changes := file, 0;
    for i := 0 to |patterns|
      invariant content == Process(patterns[..i], file) && changes == Changes(patterns[..i], file)
    {
      var first, n := RewritePass(patterns[i], true, content);
      var second, k := RewritePass(patterns[i], false, first);
      assert second == ProcessPattern(patterns[i], content) && n + k == ChangedByPattern(patterns[i], content);
      assert patterns[..i + 1][..i] == patterns[..i];
      content, changes := second, changes + (n + k);
    }
    assert patterns[..|patterns|] == patterns;
  }

  // ----- files that need no change

  /** A statement a pattern leaves as it is. */
  predicate Stable(p: Pattern, s: Stmt) {
    s.FromImport? && s.package == p.base ==> s.layout.Generated? && NewLines(s.indent, p.base, p.mapping, s.symbols) == [s]
  }

  predicate SettledFor(p: Pattern, file: seq<Stmt>) { forall i :: 0 <= i < |file| ==> Stable(p, file[i]) }

  predicate Settled(patterns: seq<Pattern>, file: seq<Stmt>) {
    forall k :: 0 <= k < |patterns| ==> SettledFor(patterns[k], file)
  }

  lemma {:induction false} PassSettled(p: Pattern, parenthesised: bool, file: seq<Stmt>)
    requires SettledFor(p, file)
    ensures Pass(p, parenthesised, file) == file
  {
    if file != [] {
      PassSettled(p, parenthesised, file[..|file| - 1]);
      assert Stable(p, file[|file| - 1]);
      assert file == file[..|file| - 1] + [file[|file| - 1]];
    }
  }

  lemma {:induction false} ProcessSettled(patterns: seq<Pattern>, file: seq<Stmt>)
    requires Settled(patterns, file)
    ensures Process(patterns, file) == file
  {
    if patterns != [] {
      ProcessSettled(patterns[..|patterns| - 1], file);
      PassSettled(patterns[|patterns| - 1], true, file);
      PassSettled(patterns[|patterns| - 1], false, file);
    }
  }

  lemma {:induction false} UnchangedExactly(p: Pattern, parenthesised: bool, file: seq<Stmt>)
    ensures Changed(p, parenthesised, file) == 0 <==>
            forall i :: 0 <= i < |file| ==> RewriteStmt(p, parenthesised, file[i]) == [file[i]]
  {
    var marks := Marks(p, parenthesised, file);
    ChangedIs(p, parenthesised, file, marks);
    NoneMarked(marks);
  }

  /** An import of the package that the script has not laid out itself is never left as it is. */
  lemma StableExactly(p: Pattern, s: Stmt)
    ensures Stable(p, s) <==> RewriteStmt(p, true, s) == [s] && RewriteStmt(p, false, s) == [s]
  {
    if s.FromImport? && s.package == p.base && !s.layout.Generated? { LaidOutAnew(p, s); }
  }

  lemma {:induction false} LaidOutAnew(p: Pattern, s: Stmt)
    requires s.FromImport? && !s.layout.Generated?
    ensures NewLines(s.indent, p.base, p.mapping, s.symbols) != [s]
  {
    var out := NewLines(s.indent, p.base, p.mapping, s.symbols);
    NewLinesImport(s.indent, p.base, p.mapping, s.symbols);
    if |out| == 1 { assert out[0] in out; }
  }

  lemma {:induction false} PassUnchanged(p: Pattern, parenthesised: bool, file: seq<Stmt>)
    requires forall i :: 0 <= i < |file| ==> RewriteStmt(p, parenthesised, file[i]) == [file[i]]
    ensures Pass(p, parenthesised, file) == file
  {
    if file != [] {
      PassUnchanged(p, parenthesised, file[..|file| - 1]);
      assert file == file[..|file| - 1] + [file[|file| - 1]];
    }
  }

  lemma {:induction false} PatternSettledExactly(p: Pattern, file: seq<Stmt>)
    ensures ChangedByPattern(p, file) == 0 <==> SettledFor(p, file)
  {
    UnchangedExactly(p, true, file);
    forall i | 0 <= i < |file|
      ensures Stable(p, file[i]) <==> RewriteStmt(p, true, file[i]) == [file[i]] && RewriteStmt(p, false, file[i]) == [file[i]]
    {
      StableExactly(p, file[i]);
    }
    if Changed(p, true, file) == 0 {
      PassUnchanged(p, true, file);
      UnchangedExactly(p, false, file);
    }
  }

  /** Nothing is reported exactly when the file is settled. */
  lemma {:induction false} NothingReportedExactly(patterns: seq<Pattern>, file: seq<Stmt>)
    ensures Changes(patterns, file) == 0 <==> Settled(patterns, file)
  {
    if patterns != [] {
      var earlier, p := patterns[..|patterns| - 1], patterns[|patterns| - 1];
      NothingReportedExactly(earlier, file);
      SettledSnoc(patterns, file);
      if Settled(earlier, file) {
        ProcessSettled(earlier, file);
        PatternSettledExactly(p, file);
      }
    }
  }

  lemma {:induction false} SettledSnoc(patterns: seq<Pattern>, file: seq<Stmt>)
    requires patterns != []
    ensures Settled(patterns, file) <==> Settled(patterns[..|patterns| - 1], file) && SettledFor(patterns[|patterns| - 1], file)
  {
  }

  // ----- rewriting settles a file

  lemma {:induction false} AllInInit(mapping: Mapping, symbols: seq<string>)
    requires symbols != [] && forall s :: s in symbols ==> ModuleOf(mapping, s) == INIT
    ensures Modules(mapping, symbols) == [INIT] && Select(mapping, symbols, INIT) == symbols
  {
    if |symbols| == 1 {
      assert Modules(mapping, symbols[..0]) == [];
      assert Select(mapping, symbols[1..], INIT) == [];
    } else {
      AllInInit(mapping, symbols[..|symbols| - 1]);
      AllInInit(mapping, symbols[1..]);
      assert symbols[|symbols| - 1] in symbols && symbols[0] in symbols;
      assert symbols == [symbols[0]] + symbols[1..];
    }
  }

  /** The statement kept for the package itself is a fixed point. */
  lemma {:induction false} KeptImportStable(p: Pattern, symbols: seq<string>, indent: nat)
    requires INIT in Modules(p.mapping, symbols)
    ensures Stable(p, Moved(ImportOf(p.base, p.mapping, symbols, INIT), indent))
  {
    var kept := ImportOf(p.base, p.mapping, symbols, INIT);
    forall s | s in kept.symbols ensures ModuleOf(p.mapping, s) == INIT {
      ImportMembers(p.base, p.mapping, symbols, INIT, s);
    }
    ModulesAre(p.mapping, symbols, INIT);
    var i :| 0 <= i < |symbols| && ModuleOf(p.mapping, symbols[i]) == INIT;
    ImportMembers(p.base, p.mapping, symbols, INIT, symbols[i]);
    AllInInit(p.mapping, kept.symbols);
    SortTwice(Select(p.mapping, symbols, INIT));
    SortOne(INIT);
  }

  lemma {:induction false} RewriteStable(p: Pattern, indent: nat, symbols: seq<string>, i: nat)
    requires i < |Rewrite(p.base, p.mapping, symbols)|
    ensures Stable(p, NewLines(indent, p.base, p.mapping, symbols)[i])
  {
    var m := SortStrings(Modules(p.mapping, symbols))[i];
    SortedModulesDistinct(p.mapping, symbols);
    assert m in SortStrings(Modules(p.mapping, symbols));
    NewLineIs(indent, p.base, p.mapping, symbols, i);
    if m == INIT { KeptImportStable(p, symbols, if i == 0 then indent else 0); }
  }

  /** Package b is a, or lies inside it. */
  predicate Within(a: string, b: string) { a == b || a + "." <= b }

  /** No pattern's output is another pattern's input. */
  predicate Independent(a: string, b: string) { !Within(a, b) }

  lemma {:induction false} NewLinePackage(indent: nat, base: string, mapping: Mapping, symbols: seq<string>, i: nat)
    requires i < |Rewrite(base, mapping, symbols)|
    ensures var line := NewLines(indent, base, mapping, symbols)[i];
      line.FromImport? && line.package == Home(base, SortStrings(Modules(mapping, symbols))[i])
  {
    NewLineIs(indent, base, mapping, symbols, i);
  }

  /** Whatever lies in the package of a new line lies in the base package. */
  lemma HomeWithin(base: string, module_: string, b: string)
    requires Within(Home(base, module_), b)
    ensures Within(base, b)
  {
    if module_ != INIT {
      var home := base + "." + module_;
      assert home[..|base| + 1] == base + ".";
      assert b[..|base| + 1] == home[..|base| + 1];
    }
  }

  lemma {:induction false} RewriteStableForOthers(p: Pattern, q: Pattern, indent: nat, symbols: seq<string>, i: nat)
    requires Independent(p.base, q.base) && i < |Rewrite(p.base, p.mapping, symbols)|
    ensures Stable(q, NewLines(indent, p.base, p.mapping, symbols)[i])
  {
    NewLinePackage(indent, p.base, p.mapping, symbols, i);
    var m := SortStrings(Modules(p.mapping, symbols))[i];
    if Within(Home(p.base, m), q.base) { HomeWithin(p.base, m, q.base); }
  }

  /** A pass keeps every statement stable for q, if its own output is. */
  lemma {:induction false} PassKeepsStable(p: Pattern, parenthesised: bool, file: seq<Stmt>, q: Pattern)
    requires p == q || Independent(p.base, q.base)
    requires forall i :: 0 <= i < |file| ==> Stable(q, file[i]) || Hit(p, parenthesised, file[i])
    ensures SettledFor(q, Pass(p, parenthesised, file))
  {
    if file != [] {
      var last := file[|file| - 1];
      PassKeepsStable(p, parenthesised, file[..|file| - 1], q);
      var new_ := RewriteStmt(p, parenthesised, last);
      forall i | 0 <= i < |new_| ensures Stable(q, new_[i]) {
        if Hit(p, parenthesised, last) {
          if p == q { RewriteStable(p, last.indent, last.symbols, i); } else { RewriteStableForOthers(p, q, last.indent, last.symbols, i); }
        } else {
          assert Stable(q, file[|file| - 1]);
        }
      }
    }
  }

  /** After the first pass only single-line imports of the package can still need work. */
  lemma {:induction false} FirstPassLeaves(p: Pattern, file: seq<Stmt>)
    ensures forall i :: 0 <= i < |Pass(p, true, file)| ==> Stable(p, Pass(p, true, file)[i]) || Hit(p, false, Pass(p, true, file)[i])
  {
    if file != [] {
      FirstPassLeaves(p, file[..|file| - 1]);
      var last := file[|file| - 1];
      var new_ := RewriteStmt(p, true, last);
      forall i | 0 <= i < |new_| ensures Stable(p, new_[i]) || Hit(p, false, new_[i]) {
        if Hit(p, true, last) { RewriteStable(p, last.indent, last.symbols, i); }
      }
    }
  }

  ghost predicate AllIndependent(patterns: seq<Pattern>) {
    forall i, j :: 0 <= i < |patterns| && 0 <= j < |patterns| && i != j ==> Independent(patterns[i].base, patterns[j].base)
  }

  lemma PatternSettles(p: Pattern, file: seq<Stmt>)
    ensures SettledFor(p, ProcessPattern(p, file))
  {
    FirstPassLeaves(p, file);
    PassKeepsStable(p, false, Pass(p, true, file), p);
  }

  lemma PatternKeepsSettled(p: Pattern, file: seq<Stmt>, q: Pattern)
    requires Independent(p.base, q.base) && SettledFor(q, file)
    ensures SettledFor(q, ProcessPattern(p, file))
  {
    PassKeepsStable(p, true, file, q);
    PassKeepsStable(p, false, Pass(p, true, file), q);
  }

  lemma {:induction false} ProcessSettlesFor(patterns: seq<Pattern>, file: seq<Stmt>, k: nat)
    requires AllIndependent(patterns) && k < |patterns|
    ensures SettledFor(patterns[k], Process(patterns, file))
  {
    var earlier, p := patterns[..|patterns| - 1], patterns[|patterns| - 1];
    if k == |earlier| {
      PatternSettles(p, Process(earlier, file));
    } else {
      assert AllIndependent(earlier) && Independent(p.base, patterns[k].base);
      ProcessSettlesFor(earlier, file, k);
      PatternKeepsSettled(p, Process(earlier, file), patterns[k]);
    }
  }

  lemma {:induction false} ProcessSettles(patterns: seq<Pattern>, file: seq<Stmt>)
    requires AllIndependent(patterns)
    ensures Settled(patterns, Process(patterns, file))
  {
    forall k | 0 <= k < |patterns| ensures SettledFor(patterns[k], Process(patterns, file)) {
      ProcessSettlesFor(patterns, file, k);
    }
  }

  /** Running the script on its own output changes nothing and reports nothing. */
  lemma Idempotent(patterns: seq<Pattern>, file: seq<Stmt>)
    requires AllIndependent(patterns)
    ensures Process(patterns, Process(patterns, file)) == Process(patterns, file)
    ensures Changes(patterns, Process(patterns, file)) == 0
  {
    ProcessSettles(patterns, file);
    ProcessSettled(patterns, Process(patterns, file));
    NothingReportedExactly(patterns, Process(patterns, file));
  }

  /** The three packages of the script are independent, whatever their mappings. */
  lemma ScriptPackagesIndependent(tiering: Mapping, audit: Mapping, metrics: Mapping)
    ensures AllIndependent([
      Pattern("selfhealing.api.django.tiering", tiering),
      Pattern("selfhealing.adapters.audit", audit),
      Pattern("selfhealing.services.metrics", metrics)])
  {
    var a, b, c := "selfhealing.api.django.tiering", "selfhealing.adapters.audit", "selfhealing.services.metrics";
    assert a[13] == 'p' && b[13] == 'd' && a[12] == 'a' && b[12] == 'a' && c[12] == 's';
    Diverge(a, b, 13);
    Diverge(a, c, 12);
    Diverge(b, c, 12);
  }

  lemma Diverge(x: string, y: string, i: nat)
    requires i < |x| && i < |y| && x[i] != y[i]
    ensures Independent(x, y) && Independent(y, x)
  {
    assert (x + ".")[i] == x[i] && (y + ".")[i] == y[i];
  }

  // ----- meaning of whole files

  ghost predicate Named(patterns: seq<Pattern>, package: string) {
    exists k :: 0 <= k < |patterns| && patterns[k].base == package
  }

  /**
   What an import of a known package needs: symbols, no clash of aliases, and
   column 0 or a single module. Imports of other packages need nothing.
   */
  ghost predicate Ready(patterns: seq<Pattern>, s: Stmt) {
    s.FromImport? && Named(patterns, s.package) ==>
      && s.symbols != [] && NoClash(s.symbols)
      && (s.indent == 0 ||
          forall k :: 0 <= k < |patterns| && Within(s.package, patterns[k].base) ==> OneModule(patterns[k].mapping, s.symbols))
  }

  ghost predicate FileReady(patterns: seq<Pattern>, file: seq<Stmt>) {
    forall i :: 0 <= i < |file| ==> Ready(patterns, file[i])
  }

  lemma {:induction false} NewLineReady(patterns: seq<Pattern>, p: Pattern, s: Stmt, i: nat)
    requires s.FromImport? && s.package == p.base && p in patterns && Ready(patterns, s)
    requires i < |Rewrite(p.base, p.mapping, s.symbols)|
    ensures Ready(patterns, NewLines(s.indent, p.base, p.mapping, s.symbols)[i])
  {
    var line, m := NewLines(s.indent, p.base, p.mapping, s.symbols)[i], SortStrings(Modules(p.mapping, s.symbols))[i];
    var at :| 0 <= at < |patterns| && patterns[at] == p;
    assert patterns[at].base == s.package && Named(patterns, s.package);
    NewLinesImport(s.indent, p.base, p.mapping, s.symbols);
    assert line in NewLines(s.indent, p.base, p.mapping, s.symbols);
    NewLineIs(s.indent, p.base, p.mapping, s.symbols, i);
    forall x | x in line.symbols ensures x in s.symbols { ImportMembers(p.base, p.mapping, s.symbols, m, x); }
    forall k | 0 <= k < |patterns| && Within(line.package, patterns[k].base) ensures Within(s.package, patterns[k].base) {
      HomeWithin(p.base, m, patterns[k].base);
    }
  }

  lemma {:induction false} PassKeepsReady(patterns: seq<Pattern>, p: Pattern, parenthesised: bool, file: seq<Stmt>)
    requires p in patterns && FileReady(patterns, file)
    ensures FileReady(patterns, Pass(p, parenthesised, file))
  {
    if file != [] {
      var last := file[|file| - 1];
      PassKeepsReady(patterns, p, parenthesised, file[..|file| - 1]);
      var new_ := RewriteStmt(p, parenthesised, last);
      forall i | 0 <= i < |new_| ensures Ready(patterns, new_[i]) {
        assert Ready(patterns, last);
        if Hit(p, parenthesised, last) { NewLineReady(patterns, p, last, i); }
      }
    }
  }

  lemma {:induction false} StmtKept(lang: Language, patterns: seq<Pattern>, p: Pattern, parenthesised: bool, s: Stmt)
    requires p in patterns && Ready(patterns, s)
    requires PlainKeys(p.mapping) && Reexports(lang.exports, p.base, p.mapping)
    ensures Equivalent(lang, RewriteStmt(p, parenthesised, s), s)
  {
    forall m ensures Run(lang, m, RewriteStmt(p, parenthesised, s)) == Step(lang, m, s) {
      if Hit(p, parenthesised, s) {
        var at :| 0 <= at < |patterns| && patterns[at] == p;
        assert patterns[at].base == s.package && Named(patterns, s.package) && Within(s.package, patterns[at].base);
        KeptInPlace(lang, m, p.mapping, s);
      } else {
        RunOne(lang, m, s);
      }
    }
  }

  function Parts(p: Pattern, parenthesised: bool, file: seq<Stmt>): seq<seq<Stmt>> {
    seq(|file|, i requires 0 <= i < |file| => RewriteStmt(p, parenthesised, file[i]))
  }

  lemma {:induction false} PassIsFlatten(p: Pattern, parenthesised: bool, file: seq<Stmt>)
    ensures Pass(p, parenthesised, file) == Flatten(Parts(p, parenthesised, file))
  {
    if file != [] {
      var n := |file| - 1;
      PassIsFlatten(p, parenthesised, file[..n]);
      assert Parts(p, parenthesised, file)[..n] == Parts(p, parenthesised, file[..n]);
    }
  }

  lemma {:induction false} PassMeaning(lang: Language, m: Machine, patterns: seq<Pattern>, p: Pattern, parenthesised: bool, file: seq<Stmt>)
    requires p in patterns && FileReady(patterns, file)
    requires PlainKeys(p.mapping) && Reexports(lang.exports, p.base, p.mapping)
    ensures Run(lang, m, Pass(p, parenthesised, file)) == Run(lang, m, file)
  {
    var parts := Parts(p, parenthesised, file);
    forall i | 0 <= i < |file| ensures Equivalent(lang, parts[i], file[i]) {
      StmtKept(lang, patterns, p, parenthesised, file[i]);
    }
    PassIsFlatten(p, parenthesised, file);
    ReplaceEach(lang, m, parts, file);
  }

  lemma {:induction false} ProcessKeeps(lang: Language, m: Machine, all: seq<Pattern>, n: nat, file: seq<Stmt>)
    requires n <= |all| && FileReady(all, file)
    requires forall k :: 0 <= k < |all| ==> PlainKeys(all[k].mapping) && Reexports(lang.exports, all[k].base, all[k].mapping)
    ensures Run(lang, m, Process(all[..n], file)) == Run(lang, m, file) && FileReady(all, Process(all[..n], file))
    decreases n
  {
    if n > 0 {
      var p, before := all[n - 1], Process(all[..n - 1], file);
      ProcessKeeps(lang, m, all, n - 1, file);
      assert all[..n][..n - 1] == all[..n - 1];
      PassMeaning(lang, m, all, p, true, before);
      PassKeepsReady(all, p, true, before);
      PassMeaning(lang, m, all, p, false, Pass(p, true, before));
      PassKeepsReady(all, p, false, Pass(p, true, before));
    }
  }

  /**
   A processed file means what the original meant, in every language whose
   packages re-export their mapped symbols, provided every import of a known
   package is ready.
   */
  lemma {:induction false} FileMeaning(lang: Language, ns: Namespace, patterns: seq<Pattern>, file: seq<Stmt>)
    requires forall k :: 0 <= k < |patterns| ==>
               PlainKeys(patterns[k].mapping) && Reexports(lang.exports, patterns[k].base, patterns[k].mapping)
    requires FileReady(patterns, file)
    ensures Meaning(lang, ns, Process(patterns, file)) == Meaning(lang, ns, file)
  {
    ProcessKeeps(lang, At([], Block(0, "", ns), None), patterns, |patterns|, file);
    assert patterns[..|patterns|] == patterns;
  }

  lemma {:induction false} FlattenThree(a: seq<Stmt>, b: seq<Stmt>, c: seq<Stmt>)
    ensures Flatten([a, b, c]) == a + b + c
  {
    assert [a, b, c][..2] == [a, b] && [a, b][..1] == [a] && [a][..0] == [];
    assert Flatten([a]) == [] + a == a && Flatten([a, b]) == Flatten([a]) + b;
  }

  lemma {:induction false} MiddlePass(p: Pattern, a: Stmt, s: Stmt, c: Stmt)
    requires a.Other? && c.Other? && Hit(p, true, s)
    ensures Pass(p, true, [a, s, c]) == [a] + NewLines(s.indent, p.base, p.mapping, s.symbols) + [c]
  {
    var lines := NewLines(s.indent, p.base, p.mapping, s.symbols);
    PassIsFlatten(p, true, [a, s, c]);
    assert Parts(p, true, [a, s, c]) == [[a], lines, [c]];
    FlattenThree([a], lines, [c]);
  }

  /**
   A function body that starts with an import of two modules: the original
   compiles, the processed file does not, in every language where the header
   opens a block and the last line does not.
   */
  lemma {:induction false} FunctionBodyBreaks(lang: Language, ns: Namespace)
    requires lang.opens("def f():") && !lang.opens("pass")
    ensures var base := "selfhealing.adapters.audit";
      var p := Pattern(base, map["FileAuditLogAdapter" := "file_adapter", "WORMAdapter" := "worm_adapters"]);
      var file := [Other(0, "def f():"),
                   FromImport(4, base, Parenthesised, ["FileAuditLogAdapter", "WORMAdapter"]),
                   Other(4, "pass")];
      Meaning(lang, ns, file).Some? && Meaning(lang, ns, Process([p], file)) == None
  {
    var x, y, mx, my := "FileAuditLogAdapter", "WORMAdapter", "file_adapter", "worm_adapters";
    assert x[0] != y[0] && mx[0] != my[0] && INIT[0] != mx[0] && INIT[0] != my[0];
    TwoModulesBreak(lang, ns, "selfhealing.adapters.audit", x, y, mx, my, Other(0, "def f():"), Other(4, "pass"));
  }

  lemma {:induction false} TwoModulesBreak(lang: Language, ns: Namespace, base: string, x: string, y: string, mx: string, my: string,
                                           header: Stmt, next: Stmt)
    requires x != y && mx != my && INIT != mx && INIT != my
    requires header.Other? && header.indent == 0 && lang.opens(header.text)
    requires next.Other? && next.indent > 0 && !lang.opens(next.text)
    ensures var p, file := Pattern(base, map[x := mx, y := my]), [header, FromImport(next.indent, base, Parenthesised, [x, y]), next];
      Meaning(lang, ns, file).Some? && Meaning(lang, ns, Process([p], file)) == None
  {
    var p, s := Pattern(base, map[x := mx, y := my]), FromImport(next.indent, base, Parenthesised, [x, y]);
    assert x in s.symbols && y in s.symbols && !OneModule(p.mapping, s.symbols);
    ModulesAre(p.mapping, s.symbols, INIT);
    BlockCompiles(lang, ns, header, s, next);
    ProcessedBreaks(lang, ns, p, header, s, next);
  }

  /** Any indented import of several modules, as long as its block goes on. */
  lemma {:induction false} ProcessedBreaks(lang: Language, ns: Namespace, p: Pattern, a: Stmt, s: Stmt, c: Stmt)
    requires a.Other? && c.Other? && Hit(p, true, s) && s.indent > 0 && c.indent > 0 && !OneModule(p.mapping, s.symbols)
    requires INIT !in Modules(p.mapping, s.symbols)
    ensures Meaning(lang, ns, Process([p], [a, s, c])) == None
  {
    MiddlePass(p, a, s, c);
    PatternSettlesOnce(p, a, s, c);
    ProcessOne(p, [a, s, c]);
    NextLineBreaksFile(lang, At([], Block(0, "", ns), None), p.mapping, a, s, c);
  }

  lemma {:induction false} ProcessOne(p: Pattern, file: seq<Stmt>)
    ensures Process([p], file) == ProcessPattern(p, file)
  {
    assert [p][..0] == [] && Process([], file) == file;
  }

  lemma {:induction false} PatternSettlesOnce(p: Pattern, a: Stmt, s: Stmt, c: Stmt)
    requires a.Other? && c.Other? && Hit(p, true, s) && INIT !in Modules(p.mapping, s.symbols)
    ensures var once := [a] + NewLines(s.indent, p.base, p.mapping, s.symbols) + [c]; Pass(p, false, once) == once
  {
    var lines := NewLines(s.indent, p.base, p.mapping, s.symbols);
    SortedModulesDistinct(p.mapping, s.symbols);
    forall i | 0 <= i < |lines| ensures !Hit(p, false, lines[i]) {
      NewLinePackage(s.indent, p.base, p.mapping, s.symbols, i);
      assert SortStrings(Modules(p.mapping, s.symbols))[i] in SortStrings(Modules(p.mapping, s.symbols));
    }
    NoHitsUnchanged(p, a, lines, c);
  }

  lemma {:induction false} NoHitsUnchanged(p: Pattern, a: Stmt, lines: seq<Stmt>, c: Stmt)
    requires a.Other? && c.Other? && forall i :: 0 <= i < |lines| ==> !Hit(p, false, lines[i])
    ensures Pass(p, false, [a] + lines + [c]) == [a] + lines + [c]
  {
    PassUnchanged(p, false, [a] + lines + [c]);
  }
}
