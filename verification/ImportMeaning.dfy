/**
 What an import statement means: it binds names to definitions. Rewriting keeps
 that meaning whenever the base package re-exports each mapped symbol from the
 module the mapping names.
 */
module ImportMeaning {
  import opened Wrappers
  import opened StringOrder
  import opened ImportRewriter

  // ----- what a symbol imports and what it binds

  function FindAs(s: string): (r: Option<nat>)
    ensures r.Some? ==> r.value + 4 <= |s|
  {
    if |s| < 4 then None
    else if s[..4] == " as " then Some(0)
    else
      var r := FindAs(s[1..]);
      if r.None? then None else Some(r.value + 1)
  }

  function Imported(symbol: string): string {
    var at := FindAs(symbol);
    if at.None? then symbol else symbol[..at.value]
  }

  function Bound(symbol: string): string {
    var at := FindAs(symbol);
    if at.None? then symbol else symbol[at.value + 4..]
  }

  lemma {:induction false} NoSpaceNoAs(s: string)
    requires ' ' !in s
    ensures FindAs(s) == None
  {
    if |s| >= 4 {
      assert s[0] in s && " as "[0] == ' ';
      NoSpaceNoAs(s[1..]);
    }
  }

  /** `name as alias` imports the name and binds the alias; a plain name imports and binds itself. */
  lemma {:induction false} AliasIs(name: string, alias: string)
    requires ' ' !in name
    ensures Imported(name) == name && Bound(name) == name
    ensures Imported(name + " as " + alias) == name && Bound(name + " as " + alias) == alias
  {
    NoSpaceNoAs(name);
    FindAfter(name, alias);
    var s := name + " as " + alias;
    assert s[..|name|] == name && s[|name| + 4..] == alias;
  }

  lemma {:induction false} FindAfter(name: string, alias: string)
    requires ' ' !in name
    ensures FindAs(name + " as " + alias) == Some(|name|)
  {
    var s := name + " as " + alias;
    if name == "" {
      assert s[..4] == " as ";
    } else {
      assert s[..4][0] == name[0] != ' ' && " as "[0] == ' ';
      assert s[1..] == name[1..] + " as " + alias;
      FindAfter(name[1..], alias);
    }
  }

  // ----- namespaces

  /** What a package exports under a name; None stands for a failing import. */
  type Exports = (string, string) -> Option<int>
  type Namespace = map<string, Option<int>>
  datatype Binding = Binding(name: string, def: Option<int>)

  function BindingOf(env: Exports, package: string, symbol: string): Binding {
    Binding(Bound(symbol), env(package, Imported(symbol)))
  }

  function Bindings(env: Exports, package: string, symbols: seq<string>): seq<Binding> {
    seq(|symbols|, i requires 0 <= i < |symbols| => BindingOf(env, package, symbols[i]))
  }

  /** Later bindings of a name replace earlier ones. */
  function Bind(ns: Namespace, bs: seq<Binding>): Namespace {
    if bs == [] then ns else Bind(ns, bs[..|bs| - 1])[bs[|bs| - 1].name := bs[|bs| - 1].def]
  }

  // ----- bindings without conflict can be made in any order

  ghost predicate Functional(bs: seq<Binding>) {
    forall a, b :: a in bs && b in bs && a.name == b.name ==> a.def == b.def
  }

  lemma {:induction false} BindFound(ns: Namespace, bs: seq<Binding>, b: Binding)
    requires Functional(bs) && b in bs
    ensures b.name in Bind(ns, bs) && Bind(ns, bs)[b.name] == b.def
  {
    var last := bs[|bs| - 1];
    assert last in bs;
    if last.name != b.name { BindFound(ns, bs[..|bs| - 1], b); }
  }

  lemma {:induction false} BindMissing(ns: Namespace, bs: seq<Binding>, name: string)
    requires forall b :: b in bs ==> b.name != name
    ensures name in Bind(ns, bs) <==> name in ns
    ensures name in ns ==> Bind(ns, bs)[name] == ns[name]
  {
    if bs != [] {
      assert bs[|bs| - 1] in bs;
      BindMissing(ns, bs[..|bs| - 1], name);
    }
  }

  lemma {:induction false} BindSame(ns: Namespace, a: seq<Binding>, b: seq<Binding>)
    requires Functional(a) && forall x :: x in a <==> x in b
    ensures Bind(ns, a) == Bind(ns, b)
  {
    forall name
      ensures name in Bind(ns, a) <==> name in Bind(ns, b)
      ensures name in Bind(ns, a) ==> Bind(ns, a)[name] == Bind(ns, b)[name]
    {
      if x :| x in a && x.name == name {
        BindFound(ns, a, x);
        BindFound(ns, b, x);
      } else {
        BindMissing(ns, a, name);
        BindMissing(ns, b, name);
      }
    }
  }

  lemma {:induction false} BindConcat(ns: Namespace, a: seq<Binding>, b: seq<Binding>)
    ensures Bind(ns, a + b) == Bind(Bind(ns, a), b)
  {
    if b == [] {
      assert a + b == a;
    } else {
      BindConcat(ns, a, b[..|b| - 1]);
      assert (a + b)[..|a + b| - 1] == a + b[..|b| - 1];
    }
  }

  // ----- the bindings of the rewritten statements

  function AllBindings(env: Exports, imports: seq<Stmt>): seq<Binding>
    requires forall s :: s in imports ==> s.FromImport?
  {
    if imports == [] then [] else
      var last := imports[|imports| - 1];
      AllBindings(env, imports[..|imports| - 1]) + Bindings(env, last.package, last.symbols)
  }

  lemma {:induction false} AllBindingsMembers(env: Exports, imports: seq<Stmt>, b: Binding)
    requires forall s :: s in imports ==> s.FromImport?
    ensures b in AllBindings(env, imports) <==>
            exists i :: 0 <= i < |imports| && b in Bindings(env, imports[i].package, imports[i].symbols)
  {
    if imports != [] {
      var earlier := imports[..|imports| - 1];
      AllBindingsMembers(env, earlier, b);
      if i :| 0 <= i < |earlier| && b in Bindings(env, earlier[i].package, earlier[i].symbols) {
        assert earlier[i] == imports[i];
      }
      if i :| 0 <= i < |imports| && b in Bindings(env, imports[i].package, imports[i].symbols) {
        if i < |earlier| { assert earlier[i] == imports[i]; }
      }
    }
  }

  /** The keys of a mapping are identifiers. */
  ghost predicate PlainKeys(mapping: Mapping) {
    forall s :: s in mapping ==> ' ' !in s
  }

  /** The base package re-exports each mapped symbol from its mapped module. */
  ghost predicate Reexports(env: Exports, base: string, mapping: Mapping) {
    forall s :: s in mapping ==> env(if mapping[s] == "__init__" then base else base + "." + mapping[s], s) == env(base, s)
  }

  lemma SameBinding(env: Exports, base: string, mapping: Mapping, symbol: string)
    requires PlainKeys(mapping) && Reexports(env, base, mapping)
    ensures BindingOf(env, Home(base, ModuleOf(mapping, symbol)), symbol) == BindingOf(env, base, symbol)
  {
    if symbol in mapping { NoSpaceNoAs(symbol); }
  }

  lemma ImportMembers(base: string, mapping: Mapping, symbols: seq<string>, m: string, symbol: string)
    ensures symbol in ImportOf(base, mapping, symbols, m).symbols <==> symbol in symbols && ModuleOf(mapping, symbol) == m
  {
    ImportCount(base, mapping, symbols, m, symbol);
    assert symbol in symbols <==> symbol in multiset(symbols);
    assert symbol in ImportOf(base, mapping, symbols, m).symbols <==> symbol in multiset(ImportOf(base, mapping, symbols, m).symbols);
  }

  lemma {:induction false} BindingKept(env: Exports, base: string, mapping: Mapping, symbols: seq<string>, b: Binding)
    requires PlainKeys(mapping) && Reexports(env, base, mapping) && b in Bindings(env, base, symbols)
    ensures b in AllBindings(env, Rewrite(base, mapping, symbols))
  {
    var imports, modules := Rewrite(base, mapping, symbols), SortStrings(Modules(mapping, symbols));
    AllBindingsMembers(env, imports, b);
    SortedModulesDistinct(mapping, symbols);
    var i :| 0 <= i < |symbols| && BindingOf(env, base, symbols[i]) == b;
    var m := ModuleOf(mapping, symbols[i]);
    ModulesAre(mapping, symbols, m);
    var k :| 0 <= k < |modules| && modules[k] == m;
    ImportMembers(base, mapping, symbols, m, symbols[i]);
    SameBinding(env, base, mapping, symbols[i]);
    var j :| 0 <= j < |imports[k].symbols| && imports[k].symbols[j] == symbols[i];
    assert Bindings(env, imports[k].package, imports[k].symbols)[j] == b;
  }

  lemma {:induction false} BindingNotNew(env: Exports, base: string, mapping: Mapping, symbols: seq<string>, b: Binding)
    requires PlainKeys(mapping) && Reexports(env, base, mapping) && b in AllBindings(env, Rewrite(base, mapping, symbols))
    ensures b in Bindings(env, base, symbols)
  {
    var imports, modules := Rewrite(base, mapping, symbols), SortStrings(Modules(mapping, symbols));
    AllBindingsMembers(env, imports, b);
    var k :| 0 <= k < |imports| && b in Bindings(env, imports[k].package, imports[k].symbols);
    var j :| 0 <= j < |imports[k].symbols| && Bindings(env, imports[k].package, imports[k].symbols)[j] == b;
    var symbol := imports[k].symbols[j];
    ImportMembers(base, mapping, symbols, modules[k], symbol);
    SameBinding(env, base, mapping, symbol);
    var i :| 0 <= i < |symbols| && symbols[i] == symbol;
    assert Bindings(env, base, symbols)[i] == b;
  }

  /** Original and rewritten statements bind exactly the same names to the same definitions. */
  lemma {:induction false} SameBindings(env: Exports, base: string, mapping: Mapping, symbols: seq<string>, b: Binding)
    requires PlainKeys(mapping) && Reexports(env, base, mapping)
    ensures b in Bindings(env, base, symbols) <==> b in AllBindings(env, Rewrite(base, mapping, symbols))
  {
    if b in Bindings(env, base, symbols) { BindingKept(env, base, mapping, symbols, b); }
    if b in AllBindings(env, Rewrite(base, mapping, symbols)) { BindingNotNew(env, base, mapping, symbols, b); }
  }

  // ----- meaning of one statement

  /** No two symbols give the same name to two different imports. Always true without aliases. */
  ghost predicate NoClash(symbols: seq<string>) {
    forall a, b :: a in symbols && b in symbols && Bound(a) == Bound(b) ==> Imported(a) == Imported(b)
  }

  ghost predicate Preserved(env: Exports, ns: Namespace, base: string, mapping: Mapping, symbols: seq<string>) {
    Bind(ns, AllBindings(env, Rewrite(base, mapping, symbols))) == Bind(ns, Bindings(env, base, symbols))
  }

  lemma {:induction false} MeaningPreserved(env: Exports, ns: Namespace, base: string, mapping: Mapping, symbols: seq<string>)
    requires PlainKeys(mapping) && Reexports(env, base, mapping) && NoClash(symbols)
    ensures Preserved(env, ns, base, mapping, symbols)
  {
    var original, rewritten := Bindings(env, base, symbols), AllBindings(env, Rewrite(base, mapping, symbols));
    forall b ensures b in original <==> b in rewritten { SameBindings(env, base, mapping, symbols, b); }
    NoClashFunctional(env, base, symbols);
    BindSame(ns, original, rewritten);
  }

  lemma {:induction false} NoClashFunctional(env: Exports, base: string, symbols: seq<string>)
    requires NoClash(symbols)
    ensures Functional(Bindings(env, base, symbols))
  {
    var bindings := Bindings(env, base, symbols);
    forall a, b | a in bindings && b in bindings && a.name == b.name ensures a.def == b.def {
      var i :| 0 <= i < |bindings| && bindings[i] == a;
      var j :| 0 <= j < |bindings| && bindings[j] == b;
      assert symbols[i] in symbols && symbols[j] in symbols;
    }
  }

  lemma BindLast(env: Exports, ns: Namespace, base: string, front: seq<string>, last: string)
    ensures var bs := Bindings(env, base, front + [last]);
      Bound(last) in Bind(ns, bs) && Bind(ns, bs)[Bound(last)] == env(base, Imported(last))
  {
    var bs := Bindings(env, base, front + [last]);
    assert bs[|bs| - 1] == BindingOf(env, base, last);
  }

  /** Aliases can clash: then some order of the same symbols has its meaning changed, whatever the mapping. */
  lemma {:induction false} ClashBreaksMeaning(mapping: Mapping, base: string, rest: seq<string>, a: string, b: string)
      returns (env: Exports, symbols: seq<string>)
    requires Bound(a) == Bound(b) && Imported(a) != Imported(b)
    ensures multiset(symbols) == multiset(rest + [a, b])
    ensures Reexports(env, base, mapping) && !Preserved(env, map[], base, mapping, symbols)
  {
    env := (package: string, name: string) => Some(if name == Imported(a) then 0 else 1);
    var ab, ba := rest + [a] + [b], rest + [b] + [a];
    BindLast(env, map[], base, rest + [a], b);
    BindLast(env, map[], base, rest + [b], a);
    assert rest + [a, b] == ab && multiset(ab) == multiset(ba);
    Canonical(base, mapping, ab, ba);
    symbols := if Preserved(env, map[], base, mapping, ab) then ba else ab;
  }

  /** Rewriting keeps the meaning of every ordering of a list of symbols exactly when the list has no clash. */
  lemma {:induction false} PreservedExactly(base: string, mapping: Mapping, symbols: seq<string>)
    requires PlainKeys(mapping)
    ensures NoClash(symbols) <==>
      forall env: Exports, ns, order ::
        multiset(order) == multiset(symbols) && Reexports(env, base, mapping) ==> Preserved(env, ns, base, mapping, order)
  {
    if NoClash(symbols) {
      forall env: Exports, ns, order | multiset(order) == multiset(symbols) && Reexports(env, base, mapping)
        ensures Preserved(env, ns, base, mapping, order)
      {
        forall x | x in order ensures x in symbols { assert x in multiset(order); }
        MeaningPreserved(env, ns, base, mapping, order);
      }
    } else {
      var a, b :| a in symbols && b in symbols && Bound(a) == Bound(b) && Imported(a) != Imported(b);
      var rest := TakeOut(symbols, a, b);
      var env, order := ClashBreaksMeaning(mapping, base, rest, a, b);
      assert !Preserved(env, map[], base, mapping, order);
    }
  }

  lemma RemoveOne(s: seq<string>, x: string) returns (rest: seq<string>)
    requires x in s
    ensures multiset(s) == multiset(rest) + multiset{x}
  {
    var i :| 0 <= i < |s| && s[i] == x;
    rest := s[..i] + s[i + 1..];
    assert s == s[..i] + [x] + s[i + 1..];
  }

  lemma TakeOut(symbols: seq<string>, a: string, b: string) returns (rest: seq<string>)
    requires a in symbols && b in symbols && a != b
    ensures multiset(rest + [a, b]) == multiset(symbols)
  {
    var withoutA := RemoveOne(symbols, a);
    assert b in multiset(symbols) && b in multiset(withoutA);
    rest := RemoveOne(withoutA, b);
  }
}
