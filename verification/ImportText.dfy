/**
 The text of import lines: what the script writes for a statement, and how an
 import line is read back.
 */
module ImportText {
  import opened Wrappers

  predicate Space(c: char) { c == ' ' || c == '\t' || c == '\n' || c == '\r' }
  predicate WordChar(c: char) { 'a' <= c <= 'z' || 'A' <= c <= 'Z' || '0' <= c <= '9' || c == '_' || c == '.' }

  // ----- writing

  function JoinTail(symbols: seq<string>): string {
    if symbols == [] then "" else ", " + symbols[0] + JoinTail(symbols[1..])
  }

  /** ", ".join(symbols) */
  function Join(symbols: seq<string>): string {
    if symbols == [] then "" else symbols[0] + JoinTail(symbols[1..])
  }

  function Render(package: string, symbols: seq<string>): string {
    "from " + (package + " " + ("import " + Join(symbols)))
  }

  // ----- reading

  function SkipSpaces(s: string): string { if s != "" && Space(s[0]) then SkipSpaces(s[1..]) else s }

  function DropTrailing(s: string): string {
    if s != "" && Space(s[|s| - 1]) then DropTrailing(s[..|s| - 1]) else s
  }

  function Strip(s: string): string { DropTrailing(SkipSpaces(s)) }

  function WordLength(s: string): (n: nat)
    ensures n <= |s|
  {
    if s != "" && WordChar(s[0]) then 1 + WordLength(s[1..]) else 0
  }

  function FirstComma(s: string): (n: nat)
    ensures n <= |s|
  {
    if s == "" || s[0] == ',' then 0 else 1 + FirstComma(s[1..])
  }

  /** s.split(",") */
  function Split(s: string): seq<string>
    decreases |s|
  {
    var n := FirstComma(s);
    if n == |s| then [s] else [s[..n]] + Split(s[n + 1..])
  }

  /** Stripped parts, without the empty ones. */
  function Tidy(parts: seq<string>): seq<string> {
    if parts == [] then []
    else (if Strip(parts[0]) != "" then [Strip(parts[0])] else []) + Tidy(parts[1..])
  }

  function ParseSymbols(text: string): seq<string> { Tidy(Split(text)) }

  function Unwrap(text: string): string {
    var t := if text != "" && text[0] == '(' then text[1..] else text;
    if t != "" && t[|t| - 1] == ')' then t[..|t| - 1] else t
  }

  /** From the `import` keyword on. */
  function ParseAfterPackage(s: string): Option<seq<string>> {
    if !("import" <= s) || |s| == 6 || !Space(s[6]) then None else
      var text := SkipSpaces(s[6..]);
      if text == "" then None else Some(ParseSymbols(Unwrap(text)))
  }

  /** From the package name on. */
  function ParseAfterFrom(s: string): Option<(string, seq<string>)> {
    var n := WordLength(s);
    if n == 0 || n == |s| || !Space(s[n]) then None else
      var symbols := ParseAfterPackage(SkipSpaces(s[n..]));
      if symbols.None? then None else Some((s[..n], symbols.value))
  }

  /** The package and symbols of an import line, or nothing if the line is not one. */
  function ParseImportLine(line: string): Option<(string, seq<string>)> {
    var s := Strip(line);
    if !("from" <= s) || |s| == 4 || !Space(s[4]) then None else ParseAfterFrom(SkipSpaces(s[4..]))
  }

  // ----- the round trip

  /** A symbol as the script collects it: no commas, no surrounding white space. */
  predicate CleanSymbol(s: string) {
    s != "" && !Space(s[0]) && !Space(s[|s| - 1]) && ',' !in s
  }

  predicate CleanSymbols(symbols: seq<string>) { forall i :: 0 <= i < |symbols| ==> CleanSymbol(symbols[i]) }

  lemma StripClean(s: string)
    requires CleanSymbol(s)
    ensures Strip(s) == s && Strip(" " + s) == s
  {
    assert (" " + s)[1..] == s;
  }

  lemma {:induction false} CommaAfter(head: string, rest: string)
    requires ',' !in head
    ensures FirstComma(head + "," + rest) == |head|
  {
    var t := head + "," + rest;
    if head != "" {
      CommaAfter(head[1..], rest);
      assert t[1..] == head[1..] + "," + rest && t[0] in head;
    }
  }

  lemma {:induction false} NoComma(s: string)
    requires ',' !in s
    ensures FirstComma(s) == |s|
  {
    if s != "" { NoComma(s[1..]); }
  }

  lemma SplitAtComma(head: string, rest: string)
    requires ',' !in head
    ensures Split(head + "," + rest) == [head] + Split(rest)
  {
    var t := head + "," + rest;
    CommaAfter(head, rest);
    assert t[..|head|] == head && t[|head| + 1..] == rest;
  }

  lemma TidyCons(part: string, symbol: string, parts: seq<string>)
    requires Strip(part) == symbol && symbol != ""
    ensures Tidy([part] + parts) == [symbol] + Tidy(parts)
  {
    assert ([part] + parts)[1..] == parts;
  }

  lemma JoinCons(symbols: seq<string>)
    requires |symbols| > 1
    ensures Join(symbols) == symbols[0] + "," + (" " + Join(symbols[1..]))
  {
    var rest := symbols[1..];
    assert JoinTail(rest) == ", " + rest[0] + JoinTail(rest[1..]);
    assert ", " == "," + " ";
  }

  lemma ParseOne(lead: string, symbol: string)
    requires (lead == "" || lead == " ") && CleanSymbol(symbol)
    ensures ',' !in lead + symbol && Strip(lead + symbol) == symbol && ParseSymbols(lead + symbol) == [symbol]
  {
    var part := lead + symbol;
    StripClean(symbol);
    assert lead == "" ==> part == symbol;
    NoComma(part);
    TidyCons(part, symbol, []);
    assert [part] + [] == [part];
  }

  lemma ParseMore(part: string, symbol: string, tail: string)
    requires ',' !in part && Strip(part) == symbol && symbol != ""
    ensures ParseSymbols(part + "," + tail) == [symbol] + ParseSymbols(tail)
  {
    SplitAtComma(part, tail);
    TidyCons(part, symbol, Split(tail));
  }

  lemma Regroup(lead: string, head: string, tail: string)
    ensures lead + (head + "," + tail) == (lead + head) + "," + tail
  {
  }

  /** Splitting what was joined gives the symbols back; `lead` is the space left over from the separator. */
  lemma {:induction false} JoinedParse(lead: string, symbols: seq<string>)
    requires (lead == "" || lead == " ") && symbols != [] && CleanSymbols(symbols)
    ensures ParseSymbols(lead + Join(symbols)) == symbols
    decreases |symbols|
  {
    var head, rest := symbols[0], symbols[1..];
    ParseOne(lead, head);
    if rest == [] {
      assert lead + Join(symbols) == lead + head;
    } else {
      var tail := " " + Join(rest);
      JoinedParse(" ", rest);
      JoinCons(symbols);
      Regroup(lead, head, tail);
      ParseMore(lead + head, head, tail);
    }
  }

  lemma {:induction false} WordThenSpace(word: string, rest: string)
    requires forall i :: 0 <= i < |word| ==> WordChar(word[i])
    ensures WordLength(word + " " + rest) == |word|
  {
    var t := word + " " + rest;
    if word != "" {
      assert t[1..] == word[1..] + " " + rest;
      WordThenSpace(word[1..], rest);
    }
  }

  lemma {:induction false} JoinEnds(symbols: seq<string>)
    requires symbols != [] && CleanSymbols(symbols)
    ensures var j := Join(symbols); j != "" && j[0] == symbols[0][0] && j[|j| - 1] == symbols[|symbols| - 1][|symbols[|symbols| - 1]| - 1]
    decreases |symbols|
  {
    assert CleanSymbol(symbols[0]);
    if |symbols| > 1 {
      var rest := symbols[1..];
      JoinEnds(rest);
      assert JoinTail(rest) == ", " + Join(rest);
      assert rest[|rest| - 1] == symbols[|symbols| - 1];
    } else {
      assert Join(symbols) == symbols[0];
    }
  }

  ghost predicate Renderable(package: string, symbols: seq<string>) {
    && package != "" && (forall i :: 0 <= i < |package| ==> WordChar(package[i]))
    && symbols != [] && CleanSymbols(symbols)
    && Join(symbols) != "" && Join(symbols)[0] != '(' && Join(symbols)[|Join(symbols)| - 1] != ')'
  }

  lemma SkipOne(s: string)
    requires s != "" && !Space(s[0])
    ensures SkipSpaces(" " + s) == s
  {
    assert (" " + s)[1..] == s;
  }

  lemma {:induction false} KeywordParse(text: string)
    requires text != "" && !Space(text[0])
    ensures ParseAfterPackage("import " + text) == Some(ParseSymbols(Unwrap(text)))
  {
    var keyword := "import " + text;
    assert keyword[..6] == "import" && keyword[6..] == " " + text;
    SkipOne(text);
  }

  lemma {:induction false} TailParse(symbols: seq<string>)
    requires symbols != [] && CleanSymbols(symbols) && Join(symbols) != "" && !Space(Join(symbols)[0])
    requires Join(symbols)[0] != '(' && Join(symbols)[|Join(symbols)| - 1] != ')'
    ensures ParseAfterPackage("import " + Join(symbols)) == Some(symbols)
  {
    KeywordParse(Join(symbols));
    JoinedParse("", symbols);
    assert "" + Join(symbols) == Join(symbols);
  }

  lemma {:induction false} PackageParse(package: string, keyword: string)
    requires package != "" && forall i :: 0 <= i < |package| ==> WordChar(package[i])
    requires keyword != "" && !Space(keyword[0])
    ensures ParseAfterFrom(package + " " + keyword) ==
            var symbols := ParseAfterPackage(keyword); if symbols.None? then None else Some((package, symbols.value))
  {
    var s := package + " " + keyword;
    WordThenSpace(package, keyword);
    assert s[..|package|] == package && s[|package|..] == " " + keyword && s[|package|] == ' ';
    SkipOne(keyword);
  }

  lemma {:induction false} LineParse(rest: string)
    requires rest != "" && !Space(rest[0]) && !Space(rest[|rest| - 1])
    ensures ParseImportLine("from " + rest) == ParseAfterFrom(rest)
  {
    var line := "from " + rest;
    assert line[0] == 'f' && line[|line| - 1] == rest[|rest| - 1];
    assert SkipSpaces(line) == line && DropTrailing(line) == line;
    assert line[..4] == "from" && line[4..] == " " + rest && line[4] == ' ';
    SkipOne(rest);
  }

  lemma {:induction false} BodyEnds(package: string, symbols: seq<string>)
    requires Renderable(package, symbols)
    ensures !Space(Join(symbols)[0])
    ensures var rest := package + " " + ("import " + Join(symbols)); !Space(rest[0]) && !Space(rest[|rest| - 1])
  {
    JoinEnds(symbols);
    assert CleanSymbol(symbols[0]) && CleanSymbol(symbols[|symbols| - 1]);
    assert WordChar(package[0]);
    var text, rest := Join(symbols), package + " " + ("import " + Join(symbols));
    assert rest[|rest| - 1] == text[|text| - 1];
  }

  /** What is written, symbol by symbol: one more symbol adds a comma, a space and itself. */
  lemma {:induction false} JoinSnoc(symbols: seq<string>, symbol: string)
    ensures Join([symbol]) == symbol
    ensures symbols != [] ==> Join(symbols + [symbol]) == Join(symbols) + ", " + symbol
  {
    assert [symbol][1..] == [] && JoinTail([]) == "";
    if symbols != [] {
      assert (symbols + [symbol])[1..] == symbols[1..] + [symbol];
      JoinTailSnoc(symbols[1..], symbol);
    }
  }

  lemma {:induction false} JoinTailSnoc(symbols: seq<string>, symbol: string)
    ensures JoinTail(symbols + [symbol]) == JoinTail(symbols) + ", " + symbol
  {
    if symbols == [] {
      assert symbols + [symbol] == [symbol] && [symbol][1..] == [] && JoinTail([]) == "";
    } else {
      assert (symbols + [symbol])[1..] == symbols[1..] + [symbol];
      JoinTailSnoc(symbols[1..], symbol);
    }
  }

  lemma RenderIs(package: string, symbols: seq<string>)
    ensures Render(package, symbols) == "from " + package + " import " + Join(symbols)
  {
    assert " import " == " " + "import ";
  }

  lemma {:induction false} UnwrapParentheses(text: string)
    ensures Unwrap("(" + text + ")") == text
  {
    assert ("(" + text + ")")[1..] == text + ")" && (text + ")")[..|text|] == text;
  }

  lemma {:induction false} ParenthesesParse(symbols: seq<string>)
    requires symbols != [] && CleanSymbols(symbols)
    ensures ParseAfterPackage("import " + ("(" + Join(symbols) + ")")) == Some(symbols)
  {
    KeywordParse("(" + Join(symbols) + ")");
    UnwrapParentheses(Join(symbols));
    JoinedParse("", symbols);
    assert "" + Join(symbols) == Join(symbols);
  }

  /** The same list in parentheses reads the same. */
  lemma {:induction false} ParenthesisedParse(package: string, symbols: seq<string>)
    requires package != "" && (forall i :: 0 <= i < |package| ==> WordChar(package[i]))
    requires symbols != [] && CleanSymbols(symbols)
    ensures ParseImportLine("from " + (package + " " + ("import " + ("(" + Join(symbols) + ")")))) == Some((package, symbols))
  {
    var keyword := "import " + ("(" + Join(symbols) + ")");
    var rest := package + " " + keyword;
    assert WordChar(package[0]) && rest[0] == package[0];
    assert rest[|rest| - 1] == ')' && keyword[0] == 'i';
    ParenthesesParse(symbols);
    PackageParse(package, keyword);
    LineParse(rest);
  }

  /** Reading a rendered statement gives back its package and its symbols. */
  lemma {:induction false} RenderParse(package: string, symbols: seq<string>)
    requires Renderable(package, symbols)
    ensures ParseImportLine(Render(package, symbols)) == Some((package, symbols))
  {
    BodyEnds(package, symbols);
    TailParse(symbols);
    PackageParse(package, "import " + Join(symbols));
    LineParse(package + " " + ("import " + Join(symbols)));
  }
}
