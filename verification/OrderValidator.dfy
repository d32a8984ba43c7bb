/** Validation of order items and of order status changes. */
module OrderValidator {
  import opened Wrappers

  // ----- items

  /** A product id or a quantity as a dictionary returns it: a number, or nothing. */
  type Field = Option<int>

  datatype Item = Item(product: Field, quantity: Field)

  /** An item of the order response: a `product_id` key if there is one, and the id of a nested `product`. */
  datatype RawItem = RawItem(productId: Option<Field>, nestedId: Field, quantity: Field)

  function Read(r: RawItem): Item {
    Item(if r.productId.Some? then r.productId.value else r.nestedId, r.quantity)
  }

  function ReadAll(raw: seq<RawItem>): seq<Item> {
    seq(|raw|, i requires 0 <= i < |raw| => Read(raw[i]))
  }

  datatype Problem =
    | OrderNotFound
    | CountMismatch(expectedCount: nat, actualCount: nat)
    | QuantityMismatch(product: Field, expected: Field, actual: Field)
    | ProductNotFound(product: Field)

  /** The first item of that product. */
  function Lookup(actual: seq<Item>, product: Field): Option<Item> {
    if actual == [] then None
    else if actual[0].product == product then Some(actual[0])
    else Lookup(actual[1..], product)
  }

  predicate Agrees(expected: seq<Item>, actual: seq<Item>) {
    && |actual| == |expected|
    && forall i :: 0 <= i < |expected| ==> Lookup(actual, expected[i].product) == Some(expected[i])
  }

  // ----- what is reported

  function ProblemsOf(expected: Item, actual: seq<Item>): seq<Problem> {
    match Lookup(actual, expected.product)
    case None => [ProductNotFound(expected.product)]
    case Some(found) =>
      if found.quantity == expected.quantity then []
      else [QuantityMismatch(expected.product, expected.quantity, found.quantity)]
  }

  function CountProblems(expected: seq<Item>, actual: seq<Item>): seq<Problem> {
    if |actual| == |expected| then [] else [CountMismatch(|expected|, |actual|)]
  }

  function ItemProblems(expected: seq<Item>, actual: seq<Item>): seq<Problem> {
    if expected == [] then []
    else ItemProblems(expected[..|expected| - 1], actual) + ProblemsOf(expected[|expected| - 1], actual)
  }

  function Problems(order: Option<seq<RawItem>>, expected: seq<Item>): seq<Problem> {
    if order.None? then [OrderNotFound]
    else CountProblems(expected, ReadAll(order.value)) + ItemProblems(expected, ReadAll(order.value))
  }

  method CheckItem(expected: Item, actual: seq<Item>) returns (errors: seq<Problem>)
    ensures errors == ProblemsOf(expected, actual)
  {
    errors := [];
    var found, j := false, 0;
    while j < |actual| && !found
      invariant 0 <= j <= |actual|
      invariant !found ==> errors == [] && Lookup(actual[j..], expected.product) == Lookup(actual, expected.product)
      invariant found ==> Lookup(actual, expected.product).Some? && errors == ProblemsOf(expected, actual)
    {
      if actual[j].product == expected.product {
        found := true;
        if actual[j].quantity != expected.quantity {
          errors := [QuantityMismatch(expected.product, expected.quantity, actual[j].quantity)];
        }
      }
      j := j + 1;
    }
    if !found { errors := [ProductNotFound(expected.product)]; }
  }

  method ValidateItems(order: Option<seq<RawItem>>, expected: seq<Item>) returns (valid: bool, errors: seq<Problem>)
    ensures errors == Problems(order, expected)
    ensures valid <==> errors == []
    ensures valid <==> order.Some? && Agrees(expected, ReadAll(order.value))
  {
    if order.None? { return false, [OrderNotFound]; }
    var actual := ReadAll(order.value);
    valid, errors := true, [];
    if |actual| != |expected| {
      valid, errors := false, [CountMismatch(|expected|, |actual|)];
    }
    for i := 0 to |expected|
      invariant valid <==> errors == []
      invariant errors == CountProblems(expected, actual) + ItemProblems(expected[..i], actual)
    {
      var new_ := CheckItem(expected[i], actual);
      if new_ != [] { valid, errors := false, errors + new_; }
      assert expected[..i + 1][..i] == expected[..i];
    }
    assert expected[..|expected|] == expected;
    NoProblemsExactly(expected, actual);
  }

  /** Nothing is reported exactly when every expected item is the first of its product. */
  lemma {:induction false} NoProblemsExactly(expected: seq<Item>, actual: seq<Item>)
    ensures ItemProblems(expected, actual) == [] <==>
            forall i :: 0 <= i < |expected| ==> Lookup(actual, expected[i].product) == Some(expected[i])
  {
    if expected != [] {
      var last := expected[|expected| - 1];
      NoProblemsExactly(expected[..|expected| - 1], actual);
      LookupFinds(actual, last.product);
    }
  }

  /** The product of an item of the response: its `product_id` if it has one, else the id of its nested product. */
  lemma ReadIs(r: RawItem)
    ensures Read(r).quantity == r.quantity
    ensures r.productId.Some? ==> Read(r).product == r.productId.value
    ensures r.productId.None? ==> Read(r).product == r.nestedId
  {
  }

  /** Item j is the first of its product. */
  ghost predicate FirstOf(items: seq<Item>, j: int, product: Field) {
    0 <= j < |items| && items[j].product == product && forall k :: 0 <= k < j ==> items[k].product != product
  }

  lemma {:induction false} LookupIsFirst(items: seq<Item>, product: Field, j: int)
    requires FirstOf(items, j, product)
    ensures Lookup(items, product) == Some(items[j])
  {
    if j > 0 {
      assert items[0].product != product;
      assert forall k :: 0 <= k < |items| - 1 ==> items[1..][k] == items[k + 1];
      LookupIsFirst(items[1..], product, j - 1);
    }
  }

  lemma {:induction false} FirstExists(items: seq<Item>, product: Field) returns (j: int)
    requires Lookup(items, product).Some?
    ensures FirstOf(items, j, product)
  {
    if items[0].product == product {
      j := 0;
    } else {
      j := FirstExists(items[1..], product);
      assert forall k :: 1 <= k < |items| ==> items[k] == items[1..][k - 1];
      j := j + 1;
    }
  }

  /** What is reported about one expected item, in terms of the first actual item of its product. */
  lemma {:induction false} ProblemsOfExactly(expected: Item, actual: seq<Item>)
    ensures ProblemsOf(expected, actual) == [ProductNotFound(expected.product)] <==> forall j :: 0 <= j < |actual| ==> actual[j].product != expected.product
    ensures forall j :: FirstOf(actual, j, expected.product) ==>
              ProblemsOf(expected, actual) ==
              if actual[j].quantity == expected.quantity then []
              else [QuantityMismatch(expected.product, expected.quantity, actual[j].quantity)]
  {
    LookupFinds(actual, expected.product);
    forall j | FirstOf(actual, j, expected.product) ensures Lookup(actual, expected.product) == Some(actual[j]) {
      LookupIsFirst(actual, expected.product, j);
    }
    if Lookup(actual, expected.product).Some? {
      var j := FirstExists(actual, expected.product);
      LookupIsFirst(actual, expected.product, j);
    }
  }

  // ----- validation is permutation checking

  predicate DistinctProducts(items: seq<Item>) {
    forall i, j :: 0 <= i < j < |items| ==> items[i].product != items[j].product
  }

  lemma {:induction false} LookupFinds(items: seq<Item>, product: Field)
    ensures Lookup(items, product).Some? ==> Lookup(items, product).value in items && Lookup(items, product).value.product == product
    ensures Lookup(items, product).None? ==> forall x :: x in items ==> x.product != product
  {
    if items != [] { LookupFinds(items[1..], product); }
  }

  lemma {:induction false} LookupSplit(front: seq<Item>, x: Item, back: seq<Item>, product: Field)
    requires x.product != product
    ensures Lookup(front + [x] + back, product) == Lookup(front + back, product)
  {
    if front == [] {
      assert front + [x] + back == [x] + back && front + back == back;
      assert ([x] + back)[1..] == back;
    } else {
      LookupSplit(front[1..], x, back, product);
      assert (front + [x] + back)[1..] == front[1..] + [x] + back;
      assert (front + back)[1..] == front[1..] + back;
    }
  }

  /** Equal length and a match for every distinct product leave no room for anything else. */
  lemma {:induction false} AgreementIsPermutation(expected: seq<Item>, actual: seq<Item>)
    requires DistinctProducts(expected) && Agrees(expected, actual)
    ensures multiset(actual) == multiset(expected)
  {
    if expected != [] {
      var e := expected[0];
      LookupFinds(actual, e.product);
      var j :| 0 <= j < |actual| && actual[j] == e;
      var front, back := actual[..j], actual[j + 1..];
      assert actual == front + [e] + back;
      forall i | 0 <= i < |expected[1..]| ensures Lookup(front + back, expected[1..][i].product) == Some(expected[1..][i]) {
        assert expected[1..][i] == expected[i + 1];
        LookupSplit(front, e, back, expected[i + 1].product);
      }
      AgreementIsPermutation(expected[1..], front + back);
      assert expected == [e] + expected[1..];
    }
  }

  lemma {:induction false} PermutationAgrees(expected: seq<Item>, actual: seq<Item>)
    requires DistinctProducts(expected) && multiset(actual) == multiset(expected)
    ensures Agrees(expected, actual)
  {
    assert |multiset(actual)| == |multiset(expected)|;
    forall i | 0 <= i < |expected| ensures Lookup(actual, expected[i].product) == Some(expected[i]) {
      LookupFinds(actual, expected[i].product);
      assert expected[i] in multiset(actual);
      var x := Lookup(actual, expected[i].product).value;
      assert x in multiset(expected);
      var k :| 0 <= k < |expected| && expected[k] == x;
    }
  }

  lemma {:induction false} FreshProduct(items: seq<Item>) returns (p: int)
    ensures forall k :: 0 <= k < |items| ==> items[k].product != Some(p) && (items[k].product.Some? ==> items[k].product.value < p)
  {
    if items == [] {
      p := 0;
    } else {
      var last := items[|items| - 1].product;
      p := FreshProduct(items[..|items| - 1]);
      if last.Some? && last.value >= p { p := last.value + 1; }
    }
  }

  ghost predicate PermutationCheck(expected: seq<Item>) {
    forall actual :: Agrees(expected, actual) <==> multiset(actual) == multiset(expected)
  }

  /** A repeated product with two quantities makes the list disagree with itself. */
  lemma ConflictingDuplicate(expected: seq<Item>, i: nat, j: nat)
    requires i < j < |expected| && expected[i].product == expected[j].product && expected[i] != expected[j]
    ensures !Agrees(expected, expected)
  {
  }

  /** A plainly repeated item can be replaced by anything unseen, and the check does not notice. */
  lemma {:induction false} PlainDuplicate(expected: seq<Item>, i: nat, j: nat) returns (actual: seq<Item>)
    requires i < j < |expected| && expected[i] == expected[j]
    requires forall x, y :: x in expected && y in expected && x.product == y.product ==> x == y
    ensures Agrees(expected, actual) && multiset(actual) != multiset(expected)
  {
    var p := FreshProduct(expected);
    var intruder := Item(Some(p), None);
    actual := expected[j := intruder];
    assert intruder !in expected;
    assert actual[j] in multiset(actual);
    assert intruder !in multiset(expected);
    forall k | 0 <= k < |expected| ensures Lookup(actual, expected[k].product) == Some(expected[k]) {
      LookupFinds(actual, expected[k].product);
      assert actual[if k == j then i else k] == expected[k];
      var x := Lookup(actual, expected[k].product).value;
      var m :| 0 <= m < |actual| && actual[m] == x;
      assert m != j && x == expected[m];
    }
  }

  /** Against a given list, validation is permutation checking exactly when the list names no product twice. */
  lemma {:induction false} PermutationCheckExactly(expected: seq<Item>)
    ensures PermutationCheck(expected) <==> DistinctProducts(expected)
  {
    if DistinctProducts(expected) {
      forall actual ensures Agrees(expected, actual) <==> multiset(actual) == multiset(expected) {
        if Agrees(expected, actual) { AgreementIsPermutation(expected, actual); }
        if multiset(actual) == multiset(expected) { PermutationAgrees(expected, actual); }
      }
    } else {
      RepetitionDefeats(expected);
    }
  }

  lemma {:induction false} RepetitionDefeats(expected: seq<Item>)
    requires !DistinctProducts(expected)
    ensures !PermutationCheck(expected)
  {
    var i, j :| 0 <= i < j < |expected| && expected[i].product == expected[j].product;
    if x, y :| x in expected && y in expected && x.product == y.product && x != y {
      var a :| 0 <= a < |expected| && expected[a] == x;
      var b :| 0 <= b < |expected| && expected[b] == y;
      if a < b { ConflictingDuplicate(expected, a, b); } else { ConflictingDuplicate(expected, b, a); }
      assert !PermutationCheck(expected);
    } else {
      assert expected[i] in expected && expected[j] in expected;
      var actual := PlainDuplicate(expected, i, j);
      assert !PermutationCheck(expected);
    }
  }

  // ----- status changes

  datatype Status =
    | Pending | Confirmed | Paid | Shipped | Delivered
    | RefundRequested | Refunded | RefundRejected | Cancelled
    | Other(name: string)

  function NextStates(s: Status): set<Status> {
    match s
    case Pending => {Confirmed, Cancelled}
    case Confirmed => {Paid, Cancelled}
    case Paid => {Shipped, RefundRequested, Cancelled}
    case Shipped => {Delivered, RefundRequested}
    case Delivered => {RefundRequested}
    case RefundRequested => {Refunded, RefundRejected}
    case _ => {}
  }

  predicate ValidTransition(from: Status, to: Status) { to in NextStates(from) }

  predicate ValidHistory(path: seq<Status>) {
    forall i, j :: 0 <= i < |path| && 0 <= j < |path| && j == i + 1 ==> ValidTransition(path[i], path[j])
  }

  function Progress(s: Status): nat {
    match s
    case Pending => 0
    case Confirmed => 1
    case Paid => 2
    case Shipped => 3
    case Delivered => 4
    case RefundRequested => 5
    case _ => 6
  }

  /** The twelve changes that are valid. */
  lemma TransitionsExactly(from: Status, to: Status)
    ensures ValidTransition(from, to) <==> (from, to) in {
      (Pending, Confirmed), (Pending, Cancelled),
      (Confirmed, Paid), (Confirmed, Cancelled),
      (Paid, Shipped), (Paid, RefundRequested), (Paid, Cancelled),
      (Shipped, Delivered), (Shipped, RefundRequested),
      (Delivered, RefundRequested),
      (RefundRequested, Refunded), (RefundRequested, RefundRejected)}
  {
  }

  lemma {:induction false} HistoryProgresses(path: seq<Status>, i: nat, j: nat)
    requires ValidHistory(path) && i < j < |path|
    ensures Progress(path[i]) + (j - i) <= Progress(path[j])
  {
    assert ValidTransition(path[j - 1], path[j]);
    if i < j - 1 { HistoryProgresses(path, i, j - 1); }
  }

  /** A history of valid changes never returns to a status and has at most seven entries. */
  lemma HistoryNeverRepeats(path: seq<Status>)
    requires ValidHistory(path)
    ensures forall i, j :: 0 <= i < j < |path| ==> path[i] != path[j]
    ensures |path| <= 7
  {
    forall i, j | 0 <= i < j < |path| ensures path[i] != path[j] { HistoryProgresses(path, i, j); }
    if |path| > 1 { HistoryProgresses(path, 0, |path| - 1); }
  }

  /** Whatever is shipped, delivered or refunded has been paid for, if the history starts at pending. */
  lemma {:induction false} PaidFirst(path: seq<Status>)
    requires ValidHistory(path) && path != [] && path[0] == Pending
    requires path[|path| - 1] in {Shipped, Delivered, RefundRequested, Refunded, RefundRejected}
    ensures Paid in path
  {
    var n := |path| - 1;
    assert ValidTransition(path[n - 1], path[n]);
    if path[n - 1] != Paid { PaidFirst(path[..n]); }
  }
}
