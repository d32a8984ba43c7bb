/** Values and small facts shared by the component models. */
module Wrappers {
  datatype Option<+T> = None | Some(value: T)
}

/** Sorting by an arbitrary total order, as Python's `sorted` does. */
module Sorting {
  ghost predicate TotalOrder<T(!new)>(le: (T, T) -> bool) {
    && (forall a, b :: le(a, b) || le(b, a))
    && (forall a, b :: le(a, b) && le(b, a) ==> a == b)
    && (forall a, b, c :: le(a, b) && le(b, c) ==> le(a, c))
  }

  predicate SortedBy<T>(s: seq<T>, le: (T, T) -> bool) {
    forall i, j :: 0 <= i < j < |s| ==> le(s[i], s[j])
  }

  function Insert<T>(x: T, s: seq<T>, le: (T, T) -> bool): seq<T> {
    if s == [] || le(x, s[0]) then [x] + s else [s[0]] + Insert(x, s[1..], le)
  }

  function Sort<T>(s: seq<T>, le: (T, T) -> bool): seq<T> {
    if s == [] then [] else Insert(s[0], Sort(s[1..], le), le)
  }

  lemma {:induction false} InsertCorrect<T(!new)>(x: T, s: seq<T>, le: (T, T) -> bool)
    requires TotalOrder(le) && SortedBy(s, le)
    ensures SortedBy(Insert(x, s, le), le)
    ensures multiset(Insert(x, s, le)) == multiset(s) + multiset{x}
  {
    if s == [] {
    } else if le(x, s[0]) {
      assert forall k :: 0 <= k < |s| ==> le(x, s[k]);
    } else {
      var rest := Insert(x, s[1..], le);
      InsertCorrect(x, s[1..], le);
      assert s == [s[0]] + s[1..];
      forall k | 0 <= k < |rest| ensures le(s[0], rest[k]) {
        assert rest[k] in multiset(rest);
        assert rest[k] == x || rest[k] in s[1..];
      }
    }
  }

  /** Sorting yields an ordered rearrangement of its input. */
  lemma {:induction false} SortCorrect<T(!new)>(s: seq<T>, le: (T, T) -> bool)
    requires TotalOrder(le)
    ensures SortedBy(Sort(s, le), le)
    ensures multiset(Sort(s, le)) == multiset(s)
    ensures |Sort(s, le)| == |s|
  {
    if s != [] {
      SortCorrect(s[1..], le);
      InsertCorrect(s[0], Sort(s[1..], le), le);
      assert s == [s[0]] + s[1..];
    }
    assert |multiset(Sort(s, le))| == |multiset(s)|;
  }

  /** An ordered sequence is determined by its elements. */
  lemma {:induction false} SortedUnique<T(!new)>(a: seq<T>, b: seq<T>, le: (T, T) -> bool)
    requires TotalOrder(le) && SortedBy(a, le) && SortedBy(b, le)
    requires multiset(a) == multiset(b)
    ensures a == b
  {
    assert |multiset(a)| == |multiset(b)|;
    if a != [] {
      SameHead(a, b, le);
      WithoutHead(a);
      WithoutHead(b);
      SortedUnique(a[1..], b[1..], le);
      assert a == [a[0]] + a[1..] && b == [b[0]] + b[1..];
    }
  }

  lemma SameHead<T(!new)>(a: seq<T>, b: seq<T>, le: (T, T) -> bool)
    requires TotalOrder(le) && SortedBy(a, le) && SortedBy(b, le) && a != [] && b != []
    requires multiset(a) == multiset(b)
    ensures a[0] == b[0]
  {
    assert a[0] in multiset(b) && b[0] in multiset(a);
    assert a[0] in b && b[0] in a;
    assert le(a[0], b[0]) && le(b[0], a[0]);
  }

  lemma WithoutHead<T>(s: seq<T>)
    requires s != []
    ensures multiset(s[1..]) == multiset(s) - multiset{s[0]}
  {
    assert s == [s[0]] + s[1..];
  }
}

/** Totals over the values of a map. */
module MapSums {
  ghost function Total<K>(m: map<K, int>): int
    decreases |m|
  {
    if m == map[] then 0 else
      var k :| k in m;
      m[k] + Total(m - {k})
  }

  lemma {:induction false} TotalSplit<K>(m: map<K, int>, k: K)
    requires k in m
    ensures Total(m) == m[k] + Total(m - {k})
    decreases |m|
  {
    var c :| c in m && Total(m) == m[c] + Total(m - {c});
    if c != k {
      TotalSplit(m - {c}, k);
      TotalSplit(m - {k}, c);
      assert m - {c} - {k} == m - {k} - {c};
    }
  }

  function Or0<K>(m: map<K, int>, k: K): int { if k in m then m[k] else 0 }

  /** Writing one entry moves the total by the change of that entry. */
  lemma TotalUpdate<K>(m: map<K, int>, k: K, v: int)
    ensures Total(m[k := v]) == Total(m) - Or0(m, k) + v
  {
    TotalSplit(m[k := v], k);
    assert m[k := v] - {k} == m - {k};
    if k in m {
      TotalSplit(m, k);
    } else {
      assert m - {k} == m;
    }
  }
}

/** The most recent part of a history. */
module Windows {
  function Last<T>(history: seq<T>, n: nat): (r: seq<T>)
    ensures |r| == if |history| <= n then |history| else n
  {
    if |history| <= n then history else history[|history| - n..]
  }

  /** `w[-k:]` in Python, for k >= 0 (and -0 is 0, so k = 0 keeps everything). */
  function KeepLast<T>(w: seq<T>, k: nat): seq<T> {
    if k == 0 || |w| <= k then w else w[|w| - k..]
  }

  /** Trim to cap - 1, then append: a window that is full stays full. */
  function Slide<T>(w: seq<T>, cap: nat, x: T): seq<T>
    requires cap > 0
  {
    (if |w| >= cap then KeepLast(w, cap - 1) else w) + [x]
  }

  lemma SlideIsLast<T>(history: seq<T>, cap: nat, x: T)
    requires cap > 1
    ensures Slide(Last(history, cap), cap, x) == Last(history + [x], cap)
  {
  }
}

/** Quotient and remainder, one step at a time. */
module DivMod {
  lemma MulAtLeast(d: nat, m: nat)
    requires m >= 1
    ensures d * m >= d
  {
  }

  lemma QuotientUnique(d: nat, q: nat, r: nat, q': nat, r': nat)
    requires d > 0 && r < d && r' < d && d * q + r == d * q' + r'
    ensures q == q' && r == r'
  {
    if q < q' {
      MulAtLeast(d, q' - q);
    } else if q' < q {
      MulAtLeast(d, q - q');
    }
  }

  lemma Fundamental(d: nat, n: nat)
    requires d > 0
    ensures n == d * (n / d) + n % d && n % d < d
  {
  }

  /** Adding one raises the quotient exactly when the remainder wraps to 0. */
  lemma StepUp(d: nat, q: nat, r: nat, q': nat, r': nat)
    requires d > 0 && r < d && r' < d && d * q' + r' == d * q + r + 1
    ensures r' == if r == d - 1 then 0 else r + 1
    ensures q' == q + if r' == 0 then 1 else 0
  {
    if r == d - 1 {
      assert d * (q + 1) == d * q + d;
      QuotientUnique(d, q + 1, 0, q', r');
    } else {
      QuotientUnique(d, q, r + 1, q', r');
    }
  }

  lemma DivModStep(d: nat, n: nat)
    requires d > 0
    ensures (n + 1) % d == if n % d == d - 1 then 0 else n % d + 1
    ensures (n + 1) / d == n / d + if (n + 1) % d == 0 then 1 else 0
  {
    Fundamental(d, n);
    Fundamental(d, n + 1);
    StepUp(d, n / d, n % d, (n + 1) / d, (n + 1) % d);
  }
}
