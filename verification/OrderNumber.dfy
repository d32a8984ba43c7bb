/** Order numbers: the date as eight characters followed by the order id, zero-padded to six digits. */
module OrderNumber {
  function DigitChar(d: nat): char
    requires d < 10
  {
    ((d as int) + ('0' as int)) as char
  }

  function Decimal(n: nat): string {
    if n < 10 then [DigitChar(n)] else Decimal(n / 10) + [DigitChar(n % 10)]
  }

  function Zeros(k: nat): string { seq(k, _ => '0') }

  /** The id formatted with `:06d`. */
  function Pad6(n: nat): string {
    var s := Decimal(n);
    if |s| >= 6 then s else Zeros(6 - |s|) + s
  }

  function Format(date: string, id: nat): string { date + Pad6(id) }

  // ----- decoding

  predicate IsDigit(c: char) { '0' <= c <= '9' }

  function DigitValue(c: char): nat
    requires IsDigit(c)
  {
    (c as int) - ('0' as int)
  }

  function Parse(s: string): nat
    requires forall i :: 0 <= i < |s| ==> IsDigit(s[i])
  {
    if s == "" then 0 else 10 * Parse(s[..|s| - 1]) + DigitValue(s[|s| - 1])
  }

  lemma {:induction false} ParseDecimal(n: nat)
    ensures (forall i :: 0 <= i < |Decimal(n)| ==> IsDigit(Decimal(n)[i])) && Parse(Decimal(n)) == n
  {
    var s := Decimal(n);
    if n < 10 {
      assert s[..0] == "";
    } else {
      ParseDecimal(n / 10);
      assert s[..|s| - 1] == Decimal(n / 10);
    }
  }

  lemma {:induction false} LeadingZeros(k: nat, s: string)
    requires forall i :: 0 <= i < |s| ==> IsDigit(s[i])
    ensures forall i :: 0 <= i < |Zeros(k) + s| ==> IsDigit((Zeros(k) + s)[i])
    ensures Parse(Zeros(k) + s) == Parse(s)
    decreases |s| + k
  {
    var t := Zeros(k) + s;
    if s != "" {
      LeadingZeros(k, s[..|s| - 1]);
      assert t[..|t| - 1] == Zeros(k) + s[..|s| - 1];
    } else if k > 0 {
      LeadingZeros(k - 1, "");
      assert t == Zeros(k) && t[..k - 1] == Zeros(k - 1) == Zeros(k - 1) + "";
    }
  }

  /** Whatever the eight-character date, the number starts with it and the digits after it decode to the id. */
  lemma DecodesToId(date: string, id: nat)
    requires |date| == 8
    ensures Format(date, id)[..8] == date
    ensures var tail := Format(date, id)[8..];
      |tail| >= 6 && (forall i :: 0 <= i < |tail| ==> IsDigit(tail[i])) && Parse(tail) == id
  {
    assert Format(date, id)[8..] == Pad6(id);
    ParseDecimal(id);
    if |Decimal(id)| < 6 { LeadingZeros(6 - |Decimal(id)|, Decimal(id)); }
  }

  /** Distinct ids give distinct numbers, on any dates. */
  lemma NumbersDistinct(date: string, id: nat, date': string, id': nat)
    requires |date| == 8 && |date'| == 8 && id != id'
    ensures Format(date, id) != Format(date', id')
  {
    DecodesToId(date, id);
    DecodesToId(date', id');
  }

  lemma {:induction false} DecimalLength(n: nat, k: nat)
    requires k > 0
    ensures |Decimal(n)| <= k <==> n < Pow10(k)
  {
    if k == 1 {
      assert Pow10(1) == 10;
    } else if n < 10 {
      Pow10Grows(k);
    } else {
      DecimalLength(n / 10, k - 1);
    }
  }

  function Pow10(k: nat): nat { if k == 0 then 1 else 10 * Pow10(k - 1) }

  lemma {:induction false} Pow10Grows(k: nat)
    requires k > 0
    ensures Pow10(k) >= 10
  {
    if k > 1 { Pow10Grows(k - 1); }
  }

  /** The number has fourteen characters exactly while the id is below a million; beyond that it grows. */
  lemma FourteenCharacters(date: string, id: nat)
    requires |date| == 8
    ensures |Format(date, id)| == 14 <==> id < 1000000
  {
    DecimalLength(id, 6);
    assert Pow10(2) == 100 && Pow10(4) == 10000 && Pow10(6) == 1000000;
  }

  // ----- the signal handler

  /** A saved order: its primary key and its number, empty until one is assigned. */
  class Order {
    const id: nat
    var orderNumber: string

    constructor (id: nat, orderNumber: string)
      ensures this.id == id && this.orderNumber == orderNumber
    {
      this.id, this.orderNumber := id, orderNumber;
    }
  }

  /** `dates` remembers, as a ghost, on which date each number was generated. */
  class OrderTable {
    var numbers: map<nat, string>  // the order_number column by primary key
    ghost var dates: map<nat, string>

    ghost predicate Valid()
      reads this
    {
      forall id :: id in dates ==> id in numbers && |dates[id]| == 8 && numbers[id] == Format(dates[id], id)
    }

    constructor (rows: map<nat, string>)
      ensures Valid() && numbers == rows && dates == map[]
    {
      numbers, dates := rows, map[];
    }

    /** A new row, before the handler runs. */
    method Insert(order: Order)
      requires Valid() && order.id !in numbers
      modifies this
      ensures Valid() && numbers == old(numbers)[order.id := order.orderNumber] && dates == old(dates)
    {
      numbers := numbers[order.id := order.orderNumber];
    }

    /** Runs after every save of an order; only the first save of an unnumbered order has an effect. */
    method GenerateOrderNumber(order: Order, created: bool, date: string)
      requires Valid() && |date| == 8
      modifies this, order
      ensures Valid()
      ensures order.orderNumber == if created && old(order.orderNumber) == "" then Format(date, order.id) else old(order.orderNumber)
      ensures if created && old(order.orderNumber) == "" && order.id in old(numbers)
              then numbers == old(numbers)[order.id := Format(date, order.id)] && dates == old(dates)[order.id := date]
              else numbers == old(numbers) && dates == old(dates)
    {
      if created && order.orderNumber == "" {
        var number := date + Pad6(order.id);
        if order.id in numbers {
          numbers := numbers[order.id := number];
          dates := dates[order.id := date];
        }
        order.orderNumber := number;
      }
    }

    /** In any state reached through these methods, no two orders share a generated number. */
    lemma GeneratedUnique(a: nat, b: nat)
      requires Valid() && a in dates && b in dates
      ensures numbers[a] == numbers[b] <==> a == b
    {
      if a != b { NumbersDistinct(dates[a], a, dates[b], b); }
    }
  }
}
