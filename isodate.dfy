/**
 * Dates as stored text: `date.isoformat()`, the ISO 8601 extended calendar
 * format YYYY-MM-DD (section 4.1.2.2 of ISO 8601:2004), and Python's ordering
 * of strings, which compares code points left to right.
 */
module IsoDate {
  import opened Calendar

  /** Python's `a <= b` on str: lexicographic by code point, a prefix sorts first. */
  predicate StrLe(a: string, b: string)
    decreases |a|
  {
    if |a| == 0 then true
    else if |b| == 0 then false
    else if a[0] != b[0] then a[0] < b[0]
    else StrLe(a[1..], b[1..])
  }

  function DigitChar(k: int): char
    requires 0 <= k < 10
  {
    (48 + k) as char
  }

  /** `%02d` for 0 <= n < 100. */
  function Pad2(n: int): (s: string)
    requires 0 <= n < 100
    ensures |s| == 2
  {
    [DigitChar(n / 10), DigitChar(n % 10)]
  }

  /** `%04d` for 0 <= n < 10000. */
  function Pad4(n: int): (s: string)
    requires 0 <= n < 10000
    ensures |s| == 4
  {
    Pad2(n / 100) + Pad2(n % 100)
  }

  /** `date.isoformat()`: YYYY-MM-DD, every field zero-padded. */
  function Iso(d: Date): (s: string)
    requires ValidDate(d)
    ensures |s| == 10 && s[4] == '-' && s[7] == '-'
  {
    Pad4(d.year) + ("-" + (Pad2(d.month) + ("-" + Pad2(d.day))))
  }

  // ---------------------------------------------------------------------------
  // Order facts

  lemma {:induction false} StrLeReflexive(a: string)
    ensures StrLe(a, a)
    decreases |a|
  {
    if |a| > 0 {
      StrLeReflexive(a[1..]);
    }
  }

  lemma {:induction false} StrLeTransitive(a: string, b: string, c: string)
    requires StrLe(a, b) && StrLe(b, c)
    ensures StrLe(a, c)
    decreases |a|
  {
    if |a| > 0 && |b| > 0 && |c| > 0 && a[0] == b[0] && b[0] == c[0] {
      StrLeTransitive(a[1..], b[1..], c[1..]);
    }
  }

  /**
   * Comparing two strings that start with blocks of the same length: the
   * first blocks decide unless they are equal, then the rests decide.
   */
  lemma {:induction false} StrLeConcat(x1: string, y1: string, x2: string, y2: string)
    requires |x1| == |x2|
    ensures StrLe(x1 + y1, x2 + y2) <==> (x1 != x2 && StrLe(x1, x2)) || (x1 == x2 && StrLe(y1, y2))
    decreases |x1|
  {
    if |x1| == 0 {
      assert x1 + y1 == y1 && x2 + y2 == y2;
    } else {
      assert (x1 + y1)[0] == x1[0] && (x2 + y2)[0] == x2[0];
      assert (x1 + y1)[1..] == x1[1..] + y1 && (x2 + y2)[1..] == x2[1..] + y2;
      if x1[0] == x2[0] {
        StrLeConcat(x1[1..], y1, x2[1..], y2);
        assert x1 == [x1[0]] + x1[1..] && x2 == [x2[0]] + x2[1..];
      }
    }
  }

  lemma Pad2Order(a: int, b: int)
    requires 0 <= a < 100 && 0 <= b < 100
    ensures StrLe(Pad2(a), Pad2(b)) <==> a <= b
    ensures Pad2(a) == Pad2(b) <==> a == b
  {
    var pa, pb := Pad2(a), Pad2(b);
    DigitOrder(a / 10, b / 10);
    DigitOrder(a % 10, b % 10);
    assert StrLe(pa[1..], pb[1..]) <==> pa[1] <= pb[1] by {
      assert pa[1..][1..] == [] && pb[1..][1..] == [];
    }
    if pa == pb {
      assert pa[0] == pb[0] && pa[1] == pb[1];
      assert a == 10 * (a / 10) + a % 10 && b == 10 * (b / 10) + b % 10;
    }
  }

  lemma DigitOrder(x: int, y: int)
    requires 0 <= x < 10 && 0 <= y < 10
    ensures DigitChar(x) < DigitChar(y) <==> x < y
    ensures DigitChar(x) == DigitChar(y) <==> x == y
  {
    assert DigitChar(x) as int == 48 + x && DigitChar(y) as int == 48 + y;
  }

  lemma Pad4Order(a: int, b: int)
    requires 0 <= a < 10000 && 0 <= b < 10000
    ensures StrLe(Pad4(a), Pad4(b)) <==> a <= b
    ensures Pad4(a) == Pad4(b) <==> a == b
  {
    Pad2Order(a / 100, b / 100);
    Pad2Order(a % 100, b % 100);
    StrLeConcat(Pad2(a / 100), Pad2(a % 100), Pad2(b / 100), Pad2(b % 100));
    if Pad4(a) == Pad4(b) {
      assert Pad4(a)[..2] == Pad2(a / 100) && Pad4(b)[..2] == Pad2(b / 100);
      assert Pad4(a)[2..] == Pad2(a % 100) && Pad4(b)[2..] == Pad2(b % 100);
    }
  }

  /**
   * For dates Python can represent, comparing their ISO text as strings is
   * the same as comparing the dates: the inclusive string filter on stored
   * dates selects by calendar order.
   */
  lemma IsoOrder(a: Date, b: Date)
    requires ValidDate(a) && ValidDate(b)
    ensures StrLe(Iso(a), Iso(b)) <==> DateLe(a, b)
  {
    var da, db := "-" + Pad2(a.day), "-" + Pad2(b.day);
    var ma, mb := "-" + (Pad2(a.month) + da), "-" + (Pad2(b.month) + db);
    Pad4Order(a.year, b.year);
    Pad2Order(a.month, b.month);
    Pad2Order(a.day, b.day);
    StrLeConcat(Pad4(a.year), ma, Pad4(b.year), mb);
    StrLeConcat("-", Pad2(a.month) + da, "-", Pad2(b.month) + db);
    StrLeConcat(Pad2(a.month), da, Pad2(b.month), db);
    StrLeConcat("-", Pad2(a.day), "-", Pad2(b.day));
  }

  /** Distinct valid dates have distinct ISO text. */
  lemma IsoInjective(a: Date, b: Date)
    requires ValidDate(a) && ValidDate(b) && Iso(a) == Iso(b)
    ensures a == b
  {
    IsoOrder(a, b);
    IsoOrder(b, a);
    StrLeReflexive(Iso(a));
  }
}
