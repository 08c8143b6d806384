/**
 * The parts of java.lang.String and java.lang.Integer the queries rely on:
 * String.compareTo (which orders every emitted pair, triple and printed
 * row) and the decimal rendering and parsing of integers.
 */
module JavaStrings {

  /**
   * The UTF-16 code units of a character, as a Java String stores it: one
   * unit below U+10000, otherwise a high and a low surrogate.
   */
  function Units(c: char): (r: seq<int>)
    ensures 1 <= |r| <= 2 && (|r| == 1 <==> c as int < 0x1_0000)
    ensures forall i :: 0 <= i < |r| ==> 0 <= r[i] < 0x1_0000
  {
    if c as int < 0x1_0000 then [c as int]
    else
      var v := c as int - 0x1_0000;
      [0xD800 + v / 0x400, 0xDC00 + v % 0x400]
  }

  /** The UTF-16 code units of a string. */
  function Utf16(s: string): (r: seq<int>)
    ensures |s| <= |r|
  {
    if s == [] then [] else Units(s[0]) + Utf16(s[1..])
  }

  /** Difference of the first differing code units, else of the lengths. */
  function UnitCmp(x: seq<int>, y: seq<int>): int
  {
    if |x| == 0 || |y| == 0 then |x| - |y|
    else if x[0] != y[0] then x[0] - y[0]
    else UnitCmp(x[1..], y[1..])
  }

  /** The first UTF-16 unit of a character: itself, or its high surrogate. */
  function High(c: char): int
  {
    if c as int < 0x1_0000 then c as int else 0xD800 + (c as int - 0x1_0000) / 0x400
  }

  /** The second UTF-16 unit of a character above U+FFFF, its low surrogate; 0 for the others. */
  function Low(c: char): int
  {
    if c as int < 0x1_0000 then 0 else 0xDC00 + (c as int - 0x1_0000) % 0x400
  }

  /** compareTo on single characters: the difference of their first differing units. */
  function CharCmp(x: char, y: char): int
  {
    if High(x) != High(y) then High(x) - High(y) else Low(x) - Low(y)
  }

  /** The number of UTF-16 units of a string, String.length(). */
  function Utf16Length(s: string): (n: nat)
    ensures n == |Utf16(s)|
  {
    if s == [] then 0 else |Units(s[0])| + Utf16Length(s[1..])
  }

  /**
   * String.compareTo: at the first differing character, the difference of
   * its first differing UTF-16 units; when one string is a prefix of the
   * other, the difference of their lengths in units.
   */
  function Cmp(a: string, b: string): (r: int)
    ensures r == 0 <==> a == b
  {
    if |a| == 0 || |b| == 0 then Utf16Length(a) - Utf16Length(b)
    else if a[0] != b[0] then CharUnits(a[0], b[0]); CharCmp(a[0], b[0])
    else
      var r := Cmp(a[1..], b[1..]);
      assert a == [a[0]] + a[1..] && b == [b[0]] + b[1..];
      r
  }

  /** `b.compareTo(a) > 0`, the strict order used for canonical emission. */
  predicate Less(a: string, b: string): (r: bool)
    ensures r ==> a != b
  {
    Cmp(a, b) < 0
  }

  /** The two units of a character determine it; a character inside U+FFFF has no surrogate unit. */
  lemma CharUnits(x: char, y: char)
    ensures x as int < 0x1_0000 ==> !(0xD800 <= High(x) < 0xE000)
    ensures x as int >= 0x1_0000 ==> 0xD800 <= High(x) < 0xDC00 && 0xDC00 <= Low(x) < 0xE000
    ensures CharCmp(x, y) == 0 <==> x == y
    ensures CharCmp(x, y) == -CharCmp(y, x)
  {
    if High(x) == High(y) && Low(x) == Low(y) && x as int >= 0x1_0000 && y as int >= 0x1_0000 {
      var u, v := x as int - 0x1_0000, y as int - 0x1_0000;
      assert u == (u / 0x400) * 0x400 + u % 0x400;
      assert v == (v / 0x400) * 0x400 + v % 0x400;
      assert x as int == y as int;
    }
  }

  /** Both strings' first characters compare as their code units do. */
  lemma CharCmpUnits(x: char, y: char)
    requires x != y
    ensures CharCmp(x, y) == UnitCmp(Units(x), Units(y))
  {
    CharUnits(x, y);
  }

  /**
   * Cmp is the comparison of the UTF-16 encodings: a character's units are
   * never a proper prefix of another's, so the first differing character
   * decides at its first differing unit.
   */
  lemma {:induction false} CmpIsUnitOrder(a: string, b: string)
    ensures Cmp(a, b) == UnitCmp(Utf16(a), Utf16(b))
    decreases |a|
  {
    if |a| == 0 || |b| == 0 {
    } else {
      var x, y := Utf16(a), Utf16(b);
      assert x == Units(a[0]) + Utf16(a[1..]) && y == Units(b[0]) + Utf16(b[1..]);
      if a[0] != b[0] {
        CharUnits(a[0], b[0]);
        CharCmpUnits(a[0], b[0]);
        UnitCmpPrefix(Units(a[0]), Units(b[0]), Utf16(a[1..]), Utf16(b[1..]));
      } else {
        CmpIsUnitOrder(a[1..], b[1..]);
        UnitCmpSkip(Units(a[0]), Utf16(a[1..]), Utf16(b[1..]));
      }
    }
  }

  /** Two unit sequences that differ within both their lengths decide before the tails. */
  lemma {:induction false} UnitCmpPrefix(u: seq<int>, v: seq<int>, s: seq<int>, t: seq<int>)
    requires |u| > 0 && |v| > 0
    requires exists i :: 0 <= i < |u| && i < |v| && u[i] != v[i]
    ensures UnitCmp(u + s, v + t) == UnitCmp(u, v)
  {
    assert (u + s)[0] == u[0] && (v + t)[0] == v[0];
    if u[0] == v[0] {
      assert (u + s)[1..] == u[1..] + s && (v + t)[1..] == v[1..] + t;
      UnitCmpPrefix(u[1..], v[1..], s, t);
    }
  }

  /** A shared prefix is skipped. */
  lemma {:induction false} UnitCmpSkip(u: seq<int>, s: seq<int>, t: seq<int>)
    ensures UnitCmp(u + s, u + t) == UnitCmp(s, t)
  {
    if u != [] {
      assert (u + s)[1..] == u[1..] + s && (u + t)[1..] == u[1..] + t;
      UnitCmpSkip(u[1..], s, t);
    } else {
      assert u + s == s && u + t == t;
    }
  }

  lemma {:induction false} CmpAntisymmetric(a: string, b: string)
    ensures Cmp(a, b) == -Cmp(b, a)
  {
    if |a| == 0 || |b| == 0 {
    } else if a[0] != b[0] {
      CharUnits(a[0], b[0]);
    } else {
      CmpAntisymmetric(a[1..], b[1..]);
    }
  }

  lemma {:induction false} LessTransitive(a: string, b: string, c: string)
    requires Less(a, b) && Less(b, c)
    ensures Less(a, c)
  {
    if |a| == 0 || |b| == 0 || |c| == 0 {
    } else if a[0] != b[0] || b[0] != c[0] {
      CharUnits(a[0], b[0]);
      CharUnits(b[0], c[0]);
      CharUnits(a[0], c[0]);
    } else {
      LessTransitive(a[1..], b[1..], c[1..]);
    }
  }

  /** For two different strings exactly one is the smaller: the order is strict and total. */
  lemma LessTrichotomy(a: string, b: string)
    ensures a == b ==> !Less(a, b) && !Less(b, a)
    ensures a != b ==> (Less(a, b) <==> !Less(b, a))
  {
    CmpAntisymmetric(a, b);
  }

  /**
   * The order is that of code units, not of code points: U+FF21 sorts after
   * U+1F600, whose high surrogate 0xD83D is smaller.
   */
  lemma SurrogatesSortFirst()
    ensures Less("\U{1F600}", "\U{FF21}") && Cmp("\U{FF21}", "\U{1F600}") == 0xFF21 - 0xD83D
  {
    assert Utf16("\U{1F600}") == [0xD83D, 0xDE00];
    assert Utf16("\U{FF21}") == [0xFF21];
  }

  predicate IsDigit(c: char)
  {
    '0' <= c <= '9'
  }

  function Digit(d: nat): (c: char)
    requires d < 10
    ensures IsDigit(c) && (c as int) - ('0' as int) == d
  {
    ['0', '1', '2', '3', '4', '5', '6', '7', '8', '9'][d]
  }

  /** Integer.toString for a non-negative value. */
  function NatToString(n: nat): (s: string)
    ensures |s| > 0
    ensures forall i :: 0 <= i < |s| ==> IsDigit(s[i])
    decreases n
  {
    if n < 10 then [Digit(n)] else NatToString(n / 10) + [Digit(n % 10)]
  }

  /** Integer.toString. */
  function IntToString(i: int): (s: string)
    ensures |s| > 0
    ensures (i < 0) <==> s[0] == '-'
  {
    if i < 0 then "-" + NatToString(-i) else NatToString(i)
  }

  /** Integer.parseInt restricted to a string of decimal digits. */
  function ParseDigits(s: string): nat
    requires forall i :: 0 <= i < |s| ==> IsDigit(s[i])
  {
    if |s| == 0 then 0
    else
      var d := (s[|s| - 1] as int) - ('0' as int);
      assert IsDigit(s[|s| - 1]);
      10 * ParseDigits(s[..|s| - 1]) + d
  }

  lemma {:induction false} ParseNatToString(n: nat)
    ensures ParseDigits(NatToString(n)) == n
    decreases n
  {
    var s := NatToString(n);
    if n >= 10 {
      ParseNatToString(n / 10);
      assert s[..|s| - 1] == NatToString(n / 10);
    }
  }
}
