/**
 Bit patterns of the planes of one chamber.  Plane numbers count from 0; chambers have at most
 eight planes (the real ones have six).
 */
module PlanePatterns {
  const MOST_PLANES := 8

  function One(there: bool, bit: bv32): bv32 {
    if there then bit else 0
  }

  function Word(a: bool, b: bool, c: bool, d: bool, e: bool, f: bool, g: bool, h: bool): bv32 {
    One(a, 1) | One(b, 2) | One(c, 4) | One(d, 8) | One(e, 16) | One(f, 32) | One(g, 64) | One(h, 128)
  }

  /** The word with the bits of these planes set. */
  function Mask(planes: set<int>): bv32 {
    Word(0 in planes, 1 in planes, 2 in planes, 3 in planes, 4 in planes, 5 in planes, 6 in planes, 7 in planes)
  }

  /** The number 1 shifted left by k places. */
  function Bit(k: int): bv32
    requires 0 <= k <= MOST_PLANES
  {
    if k == 0 then 1 else if k == 1 then 2 else if k == 2 then 4 else if k == 3 then 8
    else if k == 4 then 16 else if k == 5 then 32 else if k == 6 then 64 else if k == 7 then 128
    else 256
  }

  function Count1Bits(x: bv32): bv32 {
    var a := x - ((x >> 1) & 0x55555555);
    var b := (a & 0x33333333) + ((a >> 2) & 0x33333333);
    (((b + (b >> 4)) & 0x0F0F0F0F) * 0x01010101) >> 24
  }

  // The bit operations on words stay inside these predicates where they are not the point.

  predicate Holds(x: bv32, value: bv32) {
    x == value
  }

  predicate Sets(before: bv32, x: bv32, after: bv32) {
    after == before | x
  }

  predicate Clears(before: bv32, x: bv32, after: bv32) {
    after == before & !x
  }

  predicate IsBit(x: bv32) {
    x == 1 || x == 2 || x == 4 || x == 8 || x == 16 || x == 32 || x == 64 || x == 128 || x == 256
  }

  lemma BitsDiffer(k: int)
    requires 0 <= k <= MOST_PLANES
    ensures IsBit(Bit(k)) && (Holds(Bit(k), 256) <==> k == MOST_PLANES)
    ensures (Holds(Bit(k), 1) <==> k == 0) && (Holds(Bit(k), 2) <==> k == 1) && (Holds(Bit(k), 4) <==> k == 2)
    ensures (Holds(Bit(k), 8) <==> k == 3) && (Holds(Bit(k), 16) <==> k == 4) && (Holds(Bit(k), 32) <==> k == 5)
    ensures (Holds(Bit(k), 64) <==> k == 6) && (Holds(Bit(k), 128) <==> k == 7)
  {
  }

  lemma SetBit(a: bool, b: bool, c: bool, d: bool, e: bool, f: bool, g: bool, h: bool, a': bool, b': bool, c': bool,
               d': bool, e': bool, f': bool, g': bool, h': bool, x: bv32)
    requires IsBit(x) && !Holds(x, 256)
    requires a' == (a || Holds(x, 1)) && b' == (b || Holds(x, 2)) && c' == (c || Holds(x, 4))
    requires d' == (d || Holds(x, 8)) && e' == (e || Holds(x, 16)) && f' == (f || Holds(x, 32))
    requires g' == (g || Holds(x, 64)) && h' == (h || Holds(x, 128))
    ensures Sets(Word(a, b, c, d, e, f, g, h), x, Word(a', b', c', d', e', f', g', h'))
  {
  }

  lemma ClearBit(a: bool, b: bool, c: bool, d: bool, e: bool, f: bool, g: bool, h: bool, a': bool, b': bool, c': bool,
                 d': bool, e': bool, f': bool, g': bool, h': bool, x: bv32)
    requires IsBit(x)
    requires a' == (a && !Holds(x, 1)) && b' == (b && !Holds(x, 2)) && c' == (c && !Holds(x, 4))
    requires d' == (d && !Holds(x, 8)) && e' == (e && !Holds(x, 16)) && f' == (f && !Holds(x, 32))
    requires g' == (g && !Holds(x, 64)) && h' == (h && !Holds(x, 128))
    ensures Clears(Word(a, b, c, d, e, f, g, h), x, Word(a', b', c', d', e', f', g', h'))
  {
    if a {
    } else {
    }
  }

  lemma SetsByOr(before: bv32, x: bv32, after: bv32)
    requires Sets(before, x, after)
    ensures after == before | x
  {
  }

  lemma ClearsByAnd(before: bv32, x: bv32, after: bv32)
    requires Clears(before, x, after)
    ensures after == before & !x
  {
  }

  lemma MaskIsWord(planes: set<int>, a: bool, b: bool, c: bool, d: bool, e: bool, f: bool, g: bool, h: bool)
    requires a == (0 in planes) && b == (1 in planes) && c == (2 in planes) && d == (3 in planes)
    requires e == (4 in planes) && f == (5 in planes) && g == (6 in planes) && h == (7 in planes)
    ensures Mask(planes) == Word(a, b, c, d, e, f, g, h)
  {
    hide Word;
  }

  /** Setting a bit adds a plane ... */
  lemma MaskWith(planes: set<int>, k: int)
    requires 0 <= k < MOST_PLANES
    ensures Mask(planes + {k}) == Mask(planes) | Bit(k)
  {
    hide Word, Bit, Mask, Holds, IsBit, Sets, Clears;
    var a, b, c, d := 0 in planes, 1 in planes, 2 in planes, 3 in planes;
    var e, f, g, h := 4 in planes, 5 in planes, 6 in planes, 7 in planes;
    var after := planes + {k};
    var a', b', c', d' := 0 in after, 1 in after, 2 in after, 3 in after;
    var e', f', g', h' := 4 in after, 5 in after, 6 in after, 7 in after;
    MaskIsWord(planes, a, b, c, d, e, f, g, h);
    MaskIsWord(after, a', b', c', d', e', f', g', h');
    BitsDiffer(k);
    SetBit(a, b, c, d, e, f, g, h, a', b', c', d', e', f', g', h', Bit(k));
    SetsByOr(Mask(planes), Bit(k), Mask(after));
  }

  /** ... and clearing it removes one. */
  lemma MaskWithout(planes: set<int>, k: int)
    requires 0 <= k <= MOST_PLANES
    ensures Mask(planes - {k}) == Mask(planes) & !Bit(k)
  {
    hide Word, Bit, Mask, Holds, IsBit, Sets, Clears;
    var a, b, c, d := 0 in planes, 1 in planes, 2 in planes, 3 in planes;
    var e, f, g, h := 4 in planes, 5 in planes, 6 in planes, 7 in planes;
    var after := planes - {k};
    var a', b', c', d' := 0 in after, 1 in after, 2 in after, 3 in after;
    var e', f', g', h' := 4 in after, 5 in after, 6 in after, 7 in after;
    MaskIsWord(planes, a, b, c, d, e, f, g, h);
    MaskIsWord(after, a', b', c', d', e', f', g', h');
    BitsDiffer(k);
    ClearBit(a, b, c, d, e, f, g, h, a', b', c', d', e', f', g', h', Bit(k));
    ClearsByAnd(Mask(planes), Bit(k), Mask(after));
  }

  /** Different sets of planes have different words. */
  lemma MaskInjective(s: set<int>, t: set<int>)
    requires Mask(s) == Mask(t)
    requires forall k <- s + t :: 0 <= k < MOST_PLANES
    ensures s == t
  {
    WordInjective(0 in s, 1 in s, 2 in s, 3 in s, 4 in s, 5 in s, 6 in s, 7 in s,
                  0 in t, 1 in t, 2 in t, 3 in t, 4 in t, 5 in t, 6 in t, 7 in t);
    hide Word;
    forall k | k in s + t ensures k in s && k in t {
      assert k == 0 || k == 1 || k == 2 || k == 3 || k == 4 || k == 5 || k == 6 || k == 7;
    }
  }

  lemma WordInjective(a: bool, b: bool, c: bool, d: bool, e: bool, f: bool, g: bool, h: bool,
                      a': bool, b': bool, c': bool, d': bool, e': bool, f': bool, g': bool, h': bool)
    requires Word(a, b, c, d, e, f, g, h) == Word(a', b', c', d', e', f', g', h')
    ensures a == a' && b == b' && c == c' && d == d' && e == e' && f == f' && g == g' && h == h'
  {
  }

  // ---- the number of planes -----------------------------------------------------------------------

  function OneIf(there: bool): int {
    if there then 1 else 0
  }

  predicate Below(planes: set<int>, n: int) {
    forall k <- planes :: 0 <= k < n
  }

  /** How many of the planes below n are in the set. */
  function SizeUpTo(planes: set<int>, n: nat): int {
    if n == 0 then 0 else SizeUpTo(planes, n - 1) + OneIf(n - 1 in planes)
  }

  lemma {:induction false} SizeWithout(planes: set<int>, m: int, n: nat)
    requires m >= n
    ensures SizeUpTo(planes - {m}, n) == SizeUpTo(planes, n)
  {
    if n > 0 {
      SizeWithout(planes, m, n - 1);
    }
  }

  lemma Member<T>(s: set<T>) returns (x: T)
    requires s != {}
    ensures x in s
  {
    x :| x in s;
  }

  lemma NoneBelow(planes: set<int>)
    requires Below(planes, 0)
    ensures |planes| == 0
  {
    if planes != {} {
      var k := Member(planes);
      assert false;
    }
  }

  lemma {:induction false} SizeIsSum(planes: set<int>, n: nat)
    requires Below(planes, n)
    ensures |planes| == SizeUpTo(planes, n)
  {
    if n == 0 {
      NoneBelow(planes);
    } else {
      var rest := planes - {n - 1};
      SizeIsSum(rest, n - 1);
      SizeWithout(planes, n - 1, n - 1);
      if n - 1 in planes {
        assert planes == rest + {n - 1};
      } else {
        assert planes == rest;
      }
    }
  }

  lemma SizeOfEight(planes: set<int>)
    requires Below(planes, MOST_PLANES)
    ensures |planes| == OneIf(0 in planes) + OneIf(1 in planes) + OneIf(2 in planes) + OneIf(3 in planes)
                        + OneIf(4 in planes) + OneIf(5 in planes) + OneIf(6 in planes) + OneIf(7 in planes)
  {
    SizeIsSum(planes, MOST_PLANES);
    hide OneIf;
    assert SizeUpTo(planes, 1) == OneIf(0 in planes);
    assert SizeUpTo(planes, 2) == SizeUpTo(planes, 1) + OneIf(1 in planes);
    assert SizeUpTo(planes, 3) == SizeUpTo(planes, 2) + OneIf(2 in planes);
    assert SizeUpTo(planes, 4) == SizeUpTo(planes, 3) + OneIf(3 in planes);
    assert SizeUpTo(planes, 5) == SizeUpTo(planes, 4) + OneIf(4 in planes);
    assert SizeUpTo(planes, 6) == SizeUpTo(planes, 5) + OneIf(5 in planes);
    assert SizeUpTo(planes, 7) == SizeUpTo(planes, 6) + OneIf(6 in planes);
  }

  lemma CountOfEight(a: bool, b: bool, c: bool, d: bool, e: bool, f: bool, g: bool, h: bool)
    ensures Count1Bits(Word(a, b, c, d, e, f, g, h))
            == One(a, 1) + One(b, 1) + One(c, 1) + One(d, 1) + One(e, 1) + One(f, 1) + One(g, 1) + One(h, 1)
  {
    var p, q, r, s := One(a, 1) + One(b, 1), One(c, 1) + One(d, 1), One(e, 1) + One(f, 1), One(g, 1) + One(h, 1);
    CountPairs(a, b, c, d, e, f, g, h);
    CountFours(p, q, r, s);
    CountAll(p + q, r + s);
    hide Word, One;
  }

  function Pairs(p: bv32, q: bv32, r: bv32, s: bv32): bv32 {
    p | (q << 2) | (r << 4) | (s << 6)
  }

  /** Each pair of bits holds its own count ... */
  lemma CountPairs(a: bool, b: bool, c: bool, d: bool, e: bool, f: bool, g: bool, h: bool)
    ensures var x := Word(a, b, c, d, e, f, g, h);
            x - ((x >> 1) & 0x55555555)
            == Pairs(One(a, 1) + One(b, 1), One(c, 1) + One(d, 1), One(e, 1) + One(f, 1), One(g, 1) + One(h, 1))
  {
    var p, q, r, s := One(a, 1) | One(b, 2), One(c, 1) | One(d, 2), One(e, 1) | One(f, 2), One(g, 1) | One(h, 2);
    WordOfPairs(a, b, c, d, e, f, g, h);
    CountInPairs(p, q, r, s);
    OnePair(a, b);
    OnePair(c, d);
    OnePair(e, f);
    OnePair(g, h);
    hide One, Pairs, Word;
  }

  lemma WordOfPairs(a: bool, b: bool, c: bool, d: bool, e: bool, f: bool, g: bool, h: bool)
    ensures Word(a, b, c, d, e, f, g, h)
            == Pairs(One(a, 1) | One(b, 2), One(c, 1) | One(d, 2), One(e, 1) | One(f, 2), One(g, 1) | One(h, 2))
  {
  }

  lemma OnePair(a: bool, b: bool)
    ensures var p := One(a, 1) | One(b, 2);
            p < 4 && p - (p >> 1) == One(a, 1) + One(b, 1)
  {
  }

  lemma CountInPairs(p: bv32, q: bv32, r: bv32, s: bv32)
    requires p < 4 && q < 4 && r < 4 && s < 4
    ensures var x := Pairs(p, q, r, s);
            x - ((x >> 1) & 0x55555555) == Pairs(p - (p >> 1), q - (q >> 1), r - (r >> 1), s - (s >> 1))
  {
  }

  /** ... then each four bits ... */
  lemma CountFours(p: bv32, q: bv32, r: bv32, s: bv32)
    requires p <= 2 && q <= 2 && r <= 2 && s <= 2
    ensures var x := Pairs(p, q, r, s);
            (x & 0x33333333) + ((x >> 2) & 0x33333333) == (p + q) | ((r + s) << 4)
  {
  }

  /** ... and in the end the top byte all of them. */
  lemma CountAll(low: bv32, high: bv32)
    requires low <= 4 && high <= 4
    ensures var x := low | (high << 4);
            (((x + (x >> 4)) & 0x0F0F0F0F) * 0x01010101) >> 24 == low + high
  {
  }

  /** A small word as a number. */
  function Number(x: bv32): int {
    if x == 0 then 0 else if x == 1 then 1 else if x == 2 then 2 else if x == 3 then 3 else if x == 4 then 4
    else if x == 5 then 5 else if x == 6 then 6 else if x == 7 then 7 else 8
  }

  lemma Plus(x: bv32, n: bv32, there: bool)
    requires x <= n && n < 8
    ensures Number(x + One(there, 1)) == Number(x) + OneIf(there) && x + One(there, 1) <= n + 1
  {
  }

  lemma NumberIsValue(x: bv32)
    requires x <= 8
    ensures x as int == Number(x)
  {
  }

  lemma AddUp(a: bool, b: bool, c: bool, d: bool, e: bool, f: bool, g: bool, h: bool)
    ensures var x := One(a, 1) + One(b, 1) + One(c, 1) + One(d, 1) + One(e, 1) + One(f, 1) + One(g, 1) + One(h, 1);
      && x <= 8
      && Number(x) == OneIf(a) + OneIf(b) + OneIf(c) + OneIf(d) + OneIf(e) + OneIf(f) + OneIf(g) + OneIf(h)
  {
    var x1 := One(a, 1);
    assert x1 <= 1 && Number(x1) == OneIf(a);
    hide Number, One, OneIf;
    var x2 := x1 + One(b, 1);
    var x3 := x2 + One(c, 1);
    var x4 := x3 + One(d, 1);
    var x5 := x4 + One(e, 1);
    var x6 := x5 + One(f, 1);
    var x7 := x6 + One(g, 1);
    Plus(x1, 1, b);
    Plus(x2, 2, c);
    Plus(x3, 3, d);
    Plus(x4, 4, e);
    Plus(x5, 5, f);
    Plus(x6, 6, g);
    Plus(x7, 7, h);
  }

  /** The bit count of a pattern is the number of its planes. */
  lemma CountIsSize(planes: set<int>)
    requires Below(planes, MOST_PLANES)
    ensures Count1Bits(Mask(planes)) as int == |planes|
  {
    var a, b, c, d := 0 in planes, 1 in planes, 2 in planes, 3 in planes;
    var e, f, g, h := 4 in planes, 5 in planes, 6 in planes, 7 in planes;
    hide Word, Number, One, OneIf, Below, Count1Bits;
    CountOfEight(a, b, c, d, e, f, g, h);
    AddUp(a, b, c, d, e, f, g, h);
    NumberIsValue(Count1Bits(Mask(planes)));
    SizeOfEight(planes);
  }
}
