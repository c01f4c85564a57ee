/**
 * Recognition of version-4 UUID strings: the textual 8-4-4-4-12 form of
 * section 4 of RFC 9562, version digit 4 (section 5.4) and the RFC variant
 * `10xx` (section 4.1), matched without regard to letter case.
 *
 * The recogniser is modelled as the source writes it: an anchored,
 * fixed-width regular expression with the ignore-case flag, tested by
 * matching one atom per character. Beside it stands an independent,
 * positional definition of the accepted strings, and the two are proved
 * equal.
 */
module Uuid {
  import opened JsValues

  // ---------------------------------------------------------------------
  // Letter case (ASCII)
  // ---------------------------------------------------------------------

  function UpperAscii(c: char): char
  {
    if 'a' <= c <= 'z' then (c as int - 32) as char else c
  }

  function LowerAscii(c: char): char
  {
    if 'A' <= c <= 'Z' then (c as int + 32) as char else c
  }

  /** Two characters that differ at most in letter case. */
  predicate SameIgnoringCase(c: char, d: char)
  {
    UpperAscii(c) == UpperAscii(d)
  }

  // ---------------------------------------------------------------------
  // The fixed-width regular expression
  // ---------------------------------------------------------------------

  /** A closed range of characters inside a bracket class, such as `0-9`. */
  datatype CharRange = CharRange(lo: char, hi: char)

  /** One regular-expression atom: a literal character or a bracket class. */
  datatype Atom = Literal(c: char) | Class(ranges: seq<CharRange>)

  /** An atom repeated exactly `count` times (`atom{count}`; a bare atom has count 1). */
  datatype Term = Term(atom: Atom, count: nat)

  /** The lower-case hexadecimal class `0-9a-f`. */
  const HexClass: Atom := Class([CharRange('0', '9'), CharRange('a', 'f')])

  /** The variant class `89ab`. */
  const VariantClass: Atom := Class([CharRange('8', '8'), CharRange('9', '9'), CharRange('a', 'a'), CharRange('b', 'b')])

  /**
   * UUID_V4_REGEX, term by term: eight hex digits, a hyphen, four hex digits,
   * a hyphen, the digit 4 and three hex digits, a hyphen, one variant digit
   * and three hex digits, a hyphen, twelve hex digits. It is anchored at both
   * ends and carries the ignore-case flag.
   */
  const UuidV4Terms: seq<Term> := [
    Term(HexClass, 8), Term(Literal('-'), 1),
    Term(HexClass, 4), Term(Literal('-'), 1),
    Term(Literal('4'), 1), Term(HexClass, 3), Term(Literal('-'), 1),
    Term(VariantClass, 1), Term(HexClass, 3), Term(Literal('-'), 1),
    Term(HexClass, 12)
  ]

  const UuidV4IgnoreCase: bool := true

  function Repeat(a: Atom, n: nat): (r: seq<Atom>)
    ensures |r| == n
    ensures forall i :: 0 <= i < n ==> r[i] == a
  {
    if n == 0 then [] else [a] + Repeat(a, n - 1)
  }

  /** The atoms of a fixed-width pattern, one per character it matches. */
  function Expand(terms: seq<Term>): seq<Atom>
  {
    if terms == [] then [] else Repeat(terms[0].atom, terms[0].count) + Expand(terms[1..])
  }

  function UuidV4Pattern(): seq<Atom>
  {
    Expand(UuidV4Terms)
  }

  predicate InRanges(c: char, ranges: seq<CharRange>)
  {
    exists k :: 0 <= k < |ranges| && ranges[k].lo <= c <= ranges[k].hi
  }

  /**
   * Whether one atom matches one character. Under ignore-case, ECMAScript
   * compares canonical (upper-case) forms; for a pattern made only of ASCII
   * characters this is: the character, its lower-case or its upper-case form
   * lies in the class.
   */
  predicate AtomMatches(a: Atom, c: char, ignoreCase: bool)
  {
    match a
    case Literal(p) => if ignoreCase then UpperAscii(p) == UpperAscii(c) else p == c
    case Class(rs) =>
      InRanges(c, rs) || (ignoreCase && (InRanges(LowerAscii(c), rs) || InRanges(UpperAscii(c), rs)))
  }

  /** An anchored match (`^...$`) of a fixed-width pattern against the whole of `s`. */
  predicate MatchesAnchored(s: string, pattern: seq<Atom>, ignoreCase: bool)
  {
    if pattern == [] then s == []
    else s != [] && AtomMatches(pattern[0], s[0], ignoreCase) && MatchesAnchored(s[1..], pattern[1..], ignoreCase)
  }

  /** `UUID_V4_REGEX.test(s)` */
  predicate RegexTest(s: string)
  {
    MatchesAnchored(s, UuidV4Pattern(), UuidV4IgnoreCase)
  }

  // ---------------------------------------------------------------------
  // The positional definition
  // ---------------------------------------------------------------------

  const UuidLength: nat := 36
  const VersionIndex: nat := 14
  const VariantIndex: nat := 19

  predicate IsHexDigit(c: char)
  {
    '0' <= c <= '9' || 'a' <= c <= 'f' || 'A' <= c <= 'F'
  }

  /** The RFC variant: the first digit of the fourth group is one of 8, 9, a, b (either case). */
  predicate IsVariantDigit(c: char)
  {
    c == '8' || c == '9' || c == 'a' || c == 'b' || c == 'A' || c == 'B'
  }

  predicate IsHyphenIndex(i: int)
  {
    i == 8 || i == 13 || i == 18 || i == 23
  }

  /** The characters allowed at index `i` of a version-4 UUID string. */
  predicate AllowedAt(i: int, c: char)
  {
    if IsHyphenIndex(i) then c == '-'
    else if i == VersionIndex then c == '4'
    else if i == VariantIndex then IsVariantDigit(c)
    else IsHexDigit(c)
  }

  predicate IsUuidV4Text(s: string)
  {
    |s| == UuidLength && forall i :: 0 <= i < |s| ==> AllowedAt(i, s[i])
  }

  /** Every character of `g` is a hexadecimal digit. */
  predicate IsHexGroup(g: string)
  {
    forall c :: c in g ==> IsHexDigit(c)
  }

  // ---------------------------------------------------------------------
  // isUuid
  // ---------------------------------------------------------------------

  /**
   * `isUuid(value)`: undefined and null are rejected first, then every value
   * that is not a string; a string is accepted exactly when the regular
   * expression matches it, that is, when it has the positional form.
   */
  function IsUuid(value: JsValue): (ok: bool)
    ensures ok <==> value.Str? && IsUuidV4Text(value.s)
  {
    if value == Undefined || value == Null then false
    else if !IsString(value) then false
    else
      RegexTestIsPositional(value.s);
      RegexTest(value.s)
  }

  // ---------------------------------------------------------------------
  // Lemmas
  // ---------------------------------------------------------------------

  /** An anchored match is a character-by-character match of equal lengths. */
  lemma {:induction false} MatchesAnchoredPointwise(s: string, pattern: seq<Atom>, ignoreCase: bool)
    ensures MatchesAnchored(s, pattern, ignoreCase) <==>
            |s| == |pattern| && forall i :: 0 <= i < |s| ==> AtomMatches(pattern[i], s[i], ignoreCase)
  {
    if pattern != [] && s != [] {
      MatchesAnchoredPointwise(s[1..], pattern[1..], ignoreCase);
      if |s| == |pattern| && forall i :: 0 <= i < |s| ==> AtomMatches(pattern[i], s[i], ignoreCase) {
        assert forall i :: 0 <= i < |s| - 1 ==> s[1..][i] == s[i + 1] && pattern[1..][i] == pattern[i + 1];
      }
      if MatchesAnchored(s, pattern, ignoreCase) {
        forall i | 0 <= i < |s|
          ensures AtomMatches(pattern[i], s[i], ignoreCase)
        {
          if i > 0 {
            assert s[1..][i - 1] == s[i] && pattern[1..][i - 1] == pattern[i];
          }
        }
      }
    }
  }

  lemma ExpandFirst(terms: seq<Term>)
    requires terms != []
    ensures Expand(terms) == Repeat(terms[0].atom, terms[0].count) + Expand(terms[1..])
  {
  }

  /** The pattern, written out as the concatenation of its terms. */
  lemma UuidV4PatternShape()
    ensures UuidV4Pattern() ==
      Repeat(HexClass, 8) + [Literal('-')] +
      Repeat(HexClass, 4) + [Literal('-')] +
      [Literal('4')] + Repeat(HexClass, 3) + [Literal('-')] +
      [VariantClass] + Repeat(HexClass, 3) + [Literal('-')] +
      Repeat(HexClass, 12)
  {
    var t := UuidV4Terms;
    var hyphen := [Literal('-')];
    assert Repeat(Literal('-'), 1) == hyphen;
    assert Repeat(Literal('4'), 1) == [Literal('4')];
    assert Repeat(VariantClass, 1) == [VariantClass];
    var e11 := Expand(t[11..]);
    assert e11 == [] by { assert t[11..] == []; }
    var e10 := Expand(t[10..]);
    assert e10 == Repeat(HexClass, 12) + e11 by { ExpandFirst(t[10..]); assert t[10..][1..] == t[11..]; }
    var e9 := Expand(t[9..]);
    assert e9 == hyphen + e10 by { ExpandFirst(t[9..]); assert t[9..][1..] == t[10..]; }
    var e8 := Expand(t[8..]);
    assert e8 == Repeat(HexClass, 3) + e9 by { ExpandFirst(t[8..]); assert t[8..][1..] == t[9..]; }
    var e7 := Expand(t[7..]);
    assert e7 == [VariantClass] + e8 by { ExpandFirst(t[7..]); assert t[7..][1..] == t[8..]; }
    var e6 := Expand(t[6..]);
    assert e6 == hyphen + e7 by { ExpandFirst(t[6..]); assert t[6..][1..] == t[7..]; }
    var e5 := Expand(t[5..]);
    assert e5 == Repeat(HexClass, 3) + e6 by { ExpandFirst(t[5..]); assert t[5..][1..] == t[6..]; }
    var e4 := Expand(t[4..]);
    assert e4 == [Literal('4')] + e5 by { ExpandFirst(t[4..]); assert t[4..][1..] == t[5..]; }
    var e3 := Expand(t[3..]);
    assert e3 == hyphen + e4 by { ExpandFirst(t[3..]); assert t[3..][1..] == t[4..]; }
    var e2 := Expand(t[2..]);
    assert e2 == Repeat(HexClass, 4) + e3 by { ExpandFirst(t[2..]); assert t[2..][1..] == t[3..]; }
    var e1 := Expand(t[1..]);
    assert e1 == hyphen + e2 by { ExpandFirst(t[1..]); assert t[1..][1..] == t[2..]; }
    assert Expand(t) == Repeat(HexClass, 8) + e1 by { ExpandFirst(t); }
  }

  /** Under ignore-case the hex class accepts exactly the hexadecimal digits of either case. */
  lemma HexClassMatches(c: char)
    ensures AtomMatches(HexClass, c, true) <==> IsHexDigit(c)
  {
    var rs := HexClass.ranges;
    if IsHexDigit(c) {
      if '0' <= c <= '9' { assert rs[0].lo <= c <= rs[0].hi; }
      else if 'a' <= c <= 'f' { assert rs[1].lo <= c <= rs[1].hi; }
      else { assert rs[1].lo <= LowerAscii(c) <= rs[1].hi; }
    }
  }

  /** Under ignore-case the variant class accepts exactly 8, 9, a, b, A, B. */
  lemma VariantClassMatches(c: char)
    ensures AtomMatches(VariantClass, c, true) <==> IsVariantDigit(c)
  {
    var rs := VariantClass.ranges;
    if c == '8' { assert InRanges(c, rs) by { assert rs[0].lo <= c <= rs[0].hi; } }
    else if c == '9' { assert InRanges(c, rs) by { assert rs[1].lo <= c <= rs[1].hi; } }
    else if c == 'a' { assert InRanges(c, rs) by { assert rs[2].lo <= c <= rs[2].hi; } }
    else if c == 'b' { assert InRanges(c, rs) by { assert rs[3].lo <= c <= rs[3].hi; } }
    else if c == 'A' { assert InRanges(LowerAscii(c), rs) by { assert rs[2].lo <= LowerAscii(c) <= rs[2].hi; } }
    else if c == 'B' { assert InRanges(LowerAscii(c), rs) by { assert rs[3].lo <= LowerAscii(c) <= rs[3].hi; } }
  }

  /** Atom `i` of the pattern accepts exactly the characters allowed at index `i`. */
  lemma PatternAtomAt(i: nat, c: char)
    requires i < UuidLength
    ensures |UuidV4Pattern()| == UuidLength
    ensures AtomMatches(UuidV4Pattern()[i], c, true) <==> AllowedAt(i, c)
  {
    UuidV4PatternShape();
    var p := UuidV4Pattern();
    if IsHyphenIndex(i) {
      assert p[i] == Literal('-');
    } else if i == VersionIndex {
      assert p[i] == Literal('4');
    } else if i == VariantIndex {
      assert p[i] == VariantClass;
      VariantClassMatches(c);
    } else {
      assert p[i] == HexClass;
      HexClassMatches(c);
    }
  }

  /** The regular expression accepts exactly the strings of the positional form. */
  lemma RegexTestIsPositional(s: string)
    ensures RegexTest(s) <==> IsUuidV4Text(s)
  {
    var p := UuidV4Pattern();
    MatchesAnchoredPointwise(s, p, true);
    PatternAtomAt(0, 'x');
    if |s| == UuidLength {
      forall i | 0 <= i < |s|
        ensures AtomMatches(p[i], s[i], true) <==> AllowedAt(i, s[i])
      {
        PatternAtomAt(i, s[i]);
      }
    }
  }

  /**
   * Completeness, constructively: five hexadecimal groups of 8, 4, 4, 4 and
   * 12 digits, joined by hyphens, with 4 as the first digit of the third
   * group and a variant digit first in the fourth, form an accepted string.
   */
  lemma FromGroups(g1: string, g2: string, g3: string, g4: string, g5: string)
    requires |g1| == 8 && |g2| == 4 && |g3| == 4 && |g4| == 4 && |g5| == 12
    requires IsHexGroup(g1) && IsHexGroup(g2) && IsHexGroup(g5)
    requires g3[0] == '4' && IsHexGroup(g3[1..])
    requires IsVariantDigit(g4[0]) && IsHexGroup(g4[1..])
    ensures IsUuid(Str(g1 + "-" + g2 + "-" + g3 + "-" + g4 + "-" + g5))
  {
    var s := g1 + "-" + g2 + "-" + g3 + "-" + g4 + "-" + g5;
    forall i | 0 <= i < |s|
      ensures AllowedAt(i, s[i])
    {
      if i < 8 {
        assert s[i] == g1[i] && g1[i] in g1;
      } else if 8 < i < 13 {
        assert s[i] == g2[i - 9] && g2[i - 9] in g2;
      } else if i == 14 {
        assert s[i] == g3[0];
      } else if 14 < i < 18 {
        assert s[i] == g3[1..][i - 15] && g3[1..][i - 15] in g3[1..];
      } else if i == 19 {
        assert s[i] == g4[0];
      } else if 19 < i < 23 {
        assert s[i] == g4[1..][i - 20] && g4[1..][i - 20] in g4[1..];
      } else if i > 23 {
        assert s[i] == g5[i - 24] && g5[i - 24] in g5;
      }
    }
  }

  /** Every accepted value is a string of 36 characters with hyphens at 8, 13, 18 and 23. */
  lemma AcceptedLayout(value: JsValue)
    requires IsUuid(value)
    ensures value.Str? && |value.s| == 36
    ensures value.s[8] == '-' && value.s[13] == '-' && value.s[18] == '-' && value.s[23] == '-'
  {
    assert AllowedAt(8, value.s[8]) && AllowedAt(13, value.s[13]);
    assert AllowedAt(18, value.s[18]) && AllowedAt(23, value.s[23]);
  }

  /** Every accepted string carries version 4 and the RFC variant. */
  lemma AcceptedVersionAndVariant(value: JsValue)
    requires IsUuid(value)
    ensures value.Str? && |value.s| == 36
    ensures value.s[14] == '4'
    ensures value.s[19] in {'8', '9', 'a', 'b', 'A', 'B'}
  {
    assert AllowedAt(14, value.s[14]) && AllowedAt(19, value.s[19]);
  }

  /** undefined, null and every value that is not a string are rejected. */
  lemma RejectsNonStrings(value: JsValue)
    requires !value.Str?
    ensures !IsUuid(value)
  {
  }

  /** The ignore-case flag: a pattern's match depends only on the case-folded characters. */
  lemma {:induction false} MatchesIgnoringCase(s: string, t: string, pattern: seq<Atom>)
    requires |s| == |t|
    requires forall i :: 0 <= i < |s| ==> SameIgnoringCase(s[i], t[i])
    ensures MatchesAnchored(s, pattern, true) == MatchesAnchored(t, pattern, true)
  {
    if pattern != [] && s != [] {
      AtomMatchesIgnoringCase(pattern[0], s[0], t[0]);
      assert forall i :: 0 <= i < |s| - 1 ==> s[1..][i] == s[i + 1] && t[1..][i] == t[i + 1];
      MatchesIgnoringCase(s[1..], t[1..], pattern[1..]);
    }
  }

  lemma AtomMatchesIgnoringCase(a: Atom, c: char, d: char)
    requires SameIgnoringCase(c, d)
    ensures AtomMatches(a, c, true) == AtomMatches(a, d, true)
  {
    if a.Class? {
      assert LowerAscii(c) == LowerAscii(d) || c == d;
    }
  }

  /** Acceptance is case-insensitive: strings equal up to letter case are accepted together. */
  lemma IsUuidIgnoresCase(s: string, t: string)
    requires |s| == |t|
    requires forall i :: 0 <= i < |s| ==> SameIgnoringCase(s[i], t[i])
    ensures IsUuid(Str(s)) == IsUuid(Str(t))
  {
    RegexTestIsPositional(s);
    RegexTestIsPositional(t);
    MatchesIgnoringCase(s, t, UuidV4Pattern());
  }

  /** Changing the case of the character at one index does not change acceptance. */
  lemma ChangingOneLetterCase(s: string, i: nat)
    requires i < |s|
    ensures IsUuid(Str(s[i := UpperAscii(s[i])])) == IsUuid(Str(s))
    ensures IsUuid(Str(s[i := LowerAscii(s[i])])) == IsUuid(Str(s))
  {
    IsUuidIgnoresCase(s[i := UpperAscii(s[i])], s);
    IsUuidIgnoresCase(s[i := LowerAscii(s[i])], s);
  }
}
