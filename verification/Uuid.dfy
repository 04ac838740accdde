/** How the database reads a UUID (section 8.12 of the PostgreSQL documentation): hexadecimal
    digits of either case, a hyphen or none after each group of four, and braces around the
    whole or none.  It prints one spelling only. */
module Uuid {
  import opened Entities
  import opened Text

  predicate IsHex(c: char) { '0' <= c <= '9' || 'a' <= c <= 'f' || 'A' <= c <= 'F' }

  /** Bytes `i` to 15: their digits in lower case, and what follows them. */
  function ReadBytes(s: string, i: nat): (r: Option<(string, string)>)
    requires i <= 16
    ensures r.Some? ==> |r.value.0| == 32 - 2 * i && forall k :: 0 <= k < |r.value.0| ==> HexLower(r.value.0[k])
    decreases 16 - i
  {
    if i == 16 then Some(("", s))
    else if |s| < 2 || !IsHex(s[0]) || !IsHex(s[1]) then None
    else
      match ReadBytes(AfterByte(s[2..], i), i + 1)
      case None => None
      case Some((digits, rest)) => Some(([LowerChar(s[0]), LowerChar(s[1])] + digits, rest))
  }

  /** A hyphen may follow every second byte but the last. */
  function AfterByte(s: string, i: nat): string {
    if i % 2 == 1 && i < 15 && s != "" && s[0] == '-' then s[1..] else s
  }

  function ReadUuid(s: string): (digits: Option<string>)
    ensures digits.Some? ==> |digits.value| == 32 && forall k :: 0 <= k < 32 ==> HexLower(digits.value[k])
  {
    var braced := s != "" && s[0] == '{';
    match ReadBytes(if braced then s[1..] else s, 0)
    case None => None
    case Some((digits, rest)) => if rest == (if braced then "}" else "") then Some(digits) else None
  }

  /** The place of digit `k` in a printed UUID, whose groups are 8, 4, 4, 4 and 12 digits. */
  function Place(k: nat): nat {
    k + (if k < 8 then 0 else if k < 12 then 1 else if k < 16 then 2 else if k < 20 then 3 else 4)
  }

  /** How many hyphens stand before place `i`. */
  function Before(i: nat): nat {
    if i <= 8 then 0 else if i <= 13 then 1 else if i <= 18 then 2 else if i <= 23 then 3 else 4
  }

  predicate HyphenAt(i: nat) { i == 8 || i == 13 || i == 18 || i == 23 }

  function PrintUuid(d: string): (s: string)
    requires |d| == 32
  {
    seq(36, i requires 0 <= i < 36 => if HyphenAt(i) then '-' else d[i - Before(i)])
  }

  predicate IsUuid(s: string) { ReadUuid(s).Some? }

  /** The spelling under which the database prints what it reads from `s`. */
  function NormalUuid(s: string): string {
    if IsUuid(s) then PrintUuid(ReadUuid(s).value) else s
  }

  /** The digits of a printed UUID. */
  function Digits(u: string): (d: string)
    requires |u| == 36
    ensures |d| == 32 && forall k :: 0 <= k < 32 ==> d[k] == u[Place(k)]
  {
    seq(32, k requires 0 <= k < 32 => u[Place(k)])
  }

  // ---------------------------------------------------------------- one spelling is printed

  lemma PrintsCanonical(s: string)
    requires IsUuid(s)
    ensures CanonicalUuid(NormalUuid(s))
  {
    hide ReadUuid;
  }

  lemma PrintsDigits(u: string)
    requires CanonicalUuid(u)
    ensures PrintUuid(Digits(u)) == u && forall k :: 0 <= k < 32 ==> HexLower(Digits(u)[k])
  {
    var p := PrintUuid(Digits(u));
    forall i | 0 <= i < 36 ensures p[i] == u[i] {
      if !HyphenAt(i) { assert Place(i - Before(i)) == i; }
    }
  }

  lemma ReadStep(s: string, i: nat, digits: string, rest: string)
    requires i < 16 && |s| >= 2 && IsHex(s[0]) && IsHex(s[1]) && ReadBytes(AfterByte(s[2..], i), i + 1) == Some((digits, rest))
    ensures ReadBytes(s, i) == Some(([LowerChar(s[0]), LowerChar(s[1])] + digits, rest))
  {
  }

  /** Where byte `i` of a printed UUID starts; byte 16 is what follows it. */
  function Start(i: nat): (p: nat)
    requires i <= 16
    ensures p <= 36
  {
    if i == 16 then 36 else Place(2 * i)
  }

  lemma StartEnd()
    ensures Start(0) == 0 && Start(16) == 36
  {
  }

  lemma ByteDigits(u: string, t: string, i: nat)
    requires CanonicalUuid(u) && i < 16 && u <= t
    ensures var s := t[Start(i)..];
      |s| >= 2 && IsHex(s[0]) && IsHex(s[1]) && LowerChar(s[0]) == Digits(u)[2 * i] && LowerChar(s[1]) == Digits(u)[2 * i + 1]
  {
    hide CanonicalUuid;
    PrintsDigits(u);
    var s := t[Start(i)..];
    assert Place(2 * i + 1) == Place(2 * i) + 1;
    assert s[0] == u[Place(2 * i)] && s[1] == u[Place(2 * i + 1)];
    assert HexLower(Digits(u)[2 * i]) && HexLower(Digits(u)[2 * i + 1]);
  }

  lemma ByteAfter(u: string, t: string, i: nat)
    requires CanonicalUuid(u) && i < 16 && u <= t
    ensures |t[Start(i)..]| >= 2 && AfterByte(t[Start(i)..][2..], i) == t[Start(i + 1)..]
  {
    var p := Start(i) + 2;
    assert t[Start(i)..][2..] == t[p..];
    if i < 15 {
      assert t[p..][0] == u[p] && t[p..][1..] == t[p + 1..];
      assert (i == 3 || i == 5 || i == 7 || i == 9) <==> HyphenAt(p);
      assert !HyphenAt(p) ==> HexLower(u[p]);
    }
  }

  lemma ReadBack(s: string, i: nat, digits: string, rest: string)
    requires i < 16 && ReadBytes(s, i) == Some((digits, rest))
    ensures |s| >= 2 && IsHex(s[0]) && IsHex(s[1]) && |digits| >= 2 && digits == [LowerChar(s[0]), LowerChar(s[1])] + digits[2..]
    ensures ReadBytes(AfterByte(s[2..], i), i + 1) == Some((digits[2..], rest))
  {
    var r := ReadBytes(AfterByte(s[2..], i), i + 1).value;
    assert digits == [LowerChar(s[0]), LowerChar(s[1])] + r.0;
  }

  lemma ReadNothing(s: string)
    ensures ReadBytes(s, 16) == Some(("", s))
  {
  }

  lemma CanonicalStep(u: string, t: string, i: nat)
    requires CanonicalUuid(u) && i < 16 && u <= t
    requires ReadBytes(t[Start(i + 1)..], i + 1) == Some((Digits(u)[2 * (i + 1)..], t[36..]))
    ensures ReadBytes(t[Start(i)..], i) == Some((Digits(u)[2 * i..], t[36..]))
  {
    var d := Digits(u);
    hide *;
    ByteDigits(u, t, i);
    ByteAfter(u, t, i);
    ByteThen(t[Start(i)..], d, i, t[36..]);
  }

  lemma ByteThen(s: string, d: string, i: nat, rest: string)
    requires |d| == 32 && i < 16 && |s| >= 2 && IsHex(s[0]) && IsHex(s[1]) && LowerChar(s[0]) == d[2 * i] && LowerChar(s[1]) == d[2 * i + 1]
    requires ReadBytes(AfterByte(s[2..], i), i + 1) == Some((d[2 * (i + 1)..], rest))
    ensures ReadBytes(s, i) == Some((d[2 * i..], rest))
  {
    hide *;
    ReadStep(s, i, d[2 * (i + 1)..], rest);
    assert d[2 * i..] == [d[2 * i], d[2 * i + 1]] + d[2 * (i + 1)..];
  }

  lemma {:induction false} ReadsCanonical(u: string, t: string, i: nat)
    requires CanonicalUuid(u) && i <= 16 && u <= t
    ensures ReadBytes(t[Start(i)..], i) == Some((Digits(u)[2 * i..], t[36..]))
    decreases 16 - i
  {
    assert |u| == 36;
    hide *;
    if i < 16 {
      ReadsCanonical(u, t, i + 1);
      CanonicalStep(u, t, i);
    } else {
      ReadNothing(t[36..]);
      assert Digits(u)[32..] == "";
      StartEnd();
    }
  }

  /** Printed and read again it is the same, also in braces. */
  lemma CanonicalIsNormal(u: string)
    requires CanonicalUuid(u)
    ensures IsUuid(u) && NormalUuid(u) == u && NormalUuid("{" + u + "}") == u
  {
    hide ReadBytes, PrintUuid;
    ReadsCanonical(u, u, 0);
    ReadsCanonical(u, u + "}", 0);
    PrintsDigits(u);
    assert u[0..] == u && u[36..] == "";
    assert ("{" + u + "}")[1..] == u + "}" == (u + "}")[0..] && (u + "}")[36..] == "}";
    assert HexLower(u[0]);
    assert Digits(u)[0..] == Digits(u);
  }

  lemma PlainAfter(d: string, i: nat)
    requires |d| == 32 && (forall k :: 0 <= k < 32 ==> HexLower(d[k])) && i < 16
    ensures var s := d[2 * i..];
      && IsHex(s[0]) && IsHex(s[1]) && LowerChar(s[0]) == s[0] && LowerChar(s[1]) == s[1]
      && AfterByte(s[2..], i) == d[2 * (i + 1)..]
  {
    var s := d[2 * i..];
    assert HexLower(d[2 * i]) && HexLower(d[2 * i + 1]);
    assert s[2..] == d[2 * (i + 1)..];
    if i < 15 { assert HexLower(d[2 * (i + 1)]); }
  }

  lemma {:induction false} ReadsPlain(d: string, i: nat)
    requires |d| == 32 && (forall k :: 0 <= k < 32 ==> HexLower(d[k])) && i <= 16
    ensures ReadBytes(d[2 * i..], i) == Some((d[2 * i..], ""))
    decreases 16 - i
  {
    hide *;
    if i < 16 {
      ReadsPlain(d, i + 1);
      PlainAfter(d, i);
      ByteThen(d[2 * i..], d, i, "");
    } else {
      ReadNothing(d[32..]);
    }
  }

  lemma {:induction false} ReadsUpper(s: string, i: nat, digits: string, rest: string)
    requires i <= 16 && ReadBytes(s, i) == Some((digits, rest))
    ensures ReadBytes(ToUpper(s), i) == Some((digits, ToUpper(rest)))
    decreases 16 - i
  {
    if i < 16 {
      hide *;
      ReadBack(s, i, digits, rest);
      ReadsUpper(AfterByte(s[2..], i), i + 1, digits[2..], rest);
      UpperAfter(s, i);
      ReadStep(ToUpper(s), i, digits[2..], ToUpper(rest));
    }
  }

  lemma UpperAfter(s: string, i: nat)
    requires |s| >= 2 && IsHex(s[0]) && IsHex(s[1])
    ensures var t := ToUpper(s);
      IsHex(t[0]) && IsHex(t[1]) && LowerChar(t[0]) == LowerChar(s[0]) && LowerChar(t[1]) == LowerChar(s[1])
    ensures AfterByte(ToUpper(s)[2..], i) == ToUpper(AfterByte(s[2..], i))
  {
    assert ToUpper(s)[2..] == ToUpper(s[2..]);
    if s[2..] != "" { assert ToUpper(s[2..])[1..] == ToUpper(s[2..][1..]); }
  }

  /** Without hyphens, in braces and in upper case a UUID is the same to the database. */
  lemma OtherSpellings(u: string)
    requires CanonicalUuid(u)
    ensures NormalUuid(Digits(u)) == u && NormalUuid("{" + u + "}") == u && NormalUuid(ToUpper(u)) == u
  {
    hide ReadBytes, PrintUuid;
    CanonicalIsNormal(u);
    PrintsDigits(u);
    var d := Digits(u);
    ReadsPlain(d, 0);
    assert d[0..] == d && HexLower(d[0]);
    ReadsCanonical(u, u, 0);
    assert u[0..] == u && u[36..] == "";
    ReadsUpper(u, 0, d, "");
    assert HexLower(u[0]) && ToUpper("") == "";
  }

  // ---------------------------------------------------------------- exactly these spellings

  /** Bytes `i` to 15 written out: two digits each, and after every second byte but the last a
      hyphen where `hyphens` says so. */
  function Spell(digits: string, hyphens: seq<bool>, i: nat): string
    requires i <= 16 && |digits| == 32 - 2 * i && |hyphens| == 16 - i
    decreases 16 - i
  {
    if i == 16 then ""
    else digits[..2] + (if i % 2 == 1 && i < 15 && hyphens[0] then "-" else "") + Spell(digits[2..], hyphens[1..], i + 1)
  }

  predicate AllHex(s: string) { forall k :: 0 <= k < |s| ==> IsHex(s[k]) }

  /** `s` is a spelling of these digits, braced or not. */
  predicate Spells(s: string, digits: string, hyphens: seq<bool>, braced: bool) {
    && |digits| == 32 && |hyphens| == 16 && AllHex(digits)
    && s == if braced then "{" + Spell(digits, hyphens, 0) + "}" else Spell(digits, hyphens, 0)
  }

  lemma SpellUnfolds(digits: string, hyphens: seq<bool>, i: nat)
    requires i < 16 && |digits| == 32 - 2 * i && |hyphens| == 16 - i
    ensures Spell(digits, hyphens, i) ==
      [digits[0], digits[1]] + (if i % 2 == 1 && i < 15 && hyphens[0] then "-" else "") + Spell(digits[2..], hyphens[1..], i + 1)
  {
    assert digits[..2] == [digits[0], digits[1]];
  }

  lemma SpellEnds(digits: string, hyphens: seq<bool>)
    requires |digits| == 0 && |hyphens| == 0
    ensures Spell(digits, hyphens, 16) == ""
  {
  }

  /** What does not begin with a hyphen is left alone. */
  lemma AfterMark(mark: bool, s: string, i: nat)
    requires (mark ==> i % 2 == 1 && i < 15) && (i < 15 ==> s != "" && s[0] != '-')
    ensures AfterByte((if mark then "-" else "") + s, i) == s
  {
  }

  lemma SpellStarts(digits: string, hyphens: seq<bool>, i: nat)
    requires i < 16 && |digits| == 32 - 2 * i && |hyphens| == 16 - i && AllHex(digits)
    ensures Spell(digits, hyphens, i) != "" && Spell(digits, hyphens, i)[0] != '-' && Spell(digits, hyphens, i)[0] != '{'
  {
    hide Spell;
    SpellUnfolds(digits, hyphens, i);
    assert IsHex(digits[0]);
  }

  lemma {:induction false} SpellReads(digits: string, hyphens: seq<bool>, tail: string, i: nat)
    requires i <= 16 && |digits| == 32 - 2 * i && |hyphens| == 16 - i && AllHex(digits)
    ensures ReadBytes(Spell(digits, hyphens, i) + tail, i) == Some((ToLower(digits), tail))
    decreases 16 - i
  {
    hide ReadBytes, AfterByte, Spell;
    if i == 16 {
      ReadNothing(tail);
      SpellEnds(digits, hyphens);
      assert "" + tail == tail && ToLower(digits) == "";
    } else {
      var rest := Spell(digits[2..], hyphens[1..], i + 1) + tail;
      SpellReads(digits[2..], hyphens[1..], tail, i + 1);
      if i < 15 { SpellStarts(digits[2..], hyphens[1..], i + 1); }
      SpelledByte(digits, hyphens, tail, i);
      assert ToLower(digits) == [LowerChar(digits[0]), LowerChar(digits[1])] + ToLower(digits[2..]);
    }
  }

  lemma SpelledByte(digits: string, hyphens: seq<bool>, tail: string, i: nat)
    requires i < 16 && |digits| == 32 - 2 * i && |hyphens| == 16 - i && AllHex(digits)
    requires var rest := Spell(digits[2..], hyphens[1..], i + 1) + tail;
      ReadBytes(rest, i + 1) == Some((ToLower(digits[2..]), tail)) && (i < 15 ==> rest != "" && rest[0] != '-')
    ensures ReadBytes(Spell(digits, hyphens, i) + tail, i) == Some(([LowerChar(digits[0]), LowerChar(digits[1])] + ToLower(digits[2..]), tail))
  {
    hide ReadBytes, AfterByte, Spell, ToLower, LowerChar;
    var mark := i % 2 == 1 && i < 15 && hyphens[0];
    var rest := Spell(digits[2..], hyphens[1..], i + 1) + tail;
    SpellUnfolds(digits, hyphens, i);
    var s := Spell(digits, hyphens, i) + tail;
    assert s == [digits[0], digits[1]] + ((if mark then "-" else "") + rest);
    assert s[2..] == (if mark then "-" else "") + rest;
    AfterMark(mark, rest, i);
    ReadStep(s, i, ToLower(digits[2..]), tail);
  }

  lemma {:induction false} ReadSpells(s: string, i: nat, lower: string, rest: string) returns (digits: string, hyphens: seq<bool>)
    requires i <= 16 && ReadBytes(s, i) == Some((lower, rest))
    ensures |digits| == 32 - 2 * i && |hyphens| == 16 - i && AllHex(digits)
    ensures s == Spell(digits, hyphens, i) + rest
    decreases 16 - i
  {
    hide ReadBytes, AfterByte, Spell;
    if i == 16 {
      ReadNothing(s);
      digits, hyphens := "", [];
      SpellEnds(digits, hyphens);
    } else {
      ReadBack(s, i, lower, rest);
      var ds, hs := ReadSpells(AfterByte(s[2..], i), i + 1, lower[2..], rest);
      digits, hyphens := SpellsByte(s, i, ds, hs, rest);
    }
  }

  lemma SpellsByte(s: string, i: nat, ds: string, hs: seq<bool>, rest: string) returns (digits: string, hyphens: seq<bool>)
    requires i < 16 && |ds| == 30 - 2 * i && |hs| == 15 - i && AllHex(ds) && |s| >= 2 && IsHex(s[0]) && IsHex(s[1])
    requires AfterByte(s[2..], i) == Spell(ds, hs, i + 1) + rest
    ensures |digits| == 32 - 2 * i && |hyphens| == 16 - i && AllHex(digits) && s == Spell(digits, hyphens, i) + rest
  {
    hide Spell, IsHex;
    digits, hyphens := [s[0], s[1]] + ds, [AfterByte(s[2..], i) != s[2..]] + hs;
    SpellUnfolds(digits, hyphens, i);
    assert digits[2..] == ds && hyphens[1..] == hs;
    assert s == [s[0], s[1]] + s[2..];
  }

  lemma SpelledReads(s: string, digits: string, hyphens: seq<bool>, braced: bool)
    requires Spells(s, digits, hyphens, braced)
    ensures ReadUuid(s) == Some(ToLower(digits))
  {
    hide ReadBytes, Spell;
    var inner := Spell(digits, hyphens, 0);
    SpellStarts(digits, hyphens, 0);
    SpellReads(digits, hyphens, if braced then "}" else "", 0);
    assert inner + "" == inner && (braced ==> s[1..] == inner + "}");
  }

  lemma ReadIsSpelled(s: string) returns (digits: string, hyphens: seq<bool>, braced: bool)
    requires IsUuid(s)
    ensures Spells(s, digits, hyphens, braced)
  {
    hide ReadBytes, Spell;
    braced := s != "" && s[0] == '{';
    var inner := if braced then s[1..] else s;
    var r := ReadBytes(inner, 0).value;
    digits, hyphens := ReadSpells(inner, 0, r.0, r.1);
    assert braced ==> s == "{" + inner;
  }

  /** A string is a UUID to the database if and only if it spells 32 digits in this way; and then
      it stands for those digits. */
  lemma UuidIffSpelled(s: string)
    ensures IsUuid(s) <==> exists digits, hyphens, braced :: Spells(s, digits, hyphens, braced)
    ensures forall digits, hyphens, braced :: Spells(s, digits, hyphens, braced) ==> NormalUuid(s) == PrintUuid(ToLower(digits))
  {
    hide ReadUuid, PrintUuid, Spells;
    if IsUuid(s) { var digits, hyphens, braced := ReadIsSpelled(s); }
    forall digits, hyphens, braced | Spells(s, digits, hyphens, braced) ensures ReadUuid(s) == Some(ToLower(digits)) {
      SpelledReads(s, digits, hyphens, braced);
    }
  }

  /** The UUID whose digits are 0 up to a last one of `c`. */
  function Sample(c: char): (u: string)
    requires HexLower(c)
    ensures CanonicalUuid(u) && u[35] == c
  {
    seq(36, i requires 0 <= i < 36 => if HyphenAt(i) then '-' else if i == 35 then c else '0')
  }

  lemma CanonicalTrims(u: string)
    requires CanonicalUuid(u)
    ensures TrimSpace(u) == u != ""
  {
    assert HexLower(u[0]) && HexLower(u[35]);
  }
}
