/** The string helpers of the service, on ASCII letters and the white space of Latin-1. */
module Text {

  predicate IsSpace(c: char) {
    c == ' ' || '\t' <= c <= '\r' || c == '\U{85}' || c == '\U{A0}'
  }

  function TrimLeft(s: string): (r: string)
    ensures |r| <= |s| && (r != "" ==> !IsSpace(r[0]))
  {
    if s != "" && IsSpace(s[0]) then TrimLeft(s[1..]) else s
  }

  function TrimRight(s: string): (r: string)
    ensures r <= s && (r != "" ==> !IsSpace(r[|r| - 1]))
  {
    if s != "" && IsSpace(s[|s| - 1]) then TrimRight(s[..|s| - 1]) else s
  }

  function TrimSpace(s: string): (r: string)
    ensures r != "" ==> !IsSpace(r[0]) && !IsSpace(r[|r| - 1])
  {
    TrimRight(TrimLeft(s))
  }

  function UpperChar(c: char): char {
    if 'a' <= c <= 'z' then 'A' + (c - 'a') else c
  }

  function LowerChar(c: char): char {
    if 'A' <= c <= 'Z' then 'a' + (c - 'A') else c
  }

  function ToUpper(s: string): (r: string)
    ensures |r| == |s|
  {
    seq(|s|, i requires 0 <= i < |s| => UpperChar(s[i]))
  }

  function ToLower(s: string): (r: string)
    ensures |r| == |s|
  {
    seq(|s|, i requires 0 <= i < |s| => LowerChar(s[i]))
  }

  function NormalizeEmail(email: string): string { ToLower(TrimSpace(email)) }

  function NormalizeCaptcha(answer: string): string { ToUpper(TrimSpace(answer)) }

  /** The decimal digits of a number. */
  function Decimal(n: nat): string {
    (if n < 10 then "" else Decimal(n / 10)) + ["0123456789"[n % 10]]
  }

  predicate HexLower(c: char) { '0' <= c <= '9' || 'a' <= c <= 'f' }

  /** The strings that parse as a UUID and print back as themselves. */
  predicate CanonicalUuid(s: string) {
    && |s| == 36
    && forall i :: 0 <= i < 36 ==> if i == 8 || i == 13 || i == 18 || i == 23 then s[i] == '-' else HexLower(s[i])
  }

  // ---------------------------------------------------------------- what normalizing forgets

  predicate AllSpace(s: string) { forall i :: 0 <= i < |s| ==> IsSpace(s[i]) }

  /** The same text but for the case of letters. */
  predicate SameLetters(a: string, b: string) {
    |a| == |b| && forall i :: 0 <= i < |a| ==> LowerChar(a[i]) == LowerChar(b[i])
  }

  /** White space, a text, white space. */
  predicate Padded(s: string, p: string, core: string, q: string) {
    s == p + core + q && AllSpace(p) && AllSpace(q)
  }

  /** The same text but for outer white space and the case of letters. */
  ghost predicate Alike(a: string, b: string) {
    exists p, core, q, p', core', q' :: Padded(a, p, core, q) && Padded(b, p', core', q') && SameLetters(core, core')
  }

  lemma {:induction false} TrimLeftPad(p: string, s: string)
    requires AllSpace(p)
    ensures TrimLeft(p + s) == TrimLeft(s)
  {
    if p == "" {
      assert p + s == s;
    } else {
      TrimLeftPad(p[1..], s);
      assert (p + s)[1..] == p[1..] + s;
    }
  }

  lemma {:induction false} TrimRightPad(s: string, q: string)
    requires AllSpace(q)
    ensures TrimRight(s + q) == TrimRight(s)
  {
    if q == "" {
      assert s + q == s;
    } else {
      TrimRightPad(s, q[..|q| - 1]);
      assert (s + q)[..|s + q| - 1] == s + q[..|q| - 1];
    }
  }

  /** Trimming on the left looks no further than the first character it keeps. */
  lemma {:induction false} TrimLeftBefore(s: string, q: string)
    requires TrimLeft(s) != ""
    ensures TrimLeft(s + q) == TrimLeft(s) + q
  {
    if IsSpace(s[0]) {
      TrimLeftBefore(s[1..], q);
      assert (s + q)[1..] == s[1..] + q;
    }
  }

  lemma {:induction false} TrimLeftParts(s: string) returns (p: string)
    ensures s == p + TrimLeft(s) && AllSpace(p)
  {
    if s != "" && IsSpace(s[0]) {
      var rest := TrimLeftParts(s[1..]);
      p := [s[0]] + rest;
    } else {
      p := "";
    }
  }

  lemma {:induction false} TrimRightParts(s: string) returns (q: string)
    ensures s == TrimRight(s) + q && AllSpace(q)
  {
    if s != "" && IsSpace(s[|s| - 1]) {
      var rest := TrimRightParts(s[..|s| - 1]);
      q := rest + [s[|s| - 1]];
      assert s == s[..|s| - 1] + [s[|s| - 1]];
    } else {
      q := "";
    }
  }

  lemma TrimPads(s: string, p: string, core: string, q: string)
    requires Padded(s, p, core, q)
    ensures TrimSpace(s) == TrimSpace(core)
  {
    assert s == p + (core + q);
    TrimLeftPad(p, core + q);
    if TrimLeft(core) != "" {
      TrimLeftBefore(core, q);
      TrimRightPad(TrimLeft(core), q);
    } else {
      var blank := TrimLeftParts(core);
      TrimLeftPad(core + q, "");
      assert core + q + "" == core + q;
    }
  }

  lemma TrimParts(s: string) returns (p: string, q: string)
    ensures Padded(s, p, TrimSpace(s), q)
  {
    p := TrimLeftParts(s);
    q := TrimRightParts(TrimLeft(s));
    assert s == p + (TrimSpace(s) + q);
  }

  lemma {:induction false} TrimLeftLetters(a: string, b: string)
    requires SameLetters(a, b)
    ensures SameLetters(TrimLeft(a), TrimLeft(b))
  {
    if a != "" && IsSpace(a[0]) {
      assert LowerChar(a[0]) == LowerChar(b[0]);
      assert forall i :: 0 <= i < |a| - 1 ==> a[1..][i] == a[i + 1] && b[1..][i] == b[i + 1];
      TrimLeftLetters(a[1..], b[1..]);
    } else if a != "" {
      assert LowerChar(a[0]) == LowerChar(b[0]);
    }
  }

  lemma {:induction false} TrimRightLetters(a: string, b: string)
    requires SameLetters(a, b)
    ensures SameLetters(TrimRight(a), TrimRight(b))
  {
    if a != "" {
      var n := |a| - 1;
      assert LowerChar(a[n]) == LowerChar(b[n]);
      if IsSpace(a[n]) { TrimRightLetters(a[..n], b[..n]); }
    }
  }

  lemma TrimAlike(a: string, b: string)
    ensures Alike(a, b) <==> SameLetters(TrimSpace(a), TrimSpace(b))
  {
    if Alike(a, b) {
      var p, core, q, p', core', q' :| Padded(a, p, core, q) && Padded(b, p', core', q') && SameLetters(core, core');
      TrimPads(a, p, core, q);
      TrimPads(b, p', core', q');
      TrimLeftLetters(core, core');
      TrimRightLetters(TrimLeft(core), TrimLeft(core'));
    } else {
      var p, q := TrimParts(a);
      var p', q' := TrimParts(b);
    }
  }

  lemma SameLower(a: string, b: string)
    ensures ToLower(a) == ToLower(b) <==> SameLetters(a, b)
  {
    assert forall i :: 0 <= i < |a| ==> ToLower(a)[i] == LowerChar(a[i]);
    assert forall i :: 0 <= i < |b| ==> ToLower(b)[i] == LowerChar(b[i]);
    if SameLetters(a, b) {
      assert forall i :: 0 <= i < |a| ==> ToLower(a)[i] == ToLower(b)[i];
    } else if |a| == |b| {
      var i :| 0 <= i < |a| && LowerChar(a[i]) != LowerChar(b[i]);
      assert ToLower(a)[i] != ToLower(b)[i];
    }
  }

  lemma SameCase(c: char, d: char)
    ensures UpperChar(c) == UpperChar(d) <==> LowerChar(c) == LowerChar(d)
  {
  }

  lemma SameUpper(a: string, b: string)
    ensures ToUpper(a) == ToUpper(b) <==> SameLetters(a, b)
  {
    assert forall i :: 0 <= i < |a| ==> ToUpper(a)[i] == UpperChar(a[i]);
    assert forall i :: 0 <= i < |b| ==> ToUpper(b)[i] == UpperChar(b[i]);
    forall c, d ensures UpperChar(c) == UpperChar(d) <==> LowerChar(c) == LowerChar(d) { SameCase(c, d); }
    if SameLetters(a, b) {
      assert forall i :: 0 <= i < |a| ==> LowerChar(a[i]) == LowerChar(b[i]) && ToUpper(a)[i] == ToUpper(b)[i];
    } else if |a| == |b| {
      var i :| 0 <= i < |a| && LowerChar(a[i]) != LowerChar(b[i]);
      assert ToUpper(a)[i] != ToUpper(b)[i];
    }
  }

  /** Two e-mails, or two captcha answers, are one to the service if and only if they differ at
      most in outer white space and the case of letters. */
  lemma NormalizedAlike(a: string, b: string)
    ensures NormalizeEmail(a) == NormalizeEmail(b) <==> Alike(a, b)
    ensures NormalizeCaptcha(a) == NormalizeCaptcha(b) <==> Alike(a, b)
  {
    TrimAlike(a, b);
    SameLower(TrimSpace(a), TrimSpace(b));
    SameUpper(TrimSpace(a), TrimSpace(b));
  }

  /** Normalizing keeps the text, without outer white space, e-mails in lower and answers in
      upper case. */
  lemma NormalizedForm(s: string)
    ensures SameLetters(NormalizeEmail(s), TrimSpace(s)) && forall i :: 0 <= i < |NormalizeEmail(s)| ==> !('A' <= NormalizeEmail(s)[i] <= 'Z')
    ensures SameLetters(NormalizeCaptcha(s), TrimSpace(s)) && forall i :: 0 <= i < |NormalizeCaptcha(s)| ==> !('a' <= NormalizeCaptcha(s)[i] <= 'z')
  {
    var p, q := TrimParts(s);
    forall c: char ensures LowerChar(LowerChar(c)) == LowerChar(c) && LowerChar(UpperChar(c)) == LowerChar(c) { }
  }
}
