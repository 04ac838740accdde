/** The e-mail filter of the user list: escaping a search text into a LIKE pattern. */
module Like {
  import opened Entities

  /** A LIKE pattern matched with backslash as the escape character (section 9.7.1 of the
      PostgreSQL documentation); None when the match runs into an escape at the very end. */
  ghost function Match(pattern: string, s: string): Option<bool>
    decreases |pattern| + |s|
  {
    if pattern == "" then Some(s == "")
    else if pattern[0] == '%' then
      var skip := Match(pattern[1..], s);
      if skip == Some(false) && s != "" then Match(pattern, s[1..]) else skip
    else if pattern[0] == '_' then
      if s == "" then Some(false) else Match(pattern[1..], s[1..])
    else if pattern[0] == '\\' then
      if |pattern| == 1 then None
      else if s == "" || s[0] != pattern[1] then Some(false)
      else Match(pattern[2..], s[1..])
    else if s == "" || s[0] != pattern[0] then Some(false)
    else Match(pattern[1..], s[1..])
  }

  predicate Special(c: char) { c == '\\' || c == '%' || c == '_' }

  function Escape(value: string): string {
    if value == "" then ""
    else (if Special(value[0]) then ['\\', value[0]] else [value[0]]) + Escape(value[1..])
  }

  /** The pattern ListUsers builds. */
  function Contains(value: string): string { "%" + Escape(value) + "%" }

  /** `v` stands in `s` at position `i`. */
  ghost predicate At(v: string, s: string, i: int) {
    0 <= i <= |s| - |v| && s[i..i + |v|] == v
  }

  ghost predicate Substring(v: string, s: string) {
    exists i :: At(v, s, i)
  }

  lemma AnySuffixMatches(s: string)
    ensures Match("%", s) == Some(true)
  {
    assert "%"[1..] == "";
  }

  /** An escaped text followed by `%` matches exactly the strings it begins. */
  lemma {:induction false} EscapedPrefix(v: string, s: string)
    ensures Match(Escape(v) + "%", s) == Some(v <= s)
  {
    var p := Escape(v) + "%";
    if v == "" {
      assert p == "%";
      AnySuffixMatches(s);
    } else {
      var rest := Escape(v[1..]) + "%";
      if Special(v[0]) {
        assert p == ['\\', v[0]] + rest && p[2..] == rest;
      } else {
        assert p == [v[0]] + rest && p[1..] == rest;
      }
      if s != "" {
        EscapedPrefix(v[1..], s[1..]);
        assert v <= s <==> v[0] == s[0] && v[1..] <= s[1..];
      }
    }
  }

  lemma SubstringTail(v: string, s: string)
    requires s != "" && !(v <= s)
    ensures Substring(v, s) <==> Substring(v, s[1..])
  {
    var t := s[1..];
    if Substring(v, s) {
      var i :| At(v, s, i);
      assert t[i - 1..i - 1 + |v|] == v;
      assert At(v, t, i - 1);
    }
    if Substring(v, t) {
      var i :| At(v, t, i);
      assert s[i + 1..i + 1 + |v|] == v;
      assert At(v, s, i + 1);
    }
  }

  /** The filter finds exactly the strings that contain the search text, wildcard characters
      and backslashes included, and its pattern is never malformed. */
  lemma {:induction false} ContainsMatchesSubstring(v: string, s: string)
    ensures Match(Contains(v), s) == Some(Substring(v, s))
    decreases |s|
  {
    var p := Contains(v);
    assert p[1..] == Escape(v) + "%";
    EscapedPrefix(v, s);
    if v <= s {
      assert At(v, s, 0);
    } else if s == "" {
      assert !Substring(v, s);
    } else {
      ContainsMatchesSubstring(v, s[1..]);
      SubstringTail(v, s);
    }
  }

  /** Without the escaping a wildcard in the search text would match other strings. */
  lemma EscapingMatters()
    ensures Match("%" + "_" + "%", "a") == Some(true) && Match(Contains("_"), "a") == Some(false)
  {
    var p := "%" + "_" + "%";
    assert p[1..] == "_%" && "_%"[1..] == "%" && "a"[1..] == "";
    AnySuffixMatches("");
    ContainsMatchesSubstring("_", "a");
    assert Match("_%", "a") == Match("%", "");
  }
}
