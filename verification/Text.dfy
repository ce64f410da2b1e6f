/**
  What the normalization of emails and the length of passwords amount to, written out character by character and byte
  by byte.
 */
module Text {
  import opened Users

  // ---- Emails up to case and surrounding space ----

  /** Space, tab, line feed, vertical tab, form feed, carriage return. */
  predicate White(c: char) {
    c as int in {9, 10, 11, 12, 13, 32}
  }

  predicate Blank(s: string) {
    forall i | 0 <= i < |s| :: White(s[i])
  }

  predicate Bare(s: string) {
    s == [] || (!White(s[0]) && !White(s[|s| - 1]))
  }

  predicate Capital(c: char) {
    65 <= c as int <= 90
  }

  predicate NoCapitals(s: string) {
    forall i | 0 <= i < |s| :: !Capital(s[i])
  }

  /** One letter in two cases, or the same character. */
  predicate SameLetter(c: char, d: char) {
    c == d || (Capital(c) && c as int + 32 == d as int) || (Capital(d) && d as int + 32 == c as int)
  }

  predicate SameLetters(s: string, t: string) {
    |s| == |t| && forall i | 0 <= i < |s| :: SameLetter(s[i], t[i])
  }

  /** m is e without the white space around it. */
  ghost predicate Core(e: string, l: string, m: string, r: string) {
    e == l + m + r && Blank(l) && Blank(r) && Bare(m)
  }

  ghost predicate SameEmail(a: string, b: string) {
    exists l, m, r, l', m', r' :: Core(a, l, m, r) && Core(b, l', m', r') && SameLetters(m, m')
  }

  /** Capital letters become the letters 32 code points on, everything else stays. */
  lemma LowerExactly(s: string)
    ensures |Lower(s)| == |s| && NoCapitals(Lower(s))
    ensures forall i | 0 <= i < |s| :: Lower(s)[i] as int == s[i] as int + if Capital(s[i]) then 32 else 0
  {
  }

  lemma {:induction false} TrimLeftBlank(l: string, m: string)
    requires Blank(l) && Bare(m)
    ensures TrimLeft(l + m) == m
  {
    if l == [] {
      assert l + m == m;
    } else {
      assert (l + m)[1..] == l[1..] + m && IsSpace(l[0]);
      TrimLeftBlank(l[1..], m);
    }
  }

  lemma {:induction false} TrimRightBlank(m: string, r: string)
    requires Bare(m) && Blank(r)
    ensures TrimRight(m + r) == m
  {
    if r == [] {
      assert m + r == m;
    } else {
      assert (m + r)[..|m + r| - 1] == m + r[..|r| - 1] && IsSpace(r[|r| - 1]);
      TrimRightBlank(m, r[..|r| - 1]);
    }
  }

  lemma {:induction false} TrimLeftCore(s: string) returns (l: string, m: string)
    ensures s == l + m && Blank(l) && m == TrimLeft(s) && (m == [] || !White(m[0]))
  {
    if s != [] && IsSpace(s[0]) {
      l, m := TrimLeftCore(s[1..]);
      l := [s[0]] + l;
    } else {
      l, m := [], s;
    }
  }

  lemma {:induction false} TrimRightCore(s: string) returns (m: string, r: string)
    ensures s == m + r && Blank(r) && m == TrimRight(s) && (m == [] || !White(m[|m| - 1]))
  {
    if s != [] && IsSpace(s[|s| - 1]) {
      m, r := TrimRightCore(s[..|s| - 1]);
      r := r + [s[|s| - 1]];
    } else {
      m, r := s, [];
    }
  }

  /** However an email is written with white space around it, its normal form is the inner part in lower case. */
  lemma NormalizeExactly(e: string, l: string, m: string, r: string)
    requires Core(e, l, m, r)
    ensures Normalize(e) == Lower(m)
  {
    if m == [] {
      TrimLeftBlank(l + r, []);
      assert e == l + r + [];
    } else {
      assert e == l + (m + r);
      TrimLeftStops(l, m + r);
      TrimRightBlank(m, r);
    }
  }

  lemma {:induction false} TrimLeftStops(l: string, s: string)
    requires Blank(l) && s != [] && !White(s[0])
    ensures TrimLeft(l + s) == s
  {
    if l == [] {
      assert l + s == s;
    } else {
      assert (l + s)[1..] == l[1..] + s && IsSpace(l[0]);
      TrimLeftStops(l[1..], s);
    }
  }

  /** Every email has such an inner part, and a normal form has neither capitals nor white space around it. */
  lemma NormalForm(e: string) returns (l: string, m: string, r: string)
    ensures Core(e, l, m, r) && Normalize(e) == Lower(m)
    ensures NoCapitals(Normalize(e)) && Bare(Normalize(e))
  {
    var rest;
    l, rest := TrimLeftCore(e);
    m, r := TrimRightCore(rest);
    NormalizeExactly(e, l, m, r);
    LowerExactly(m);
  }

  lemma SameLower(s: string, t: string)
    ensures SameLetters(s, t) <==> Lower(s) == Lower(t)
  {
    LowerExactly(s);
    LowerExactly(t);
    if Lower(s) == Lower(t) {
      forall i | 0 <= i < |s| ensures SameLetter(s[i], t[i]) {
        assert Lower(s)[i] == Lower(t)[i];
      }
    }
  }

  /** Two emails have one normal form exactly when they differ in case and surrounding white space at most. */
  lemma SameEmailExactly(a: string, b: string)
    ensures SameEmail(a, b) <==> Normalize(a) == Normalize(b)
  {
    if SameEmail(a, b) {
      var l, m, r, l', m', r' :| Core(a, l, m, r) && Core(b, l', m', r') && SameLetters(m, m');
      NormalizeExactly(a, l, m, r);
      NormalizeExactly(b, l', m', r');
      SameLower(m, m');
    }
    if Normalize(a) == Normalize(b) {
      var l, m, r := NormalForm(a);
      var l', m', r' := NormalForm(b);
      SameLower(m, m');
    }
  }

  /** The lower-case check of the table refuses exactly the emails with a capital. */
  lemma LowerCheckExactly(e: string)
    ensures Lower(e) == e <==> NoCapitals(e)
  {
    LowerExactly(e);
  }

  // ---- Passwords as bytes ----

  /** The octets of a character in UTF-8: section 3 of RFC 3629. */
  function Octets(c: char): seq<int> {
    var n := c as int;
    if n <= 0x7F then [n]
    else if n <= 0x7FF then [0xC0 + n / 64, 0x80 + n % 64]
    else if n <= 0xFFFF then [0xE0 + n / 4096, 0x80 + n / 64 % 64, 0x80 + n % 64]
    else [0xF0 + n / 262144, 0x80 + n / 4096 % 64, 0x80 + n / 64 % 64, 0x80 + n % 64]
  }

  function Utf8(s: string): seq<int> {
    if s == [] then [] else Octets(s[0]) + Utf8(s[1..])
  }

  lemma {:induction false} ByteLengthExactly(s: string)
    ensures ByteLength(s) == |Utf8(s)|
  {
    if s != [] {
      ByteLengthExactly(s[1..]);
    }
  }
}
