/** Decimal numerals, ASCII order, and the string methods the protocols parse and print with. */
module Text {

  // ── Numerals ────────────────────────────────────────────────────────────────────────────────────────────────

  predicate Digit(c: char) {
    '0' <= c <= '9'
  }

  predicate Numeral(s: string) {
    |s| > 0 && forall i :: 0 <= i < |s| ==> Digit(s[i])
  }

  function ToNat(s: string): nat
    requires forall i :: 0 <= i < |s| ==> Digit(s[i])
  {
    if s == "" then 0 else assert Digit(s[|s| - 1]); 10 * ToNat(s[..|s| - 1]) + (s[|s| - 1] as int - '0' as int)
  }

  /** str(n) */
  function Decimal(n: nat): (s: string)
    ensures Numeral(s) && ToNat(s) == n
  {
    var last := [('0' as int + n % 10) as char];
    if n < 10 then last
    else
      var front := Decimal(n / 10);
      assert (front + last)[..|front|] == front;
      front + last
  }

  /** How many leading characters are digits. */
  function DigitRun(s: string): (k: nat)
    ensures k <= |s|
    ensures forall i :: 0 <= i < k ==> Digit(s[i])
    ensures k < |s| ==> !Digit(s[k])
  {
    if s == "" || !Digit(s[0]) then 0 else 1 + DigitRun(s[1..])
  }

  // ── Order ───────────────────────────────────────────────────────────────────────────────────────────────────

  /** Code-point order. */
  predicate TextLess(a: string, b: string) {
    b != "" && (a == "" || a[0] < b[0] || (a[0] == b[0] && TextLess(a[1..], b[1..])))
  }

  lemma {:induction false} NothingPrecedesItself(w: string)
    ensures !TextLess(w, w)
  {
    if w != "" {
      NothingPrecedesItself(w[1..]);
    }
  }

  lemma {:induction false} TextOrderIsTotal(a: string, b: string)
    ensures a == b || TextLess(a, b) || TextLess(b, a)
  {
    if a != "" && b != "" && a[0] == b[0] {
      TextOrderIsTotal(a[1..], b[1..]);
      assert a == [a[0]] + a[1..] && b == [b[0]] + b[1..];
    }
  }

  lemma {:induction false} TextOrderIsTransitive(a: string, b: string, c: string)
    requires TextLess(a, b) && TextLess(b, c)
    ensures TextLess(a, c)
  {
    if a != "" && a[0] == b[0] == c[0] {
      TextOrderIsTransitive(a[1..], b[1..], c[1..]);
    }
  }

  lemma {:induction false} SamePrefixSameOrder(p: string, a: string, b: string)
    ensures TextLess(p + a, p + b) <==> TextLess(a, b)
  {
    if p == "" {
      assert p + a == a && p + b == b;
    } else {
      assert (p + a)[1..] == p[1..] + a && (p + b)[1..] == p[1..] + b;
      SamePrefixSameOrder(p[1..], a, b);
    }
  }

  // ── str.strip ───────────────────────────────────────────────────────────────────────────────────────────────

  predicate Blank(c: char) {
    c in " \t\n\U{0B}\U{0C}\r\U{1C}\U{1D}\U{1E}\U{1F}"
  }

  /** The ASCII white space of str.isspace. */
  lemma BlanksAreRanges(c: char)
    ensures Blank(c) <==> c == ' ' || '\t' <= c <= '\r' || '\U{1C}' <= c <= '\U{1F}'
  {
  }

  function StripLeft(s: string): string {
    if s != "" && Blank(s[0]) then StripLeft(s[1..]) else s
  }

  function StripRight(s: string): string {
    if s != "" && Blank(s[|s| - 1]) then StripRight(s[..|s| - 1]) else s
  }

  /** str.strip */
  function Strip(s: string): string {
    StripRight(StripLeft(s))
  }

  /** `t` is `s` without the blanks at its ends. */
  ghost predicate Trims(s: string, t: string) {
    && (exists a, b :: Around(s, a, t, b))
    && (t != "" ==> !Blank(t[0]) && !Blank(t[|t| - 1]))
  }

  predicate Around(s: string, a: string, t: string, b: string) {
    s == a + t + b && AllBlank(a) && AllBlank(b)
  }

  predicate AllBlank(s: string) {
    forall k :: 0 <= k < |s| ==> Blank(s[k])
  }

  lemma {:induction false} StripsWhatLeads(a: string, rest: string)
    requires AllBlank(a) && (rest != "" ==> !Blank(rest[0]))
    ensures StripLeft(a + rest) == rest
  {
    if a == "" {
      assert a + rest == rest;
    } else {
      assert (a + rest)[1..] == a[1..] + rest;
      StripsWhatLeads(a[1..], rest);
    }
  }

  lemma {:induction false} StripsWhatTrails(front: string, b: string)
    requires AllBlank(b) && (front != "" ==> !Blank(front[|front| - 1]))
    ensures StripRight(front + b) == front
  {
    if b == "" {
      assert front + b == front;
    } else {
      var s := front + b;
      assert s[..|s| - 1] == front + b[..|b| - 1];
      StripsWhatTrails(front, b[..|b| - 1]);
    }
  }

  lemma {:induction false} LeftPart(s: string) returns (a: string)
    ensures s == a + StripLeft(s) && AllBlank(a) && (StripLeft(s) != "" ==> !Blank(StripLeft(s)[0]))
  {
    a := "";
    if s != "" && Blank(s[0]) {
      a := LeftPart(s[1..]);
      assert s == [s[0]] + s[1..] && [s[0]] + (a + StripLeft(s)) == [s[0]] + a + StripLeft(s);
      a := [s[0]] + a;
    }
  }

  lemma {:induction false} RightPart(s: string) returns (b: string)
    ensures s == StripRight(s) + b && AllBlank(b)
    ensures StripRight(s) != "" ==> !Blank(StripRight(s)[|StripRight(s)| - 1])
  {
    b := "";
    if s != "" && Blank(s[|s| - 1]) {
      var k := |s| - 1;
      b := RightPart(s[..k]);
      assert s == s[..k] + [s[k]] && StripRight(s) + b + [s[k]] == StripRight(s) + (b + [s[k]]);
      b := b + [s[k]];
    }
  }

  lemma StripTrims(s: string)
    ensures Trims(s, Strip(s))
  {
    var l := StripLeft(s);
    var t := StripRight(l);
    var a := LeftPart(s);
    var b := RightPart(l);
    hide StripLeft, StripRight, Blank, AllBlank;
    assert a + (t + b) == a + t + b;
    assert Around(s, a, t, b);
    assert t != "" ==> t[0] == l[0];
  }

  /** str.strip takes the blanks at both ends, and nothing else. */
  lemma StripIsTheTrimmed(s: string, t: string)
    ensures Trims(s, t) <==> t == Strip(s)
  {
    StripTrims(s);
    if Trims(s, t) {
      var a, b :| Around(s, a, t, b);
      if t == "" {
        assert s == a + b && AllBlank(a + b) && (a + b) + "" == s;
        StripsWhatLeads(a + b, "");
      } else {
        assert s == a + (t + b) && (t + b)[0] == t[0];
        StripsWhatLeads(a, t + b);
        StripsWhatTrails(t, b);
      }
    }
  }
}
