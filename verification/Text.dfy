/** Character and string conventions shared by the models: blank space, trimming, the order of
    strings and decimal text. */
module Text {

  /** The blank characters of the Basic Latin and Latin-1 ranges that both trimming functions
      (`strings.TrimSpace` and `str.strip`) remove. */
  predicate IsSpace(c: char) {
    c == ' ' || '\t' <= c <= '\r' || c == '\U{0085}' || c == '\U{00A0}'
  }

  function TrimLeft(s: string): string {
    if s == "" then ""
    else if IsSpace(s[0]) then TrimLeft(s[1..])
    else s
  }

  function TrimRight(s: string): string {
    if s == "" then ""
    else if IsSpace(s[|s| - 1]) then TrimRight(s[..|s| - 1])
    else s
  }

  function Trim(s: string): string {
    TrimRight(TrimLeft(s))
  }

  ghost predicate Blank(s: string) {
    forall i | 0 <= i < |s| :: IsSpace(s[i])
  }

  lemma {:induction false} TrimLeftShape(s: string)
    ensures TrimLeft(s) == "" <==> Blank(s)
    ensures TrimLeft(s) != "" ==> !IsSpace(TrimLeft(s)[0])
    ensures s != "" && !IsSpace(s[0]) ==> TrimLeft(s) == s
  {
    if s != "" && IsSpace(s[0]) {
      TrimLeftShape(s[1..]);
      assert Blank(s) <==> Blank(s[1..]) by {
        assert forall i | 0 <= i < |s[1..]| :: s[1..][i] == s[i + 1];
        if Blank(s[1..]) {
          forall i | 0 <= i < |s| ensures IsSpace(s[i]) {
            if i > 0 { assert s[1..][i - 1] == s[i]; }
          }
        }
      }
    }
  }

  lemma {:induction false} TrimRightShape(s: string)
    ensures TrimRight(s) <= s
    ensures TrimRight(s) == "" <==> Blank(s)
    ensures TrimRight(s) != "" ==> !IsSpace(TrimRight(s)[|TrimRight(s)| - 1])
    ensures s != "" && !IsSpace(s[|s| - 1]) ==> TrimRight(s) == s
  {
    if s != "" && IsSpace(s[|s| - 1]) {
      TrimRightShape(s[..|s| - 1]);
      assert Blank(s) <==> Blank(s[..|s| - 1]);
    }
  }

  /** Trimming leaves no blank at either end, empties exactly the blank strings and changes
      nothing the second time. */
  lemma TrimShape(s: string)
    ensures Trim(s) == "" <==> Blank(s)
    ensures Trim(s) != "" ==> !IsSpace(Trim(s)[0]) && !IsSpace(Trim(s)[|Trim(s)| - 1])
    ensures Trim(Trim(s)) == Trim(s)
    ensures s != "" && !IsSpace(s[0]) ==> Trim(s) != ""
  {
    TrimLeftShape(s);
    var l := TrimLeft(s);
    TrimRightShape(l);
    if l != "" {
      assert !IsSpace(l[0]);
      assert !Blank(l);
    } else {
      assert Blank(l);
    }
    var t := Trim(s);
    TrimLeftShape(t);
    TrimRightShape(t);
  }

  /** Only blanks are taken away, and only from the two ends. */
  lemma {:induction false} TrimLeftTakes(s: string)
    ensures exists a :: Blank(a) && s == a + TrimLeft(s)
  {
    if s != "" && IsSpace(s[0]) {
      TrimLeftTakes(s[1..]);
      var a :| Blank(a) && s[1..] == a + TrimLeft(s[1..]);
      assert Blank([s[0]] + a) && s == ([s[0]] + a) + TrimLeft(s);
    } else {
      assert Blank("") && s == "" + TrimLeft(s);
    }
  }

  lemma {:induction false} TrimRightTakes(s: string)
    ensures exists b :: Blank(b) && s == TrimRight(s) + b
  {
    if s != "" && IsSpace(s[|s| - 1]) {
      var before, last := s[..|s| - 1], s[|s| - 1];
      TrimRightTakes(before);
      var b :| Blank(b) && before == TrimRight(before) + b;
      assert Blank(b + [last]) && s == TrimRight(s) + (b + [last]);
    } else {
      assert Blank("") && s == TrimRight(s) + "";
    }
  }

  lemma TrimTakesBlanks(s: string)
    ensures exists a, b :: Blank(a) && Blank(b) && s == a + Trim(s) + b
  {
    TrimLeftTakes(s);
    TrimRightTakes(TrimLeft(s));
    var a :| Blank(a) && s == a + TrimLeft(s);
    var b :| Blank(b) && TrimLeft(s) == Trim(s) + b;
    assert s == a + Trim(s) + b;
  }

  predicate NoBlankEnds(s: string) {
    s != "" ==> !IsSpace(s[0]) && !IsSpace(s[|s| - 1])
  }

  lemma {:induction false} TrimLeftSkips(a: string, s: string)
    requires Blank(a)
    ensures TrimLeft(a + s) == TrimLeft(s)
  {
    if a == "" {
      assert a + s == s;
    } else {
      assert (a + s)[1..] == a[1..] + s;
      TrimLeftSkips(a[1..], s);
    }
  }

  lemma {:induction false} TrimRightSkips(s: string, b: string)
    requires Blank(b)
    ensures TrimRight(s + b) == TrimRight(s)
  {
    if b == "" {
      assert s + b == s;
    } else {
      assert (s + b)[..|s + b| - 1] == s + b[..|b| - 1];
      TrimRightSkips(s, b[..|b| - 1]);
    }
  }

  /** What is left is what stands between blanks and has none at its own ends. */
  lemma TrimBetween(a: string, m: string, b: string)
    requires Blank(a) && NoBlankEnds(m) && Blank(b)
    ensures Trim(a + m + b) == m
  {
    assert a + m + b == a + (m + b);
    TrimLeftSkips(a, m + b);
    if m == "" {
      assert m + b == b;
      TrimLeftShape(b);
    } else {
      TrimLeftShape(m + b);
      TrimRightSkips(m, b);
      TrimRightShape(m);
    }
  }

  lemma TrimPlain(s: string)
    requires NoBlankEnds(s)
    ensures Trim(s) == s
  {
    TrimLeftShape(s);
    TrimRightShape(s);
  }

  lemma {:induction false} LowerPlain(s: string)
    requires forall i | 0 <= i < |s| :: !('A' <= s[i] <= 'Z')
    ensures Lower(s) == s
  {
    if s != "" {
      LowerPlain(s[1..]);
    }
  }

  function LowerChar(c: char): char {
    if 'A' <= c <= 'Z' then (c as int + 32) as char else c
  }

  /** Lower case of the Basic Latin letters. */
  function Lower(s: string): string {
    if s == "" then "" else [LowerChar(s[0])] + Lower(s[1..])
  }

  lemma {:induction false} LowerAt(s: string, i: nat)
    requires i < |s|
    ensures |Lower(s)| == |s| && Lower(s)[i] == LowerChar(s[i])
  {
    if i > 0 {
      LowerAt(s[1..], i - 1);
    } else if |s| > 1 {
      LowerAt(s[1..], 0);
    }
  }

  /** The order of `strings.Compare` and of Python strings: by character, a prefix first. */
  predicate Le(a: string, b: string) {
    a == "" || (b != "" && (a[0] < b[0] || (a[0] == b[0] && Le(a[1..], b[1..]))))
  }

  /** A proper prefix comes first. */
  lemma {:induction false} PrefixFirst(s: string, t: string)
    requires s < t
    ensures Le(s, t) && !Le(t, s)
  {
    if s != "" {
      assert s[0] == t[0] && s[1..] < t[1..];
      PrefixFirst(s[1..], t[1..]);
    }
  }

  /** Otherwise the first different character decides. */
  lemma {:induction false} FirstDifference(p: string, c: char, d: char, x: string, y: string)
    requires c < d
    ensures Le(p + [c] + x, p + [d] + y) && !Le(p + [d] + y, p + [c] + x)
  {
    var s, t := p + [c] + x, p + [d] + y;
    if p == "" {
      assert s[0] == c && t[0] == d;
    } else {
      FirstDifference(p[1..], c, d, x, y);
      assert s[0] == p[0] == t[0];
      assert s[1..] == p[1..] + [c] + x && t[1..] == p[1..] + [d] + y;
    }
  }

  lemma LeTotal(a: string, b: string)
    ensures Le(a, b) || Le(b, a)
  {
  }

  lemma {:induction false} LeAntisymmetric(a: string, b: string)
    requires Le(a, b) && Le(b, a)
    ensures a == b
  {
    if a != "" && b != "" {
      LeAntisymmetric(a[1..], b[1..]);
      assert a == [a[0]] + a[1..] && b == [b[0]] + b[1..];
    }
  }

  lemma {:induction false} LeTransitive(a: string, b: string, c: string)
    requires Le(a, b) && Le(b, c)
    ensures Le(a, c)
  {
    if a != "" && b != "" && c != "" && a[0] == b[0] && b[0] == c[0] {
      LeTransitive(a[1..], b[1..], c[1..]);
    }
  }

  lemma LeOrder()
    ensures forall a, b :: Le(a, b) || Le(b, a)
    ensures forall a, b :: Le(a, b) && Le(b, a) ==> a == b
    ensures forall a, b, c :: Le(a, b) && Le(b, c) ==> Le(a, c)
  {
    forall a, b ensures Le(a, b) || Le(b, a) { LeTotal(a, b); }
    forall a, b | Le(a, b) && Le(b, a) ensures a == b { LeAntisymmetric(a, b); }
    forall a, b, c | Le(a, b) && Le(b, c) ensures Le(a, c) { LeTransitive(a, b, c); }
  }

  function Digit(d: nat): char
    requires d < 10
  {
    ('0' as int + d) as char
  }

  /** Decimal text of a natural number, without leading zeros. */
  function NatText(n: nat): (s: string)
    ensures s != "" && forall i | 0 <= i < |s| :: '0' <= s[i] <= '9'
  {
    if n < 10 then [Digit(n)] else NatText(n / 10) + [Digit(n % 10)]
  }

  /** The number that decimal digits denote. */
  function Decimal(s: string): nat
    requires forall i | 0 <= i < |s| :: '0' <= s[i] <= '9'
  {
    if s == "" then 0 else 10 * Decimal(s[..|s| - 1]) + (s[|s| - 1] as int - '0' as int)
  }

  /** The text denotes the number, and only the number zero begins with a zero. */
  lemma {:induction false} NatTextDenotes(n: nat)
    ensures Decimal(NatText(n)) == n && (NatText(n)[0] == '0' ==> n == 0)
  {
    var s := NatText(n);
    if n >= 10 {
      NatTextDenotes(n / 10);
      assert s[..|s| - 1] == NatText(n / 10) && s[0] == NatText(n / 10)[0];
    } else {
      assert s[..0] == "" && Decimal("") == 0;
    }
  }

  lemma NatTextInjective(a: nat, b: nat)
    ensures NatText(a) == NatText(b) ==> a == b
  {
    NatTextDenotes(a);
    NatTextDenotes(b);
  }

  function IntText(n: int): string {
    if n < 0 then "-" + NatText(-n) else NatText(n)
  }
}
