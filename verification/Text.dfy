// The string operations of the Go standard library that the modelled code calls.
// A Go string is modelled as the sequence of its characters.
module Text {
  import opened Wrappers

  // ---------- strings.Split with a one-character separator, and strings.Join ----------

  function Split(s: string, sep: char): (parts: seq<string>)
    ensures |parts| >= 1
  {
    if s == [] then [[]]
    else
      var rest := Split(s[1..], sep);
      if s[0] == sep then [[]] + rest else [[s[0]] + rest[0]] + rest[1..]
  }

  function Join(parts: seq<string>, sep: string): string
  {
    if |parts| == 0 then []
    else if |parts| == 1 then parts[0]
    else parts[0] + sep + Join(parts[1..], sep)
  }

  // Joining the pieces of a split gives the string back.
  lemma {:induction false} JoinSplit(s: string, sep: char)
    ensures Join(Split(s, sep), [sep]) == s
  {
    if s != [] {
      JoinSplit(s[1..], sep);
      var rest := Split(s[1..], sep);
      if s[0] == sep {
        assert ([[]] + rest)[1..] == rest;
      } else {
        assert ([[s[0]] + rest[0]] + rest[1..])[1..] == rest[1..];
      }
    }
  }

  // A separator-free text is one piece, and a separator ends a piece.
  lemma {:induction false} SplitHead(a: string, b: string, sep: char)
    requires sep !in a
    ensures Split(a, sep) == [a]
    ensures Split(a + [sep] + b, sep) == [a] + Split(b, sep)
  {
    if a == [] {
      assert (a + [sep] + b)[1..] == b;
    } else {
      SplitHead(a[1..], b, sep);
      assert (a + [sep] + b)[1..] == a[1..] + [sep] + b;
      assert [a[0]] + a[1..] == a;
    }
  }

  // Splitting a join gives the pieces back.
  lemma {:induction false} SplitJoin(parts: seq<string>, sep: char)
    requires |parts| >= 1
    requires forall p | p in parts :: sep !in p
    ensures Split(Join(parts, [sep]), sep) == parts
  {
    if |parts| == 1 {
      SplitHead(parts[0], [], sep);
    } else {
      SplitJoin(parts[1..], sep);
      SplitHead(parts[0], Join(parts[1..], [sep]), sep);
    }
  }

  // No piece of a split holds the separator, and every piece is cut out of the string.
  lemma {:induction false} SplitPieces(s: string, sep: char)
    ensures forall p | p in Split(s, sep) :: sep !in p
  {
    if s != [] {
      SplitPieces(s[1..], sep);
    }
  }

  // ---------- one piece of a path, and what is around it ----------

  function Before(segments: seq<string>, i: nat): string
    requires i < |segments|
  {
    if i == 0 then "" else segments[0] + "/" + Before(segments[1..], i - 1)
  }

  function Behind(segments: seq<string>, i: nat): string
    requires i < |segments|
  {
    if i + 1 == |segments| then "" else "/" + Join(segments[i + 1..], "/")
  }

  lemma {:induction false} JoinAround(segments: seq<string>, i: nat)
    requires i < |segments|
    ensures Join(segments, "/") == Before(segments, i) + segments[i] + Behind(segments, i)
    decreases i
  {
    var first, rest := segments[0], segments[1..];
    if i == 0 {
      assert Before(segments, 0) + first + Behind(segments, 0) == first + Behind(segments, 0);
      if |segments| > 1 {
        assert first + "/" + Join(rest, "/") == first + ("/" + Join(rest, "/"));
      }
    } else {
      JoinAround(rest, i - 1);
      var b, x, e := Before(rest, i - 1), segments[i], Behind(rest, i - 1);
      assert rest[i..] == segments[i + 1..] && rest[i - 1] == x;
      assert e == Behind(segments, i);
      assert Join(segments, "/") == first + "/" + (b + x + e);
      assert first + "/" + (b + x + e) == (first + "/" + b) + x + e;
    }
  }

  lemma {:induction false} AroundSame(a: seq<string>, b: seq<string>, i: nat)
    requires |a| == |b| && i < |a| && forall j | 0 <= j < |a| && j != i :: a[j] == b[j]
    ensures Before(a, i) == Before(b, i) && Behind(a, i) == Behind(b, i)
    decreases i
  {
    if i > 0 {
      AroundSame(a[1..], b[1..], i - 1);
    }
    assert a[i + 1..] == b[i + 1..];
  }

  // ---------- fmt.Sprintf("%d", n) ----------

  function Digit(d: nat): char
    requires d < 10
  {
    "0123456789"[d]
  }

  function Digits(n: nat): (s: string)
    ensures s != []
  {
    if n < 10 then [Digit(n)] else Digits(n / 10) + [Digit(n % 10)]
  }

  function Decimal(n: int): string
  {
    if n < 0 then "-" + Digits(-n) else Digits(n)
  }

  lemma {:induction false} DigitsAreDigits(n: nat)
    ensures forall c | c in Digits(n) :: '0' <= c <= '9'
  {
    if n >= 10 {
      DigitsAreDigits(n / 10);
    }
  }

  lemma {:induction false} DigitsInjective(m: nat, n: nat)
    requires Digits(m) == Digits(n)
    ensures m == n
  {
    var a, b := Digits(m), Digits(n);
    assert a[|a| - 1] == b[|b| - 1] && a[..|a| - 1] == b[..|b| - 1];
    if m >= 10 && n >= 10 {
      assert a[..|a| - 1] == Digits(m / 10) && b[..|b| - 1] == Digits(n / 10);
      DigitsInjective(m / 10, n / 10);
    }
  }

  // What a decimal numeral is made of: a sign exactly for negative numbers, then digits.
  lemma DecimalShape(n: int)
    ensures Decimal(n) != [] && (Decimal(n)[0] == '-' <==> n < 0)
    ensures forall c | c in Decimal(n) :: c == '-' || '0' <= c <= '9'
  {
    DigitsAreDigits(if n < 0 then -n else n);
    assert n >= 0 ==> Digits(n)[0] in Digits(n);
  }

  lemma DecimalInjective(m: int, n: int)
    requires Decimal(m) == Decimal(n)
    ensures m == n
  {
    DecimalShape(m);
    DecimalShape(n);
    if m < 0 {
      assert Digits(-m) == Decimal(m)[1..] == Decimal(n)[1..] == Digits(-n);
      DigitsInjective(-m, -n);
    } else {
      DigitsInjective(m, n);
    }
  }

  // ---------- strings.HasSuffix, strings.TrimSpace ----------

  predicate HasPrefix(s: string, prefix: string)
  {
    prefix <= s
  }

  predicate HasSuffix(s: string, suffix: string)
  {
    |suffix| <= |s| && s[|s| - |suffix|..] == suffix
  }

  // unicode.IsSpace
  predicate IsSpace(c: char)
  {
    || '\t' <= c <= '\r' || c == ' ' || c as int == 0x85 || c as int == 0xA0 || c as int == 0x1680
    || 0x2000 <= c as int <= 0x200a || c as int in {0x2028, 0x2029, 0x202f, 0x205f, 0x3000}
  }

  function TrimLeft(s: string): string
  {
    if s != [] && IsSpace(s[0]) then TrimLeft(s[1..]) else s
  }

  function TrimRight(s: string): string
  {
    if s != [] && IsSpace(s[|s| - 1]) then TrimRight(s[..|s| - 1]) else s
  }

  function TrimSpace(s: string): string
  {
    TrimRight(TrimLeft(s))
  }

  // Nothing to trim.
  predicate Trimmed(s: string)
  {
    s != [] ==> !IsSpace(s[0]) && !IsSpace(s[|s| - 1])
  }

  lemma TrimNothing(s: string)
    requires Trimmed(s)
    ensures TrimSpace(s) == s
  {}

  // ---------- strings.Contains and strings.Replace with count 1 ----------

  predicate OccursAt(s: string, what: string, i: nat)
  {
    i + |what| <= |s| && s[i..i + |what|] == what
  }

  // The first place, |s| + 1 if there is none.
  function Index(s: string, what: string): (i: nat)
    ensures i <= |s| + 1
    ensures i <= |s| ==> OccursAt(s, what, i)
    ensures forall j: nat | j < i :: !OccursAt(s, what, j)
  {
    if what <= s then 0
    else if s == [] then 1
    else
      var i := Index(s[1..], what);
      assert forall j: nat | 1 <= j && OccursAt(s, what, j) :: OccursAt(s[1..], what, j - 1);
      assert i + 1 <= |s| ==> OccursAt(s[1..], what, i);
      i + 1
  }

  predicate Contains(s: string, what: string)
  {
    Index(s, what) <= |s|
  }

  lemma OccursContains(s: string, what: string, i: nat)
    requires OccursAt(s, what, i)
    ensures Contains(s, what)
  {}

  function ReplaceFirst(s: string, what: string, replacement: string): string
  {
    var i := Index(s, what);
    if i <= |s| then s[..i] + replacement + s[i + |what|..] else s
  }
}
