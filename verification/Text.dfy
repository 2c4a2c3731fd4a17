/** Strings as the pipeline builds and compares them. */
module Text {
  import opened Prelude

  // ----- decimal numbers -----

  function Digit(d: nat): (c: char)
    requires d < 10
    ensures '0' <= c <= '9'
  {
    '0' + d as char
  }

  function Decimal(n: nat): (s: string)
    ensures s != [] && forall i :: 0 <= i < |s| ==> '0' <= s[i] <= '9'
  {
    if n < 10 then [Digit(n)] else Decimal(n / 10) + [Digit(n % 10)]
  }

  function Parsed(s: string): int {
    if s == "" then 0 else 10 * Parsed(s[..|s| - 1]) + (s[|s| - 1] as int - '0' as int)
  }

  lemma {:induction false} DecimalParses(n: nat)
    ensures Parsed(Decimal(n)) == n
  {
    var s := Decimal(n);
    if n < 10 {
      assert s[..0] == "";
    } else {
      DecimalParses(n / 10);
      assert s[..|s| - 1] == Decimal(n / 10);
    }
  }

  lemma DecimalInjective(m: nat, n: nat)
    requires Decimal(m) == Decimal(n)
    ensures m == n
  {
    DecimalParses(m);
    DecimalParses(n);
  }

  /** Python's {n:02d}. */
  function TwoDigits(n: nat): string {
    if n < 10 then "0" + Decimal(n) else Decimal(n)
  }

  lemma TwoDigitsInjective(m: nat, n: nat)
    requires TwoDigits(m) == TwoDigits(n)
    ensures m == n
  {
    TwoDigitsParses(m);
    TwoDigitsParses(n);
  }

  lemma TwoDigitsParses(n: nat)
    ensures Parsed(TwoDigits(n)) == n
  {
    DecimalParses(n);
    if n < 10 {
      assert TwoDigits(n)[..1] == "0" && "0"[..0] == "";
      assert Decimal(n)[..0] == "";
    }
  }

  // ----- splitting at a separator -----

  /** Two strings that split at their last separator split alike. */
  lemma LastSplit(a: string, b: string, c: string, d: string, sep: char)
    requires a + [sep] + b == c + [sep] + d
    requires sep !in b && sep !in d
    ensures a == c && b == d
  {
    var s := a + [sep] + b;
    assert forall k :: |a| < k < |s| ==> s[k] == b[k - |a| - 1];
    assert forall k :: |c| < k < |s| ==> s[k] == d[k - |c| - 1];
    assert s[|a|] == sep && s[|c|] == sep;
    assert s[..|a|] == a && s[..|c|] == c && s[|a| + 1..] == b && s[|c| + 1..] == d;
  }

  function Join(names: seq<string>, sep: char): string {
    if names == [] then ""
    else if |names| == 1 then names[0]
    else names[0] + [sep] + Join(names[1..], sep)
  }

  /** Python's s.split(sep) for a one-character separator. */
  function Split(s: string, sep: char): (parts: seq<string>)
    ensures parts != []
  {
    if s == "" then [""]
    else
      var rest := Split(s[1..], sep);
      if s[0] == sep then [""] + rest else [[s[0]] + rest[0]] + rest[1..]
  }

  lemma {:induction false} SplitWord(w: string, rest: string, sep: char)
    requires sep !in w
    ensures Split(w + rest, sep) == [w + Split(rest, sep)[0]] + Split(rest, sep)[1..]
    decreases |w|
  {
    if w == "" {
      assert w + rest == rest;
      var parts := Split(rest, sep);
      assert "" + parts[0] == parts[0] && parts == [parts[0]] + parts[1..];
    } else {
      SplitWord(w[1..], rest, sep);
      assert (w + rest)[0] == w[0] && (w + rest)[1..] == w[1..] + rest;
      assert [w[0]] + (w[1..] + Split(rest, sep)[0]) == w + Split(rest, sep)[0];
    }
  }

  lemma {:induction false} SplitInvertsJoin(names: seq<string>, sep: char)
    requires names != [] && forall i :: 0 <= i < |names| ==> sep !in names[i]
    ensures Split(Join(names, sep), sep) == names
    decreases |names|
  {
    if |names| == 1 {
      SplitWord(names[0], "", sep);
      assert names[0] + "" == names[0];
    } else {
      var rest := [sep] + Join(names[1..], sep);
      SplitInvertsJoin(names[1..], sep);
      assert rest[1..] == Join(names[1..], sep);
      assert Split(rest, sep) == [""] + names[1..];
      SplitWord(names[0], rest, sep);
      assert Join(names, sep) == names[0] + rest;
      assert names[0] + "" == names[0];
    }
  }

  /** Python's `t in s` on strings. */
  predicate Contains(s: string, t: string) {
    exists i :: 0 <= i <= |s| && t <= s[i..]
  }

  // ----- lexicographic order -----

  predicate Less(a: string, b: string) {
    if b == "" then false
    else if a == "" then true
    else a[0] < b[0] || (a[0] == b[0] && Less(a[1..], b[1..]))
  }

  lemma {:induction false} LessTotal(a: string, b: string)
    ensures Less(a, b) || a == b || Less(b, a)
    ensures !(Less(a, b) && Less(b, a)) && !Less(a, a)
  {
    if a != "" && b != "" {
      LessTotal(a[1..], b[1..]);
      if a[0] == b[0] && a[1..] == b[1..] {
        assert a == [a[0]] + a[1..];
      }
    }
    LessIrreflexive(a);
  }

  lemma {:induction false} LessIrreflexive(a: string)
    ensures !Less(a, a)
  {
    if a != "" {
      LessIrreflexive(a[1..]);
    }
  }

  lemma {:induction false} LessTransitive(a: string, b: string, c: string)
    requires Less(a, b) && Less(b, c)
    ensures Less(a, c)
  {
    if a != "" && a[0] == b[0] && b[0] == c[0] {
      LessTransitive(a[1..], b[1..], c[1..]);
    }
  }

  /** A common prefix and suffix do not change the order of equally long middles. */
  lemma {:induction false} LessFramed(pre: string, a: string, b: string, post: string)
    requires |a| == |b|
    ensures Less(pre + a + post, pre + b + post) <==> Less(a, b)
    decreases |pre|, |a|
  {
    var x, y := pre + a + post, pre + b + post;
    if pre != "" {
      LessFramed(pre[1..], a, b, post);
      assert x[1..] == pre[1..] + a + post && y[1..] == pre[1..] + b + post;
    } else if a != "" {
      LessFramed("", a[1..], b[1..], post);
      assert x[1..] == "" + a[1..] + post && y[1..] == "" + b[1..] + post;
    } else {
      assert x == y;
      LessIrreflexive(x);
    }
  }
}
