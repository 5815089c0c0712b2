/** The few pieces of Go's `strings` package and `fmt` that cs relies on,
    as total functions over `string` (a sequence of characters). */
module GoStrings {

  /** strings.HasPrefix */
  predicate HasPrefix(s: string, prefix: string) {
    |prefix| <= |s| && s[..|prefix|] == prefix
  }

  /** strings.Contains: `sub` occurs somewhere in `s`. */
  predicate Contains(s: string, sub: string)
    decreases |s|
  {
    HasPrefix(s, sub) || (s != [] && Contains(s[1..], sub))
  }

  /** An occurrence at a known position is found by Contains. */
  lemma {:induction false} ContainsAt(s: string, sub: string, i: nat)
    requires i + |sub| <= |s| && s[i..i + |sub|] == sub
    ensures Contains(s, sub)
    decreases i
  {
    if i > 0 {
      assert s[1..][i - 1..i - 1 + |sub|] == s[i..i + |sub|];
      ContainsAt(s[1..], sub, i - 1);
    }
  }

  /** The two-character pattern ":\n" occurs in a concatenation exactly when it
      occurs in one of the halves or straddles the seam. */
  lemma {:induction false} ColonNewlineConcat(a: string, b: string)
    ensures Contains(a + b, ":\n") <==>
            Contains(a, ":\n") || Contains(b, ":\n") ||
            (a != [] && b != [] && a[|a| - 1] == ':' && b[0] == '\n')
    decreases |a|
  {
    if a == [] {
      assert a + b == b;
    } else {
      assert (a + b)[1..] == a[1..] + b;
      ColonNewlineConcat(a[1..], b);
      if |a| == 1 {
        assert !Contains(a[1..], ":\n");
        assert HasPrefix(a + b, ":\n") <==> a[0] == ':' && b != [] && b[0] == '\n';
      } else {
        assert HasPrefix(a + b, ":\n") <==> HasPrefix(a, ":\n");
      }
    }
  }

  /** strings.Split(s, string(sep)) for a one-character separator: the pieces
      between consecutive separators, at least one piece even for "". */
  function Split(s: string, sep: char): (parts: seq<string>)
    ensures |parts| >= 1
    ensures forall p :: p in parts ==> sep !in p
    decreases |s|
  {
    if s == [] then [""]
    else
      var rest := Split(s[1..], sep);
      if s[0] == sep then [""] + rest
      else [[s[0]] + rest[0]] + rest[1..]
  }

  /** strings.Join(parts, string(sep)), the inverse of Split. */
  function JoinWith(parts: seq<string>, sep: char): string
    requires |parts| >= 1
  {
    if |parts| == 1 then parts[0]
    else parts[0] + [sep] + JoinWith(parts[1..], sep)
  }

  /** strings.Join(parts, ""): plain concatenation. */
  function Concat(parts: seq<string>): string {
    if parts == [] then "" else parts[0] + Concat(parts[1..])
  }

  /** Splitting and joining back with the same separator gives the input. */
  lemma {:induction false} JoinSplit(s: string, sep: char)
    ensures JoinWith(Split(s, sep), sep) == s
    decreases |s|
  {
    if s != [] {
      JoinSplit(s[1..], sep);
      var rest := Split(s[1..], sep);
      if s[0] == sep {
        assert Split(s, sep)[1..] == rest;
      } else {
        var parts := Split(s, sep);
        assert parts[1..] == rest[1..];
        if |rest| > 1 {
          assert JoinWith(rest, sep) == rest[0] + [sep] + JoinWith(rest[1..], sep);
        }
      }
    }
  }

  /** The first piece of Split is the text before the first separator, so the
      separator appears in `s` exactly when that piece is a proper prefix. */
  lemma {:induction false} SplitFirst(s: string, sep: char)
    ensures HasPrefix(s, Split(s, sep)[0])
    ensures sep in s <==> |Split(s, sep)[0]| < |s|
    ensures sep in s ==> s[|Split(s, sep)[0]|] == sep
    decreases |s|
  {
    if s != [] {
      var rest := Split(s[1..], sep);
      assert s == [s[0]] + s[1..];
      assert sep in s <==> s[0] == sep || sep in s[1..];
      if s[0] != sep {
        SplitFirst(s[1..], sep);
        var first := [s[0]] + rest[0];
        assert Split(s, sep)[0] == first;
        assert s[..|first|] == [s[0]] + s[1..][..|rest[0]|];
        if sep in s {
          assert s[|first|] == s[1..][|rest[0]|];
        }
      }
    }
  }

  /** The first piece is everything before the first separator. */
  lemma {:induction false} SplitBefore(h: string, sep: char, t: string)
    requires sep !in h
    ensures Split(h + [sep] + t, sep)[0] == h
    decreases |h|
  {
    var s := h + [sep] + t;
    if h == [] {
      assert s[0] == sep;
    } else {
      assert s[1..] == h[1..] + [sep] + t;
      SplitBefore(h[1..], sep, t);
      assert h == [h[0]] + h[1..];
    }
  }

  /** strings.Trim(s, "\n"): drop every leading and trailing newline. */
  function TrimNewlines(s: string): (r: string)
    ensures |r| <= |s|
    ensures r == [] || (r[0] != '\n' && r[|r| - 1] != '\n')
  {
    var i := Leading(s);
    if i == |s| then "" else
      var j := |s| - Trailing(s);
      s[i..j]
  }

  /** Text made of newlines only. */
  predicate AllNewlines(t: string) {
    forall k :: 0 <= k < |t| ==> t[k] == '\n'
  }

  /** The number of newlines s starts with. */
  function Leading(s: string): (n: nat)
    ensures n <= |s| && AllNewlines(s[..n])
    ensures n < |s| ==> s[n] != '\n'
    decreases |s|
  {
    if s != [] && s[0] == '\n' then
      var n := Leading(s[1..]);
      assert s[..n + 1] == [s[0]] + s[1..][..n];
      n + 1
    else 0
  }

  /** The number of newlines s ends with. */
  function Trailing(s: string): (n: nat)
    ensures n <= |s| && AllNewlines(s[|s| - n..])
    ensures n < |s| ==> s[|s| - n - 1] != '\n'
    decreases |s|
  {
    if s != [] && s[|s| - 1] == '\n' then
      var t := s[..|s| - 1];
      var n := Trailing(t);
      assert |t| == |s| - 1;
      assert s[|s| - (n + 1)..] == t[|t| - n..] + [s[|s| - 1]];
      assert n + 1 < |s| ==> s[|s| - n - 2] == t[|t| - n - 1];
      n + 1
    else 0
  }

  /** Trimming removes exactly the surrounding newlines: the result is the
      piece of the input starting at `i`, with only newlines cut on either
      side, and trimming again changes nothing. */
  lemma TrimNewlinesSpec(s: string) returns (i: nat)
    ensures i + |TrimNewlines(s)| <= |s|
    ensures s[i..i + |TrimNewlines(s)|] == TrimNewlines(s)
    ensures AllNewlines(s[..i]) && AllNewlines(s[i + |TrimNewlines(s)|..])
    ensures TrimNewlines(TrimNewlines(s)) == TrimNewlines(s)
  {
    i := Leading(s);
    TrimTrimmed(TrimNewlines(s));
  }

  /** Text without a newline at either end is left as it is. */
  lemma TrimTrimmed(r: string)
    requires r == [] || (r[0] != '\n' && r[|r| - 1] != '\n')
    ensures TrimNewlines(r) == r
  {
    assert r == [] || (Leading(r) == 0 && Trailing(r) == 0);
  }

  /** fmt's %d for a non-negative integer. */
  function Decimal(n: nat): (r: string)
    ensures |r| >= 1
    ensures forall k :: 0 <= k < |r| ==> '0' <= r[k] <= '9'
    ensures r[0] == '0' ==> n == 0
  {
    if n < 10 then [Digit(n)] else Decimal(n / 10) + [Digit(n % 10)]
  }

  function Digit(d: nat): (c: char)
    requires d < 10
    ensures '0' <= c <= '9'
  {
    ['0', '1', '2', '3', '4', '5', '6', '7', '8', '9'][d]
  }

  /** Reading a run of decimal digits back as a number. */
  function ParseDecimal(s: string): nat
    requires forall k :: 0 <= k < |s| ==> '0' <= s[k] <= '9'
  {
    if s == [] then 0
    else 10 * ParseDecimal(s[..|s| - 1]) + (s[|s| - 1] as int - '0' as int)
  }

  /** %d is faithful: the printed digits read back as the same number. */
  lemma {:induction false} ParseDecimalInverse(n: nat)
    ensures ParseDecimal(Decimal(n)) == n
  {
    var r := Decimal(n);
    if n >= 10 {
      ParseDecimalInverse(n / 10);
      assert r[..|r| - 1] == Decimal(n / 10);
    }
    var d := if n < 10 then n else n % 10;
    assert Digit(d) as int - '0' as int == d;
  }
}
