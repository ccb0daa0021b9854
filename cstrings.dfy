/**
  The C string handling both lineages rely on: the NUL-terminated view of a char
  buffer, chomp, fgets on a PID file, atoi, strcasecmp under ASCII case folding, and
  the "%s/%s" path join.
 */
module CStrings {
  import opened Os

  const NUL: char := '\0'

  // ---------------------------------------------------------------------------
  // The NUL-terminated view of a buffer
  // ---------------------------------------------------------------------------

  /** The characters of a buffer up to (not including) its first NUL. */
  function CStr(s: seq<char>): seq<char>
  {
    if s == [] || s[0] == NUL then [] else [s[0]] + CStr(s[1..])
  }

  /** strlen: the length of the NUL-terminated view. */
  function StrLen(s: seq<char>): nat
  {
    |CStr(s)|
  }

  /** In a terminated buffer, strlen finds the first NUL, and the view is the prefix before it. */
  lemma {:induction false} CStrOfTerminated(s: seq<char>)
    requires NUL in s
    ensures StrLen(s) < |s| && s[StrLen(s)] == NUL
    ensures CStr(s) == s[..StrLen(s)] && NUL !in CStr(s)
  {
    if s[0] != NUL {
      assert NUL in s[1..] by {
        var k :| 0 <= k < |s| && s[k] == NUL;
        assert s[1..][k - 1] == NUL;
      }
      CStrOfTerminated(s[1..]);
    }
  }

  /** A buffer whose first NUL sits at index k has the first k characters as its view. */
  lemma {:induction false} CStrAt(s: seq<char>, k: nat)
    requires k <= |s| && NUL !in s[..k] && (k < |s| ==> s[k] == NUL)
    ensures CStr(s) == s[..k]
  {
    if k > 0 {
      assert s[0] == s[..k][0];
      assert s[1..][..k - 1] == s[..k][1..];
      CStrAt(s[1..], k - 1);
    }
  }

  /** Characters after a terminator never reach the view. */
  lemma {:induction false} CStrIgnoresTail(s: seq<char>, tail: seq<char>)
    ensures CStr(s + [NUL] + tail) == CStr(s)
  {
    if s == [] {
      assert (s + [NUL] + tail)[0] == NUL;
    } else {
      assert (s + [NUL] + tail)[1..] == s[1..] + [NUL] + tail;
      CStrIgnoresTail(s[1..], tail);
    }
  }

  // ---------------------------------------------------------------------------
  // chomp (src/vpn.c:28-35, src/runvpn.c:222-228)
  // ---------------------------------------------------------------------------

  /** A string with one trailing newline removed, if it has one. */
  function Chomped(s: seq<char>): seq<char>
  {
    if |s| > 0 && s[|s| - 1] == '\n' then s[..|s| - 1] else s
  }

  /** chomp only ever drops the last character, and only when it is a newline. */
  lemma ChompedDropsAtMostNewline(s: seq<char>)
    ensures |s| - 1 <= |Chomped(s)| <= |s|
    ensures Chomped(s) == s[..|Chomped(s)|]
    ensures |Chomped(s)| < |s| <==> (|s| > 0 && s[|s| - 1] == '\n')
  {
  }

  /** chomp undoes appending one newline, and leaves a string without a trailing newline alone. */
  lemma ChompedInvertsNewline(s: seq<char>)
    ensures Chomped(s + ['\n']) == s
    ensures (s == [] || s[|s| - 1] != '\n') ==> Chomped(s) == s
  {
    assert (s + ['\n'])[..|s|] == s;
  }

  /**
    chomp as the code does it, corrected for the empty string: strlen, then clear the
    last character if it is a newline. The buffer must hold a terminator, which
    every buffer filled by fgets does.
   */
  method Chomp(s: array<char>)
    requires NUL in s[..]
    modifies s
    ensures NUL in s[..]
    ensures CStr(s[..]) == Chomped(old(CStr(s[..])))
    ensures forall i :: 0 <= i < s.Length && i != old(StrLen(s[..])) - 1 ==> s[i] == old(s[i])
  {
    CStrOfTerminated(s[..]);
    var length := StrLen(s[..]);
    if length > 0 && s[length - 1] == '\n' {
      s[length - 1] := NUL;
      assert s[..][..length - 1] == old(s[..])[..length - 1];
      CStrAt(s[..], length - 1);
    }
  }

  /**
    chomp exactly as written: `string[length - 1]` is read without checking that
    length is positive, so C leaves an empty string undefined (it reads string[-1]);
    here that read is a precondition.
   */
  method ChompAsWritten(s: array<char>)
    requires NUL in s[..] && StrLen(s[..]) > 0
    modifies s
    ensures NUL in s[..]
    ensures CStr(s[..]) == Chomped(old(CStr(s[..])))
    ensures forall i :: 0 <= i < s.Length && i != old(StrLen(s[..])) - 1 ==> s[i] == old(s[i])
  {
    CStrOfTerminated(s[..]);
    var length := StrLen(s[..]);
    if s[length - 1] == '\n' {
      s[length - 1] := NUL;
      assert s[..][..length - 1] == old(s[..])[..length - 1];
      CStrAt(s[..], length - 1);
    }
  }

  /**
    fgets stores NUL bytes like any other, so a file that starts with one yields a
    line whose C string is empty, and chomp then reads string[-1].
   */
  lemma NulLeadingLineIsEmpty()
    ensures Fgets([NUL, '1', '\n'], 10) == Some([NUL, '1', '\n'])
    ensures StrLen([NUL, '1', '\n', NUL]) == 0
  {
    assert [NUL, '1', '\n'][1..] == ['1', '\n'] && ['1', '\n'][1..] == ['\n'];
    assert FgetsTake(['\n'], 7) == ['\n'];
    assert FgetsTake(['1', '\n'], 8) == ['1', '\n'];
    assert FgetsTake([NUL, '1', '\n'], 9) == [NUL] + FgetsTake(['1', '\n'], 8);
    assert [NUL] + ['1', '\n'] == [NUL, '1', '\n'];
  }

  // ---------------------------------------------------------------------------
  // fgets(line, n, file) on the first line of a PID file
  // ---------------------------------------------------------------------------

  /** The characters fgets stores: at most k of them, stopping after the first newline. */
  function FgetsTake(content: seq<char>, k: nat): seq<char>
  {
    if content == [] || k == 0 then []
    else if content[0] == '\n' then ['\n']
    else [content[0]] + FgetsTake(content[1..], k - 1)
  }

  /**
    fgets(line, n, f) on a file holding `content`: NULL when the file is empty,
    otherwise at most n - 1 characters up to and including the first newline.
   */
  function Fgets(content: seq<char>, n: nat): (r: Option<seq<char>>)
    requires n >= 2
    ensures r.Some? <==> content != []
    ensures r.Some? ==> |r.value| >= 1
  {
    if content == [] then None else Some(FgetsTake(content, n - 1))
  }

  /** What fgets stores is a prefix of the file, at most k long, with a newline only at its end. */
  lemma {:induction false} FgetsTakeShape(content: seq<char>, k: nat)
    ensures |FgetsTake(content, k)| <= k && |FgetsTake(content, k)| <= |content|
    ensures FgetsTake(content, k) == content[..|FgetsTake(content, k)|]
    ensures forall i :: 0 <= i < |FgetsTake(content, k)| - 1 ==> FgetsTake(content, k)[i] != '\n'
  {
    if content != [] && k != 0 && content[0] != '\n' {
      FgetsTakeShape(content[1..], k - 1);
    }
  }

  /** On a line without newline longer than k, fgets stores its first k characters. */
  lemma {:induction false} FgetsTakeLong(s: seq<char>, rest: seq<char>, k: nat)
    requires '\n' !in s && |s| >= k
    ensures FgetsTake(s + rest, k) == s[..k]
  {
    if k > 0 {
      assert (s + rest)[1..] == s[1..] + rest;
      FgetsTakeLong(s[1..], rest, k - 1);
    }
  }

  /** A line shorter than k, newline included, is stored whole. */
  lemma {:induction false} FgetsTakeLine(s: seq<char>, rest: seq<char>, k: nat)
    requires '\n' !in s && |s| < k
    ensures FgetsTake(s + ['\n'] + rest, k) == s + ['\n']
  {
    if s != [] {
      assert (s + ['\n'] + rest)[1..] == s[1..] + ['\n'] + rest;
      FgetsTakeLine(s[1..], rest, k - 1);
    }
  }

  // ---------------------------------------------------------------------------
  // atoi (glibc: strtol(s, NULL, 10) after isspace skipping, with optional sign)
  // ---------------------------------------------------------------------------

  predicate IsSpace(c: char)
  {
    c == ' ' || c == '\t' || c == '\n' || c == '\U{000B}' || c == '\U{000C}' || c == '\r'
  }

  predicate IsDigit(c: char)
  {
    '0' <= c <= '9'
  }

  predicate AllDigits(s: seq<char>)
  {
    forall i :: 0 <= i < |s| ==> IsDigit(s[i])
  }

  function SkipSpace(s: seq<char>): seq<char>
  {
    if s != [] && IsSpace(s[0]) then SkipSpace(s[1..]) else s
  }

  /** The longest prefix of digits. */
  function DigitPrefix(s: seq<char>): (d: seq<char>)
    ensures AllDigits(d) && |d| <= |s|
  {
    if s != [] && IsDigit(s[0]) then [s[0]] + DigitPrefix(s[1..]) else []
  }

  /** The value of a string of decimal digits, most significant first. */
  function DecimalValue(d: seq<char>): nat
    requires AllDigits(d)
  {
    if d == [] then 0 else DecimalValue(d[..|d| - 1]) * 10 + (d[|d| - 1] as int - '0' as int)
  }

  function Atoi(s: seq<char>): int
  {
    var t := SkipSpace(s);
    if t != [] && t[0] == '-' then -(DecimalValue(DigitPrefix(t[1..])) as int)
    else if t != [] && t[0] == '+' then DecimalValue(DigitPrefix(t[1..]))
    else DecimalValue(DigitPrefix(t))
  }

  function Pow10(k: nat): (p: nat)
    ensures p >= 1
  {
    if k == 0 then 1 else 10 * Pow10(k - 1)
  }

  /** k decimal digits stay below 10^k. */
  lemma {:induction false} DecimalValueBound(d: seq<char>)
    requires AllDigits(d)
    ensures DecimalValue(d) < Pow10(|d|)
  {
    if d != [] {
      DecimalValueBound(d[..|d| - 1]);
    }
  }

  lemma {:induction false} Pow10Monotone(j: nat, k: nat)
    requires j <= k
    ensures Pow10(j) <= Pow10(k)
  {
    if j < k {
      Pow10Monotone(j, k - 1);
    }
  }

  lemma {:induction false} SkipSpaceShrinks(s: seq<char>)
    ensures |SkipSpace(s)| <= |s|
  {
    if s != [] && IsSpace(s[0]) {
      SkipSpaceShrinks(s[1..]);
    }
  }

  /**
    atoi of at most nine characters cannot overflow a 32-bit int: at most nine digits,
    or a sign and at most eight.
   */
  lemma AtoiOfShortLine(s: seq<char>)
    requires |s| <= 9
    ensures -99999999 <= Atoi(s) <= 999999999
  {
    var t := SkipSpace(s);
    SkipSpaceShrinks(s);
    if t != [] && (t[0] == '-' || t[0] == '+') {
      var d := DigitPrefix(t[1..]);
      DecimalValueBound(d);
      Pow10Monotone(|d|, 8);
      assert Pow10(8) == 100000000;
    } else {
      var d := DigitPrefix(t);
      DecimalValueBound(d);
      Pow10Monotone(|d|, 9);
      assert Pow10(9) == 1000000000;
    }
  }

  /** The decimal text printf("%d") writes for a non-negative number. */
  function Decimal(n: nat): (d: seq<char>)
    ensures |d| >= 1 && AllDigits(d)
  {
    if n < 10 then [('0' as int + n) as char]
    else Decimal(n / 10) + [('0' as int + n % 10) as char]
  }

  lemma {:induction false} DecimalValueOfDecimal(n: nat)
    ensures DecimalValue(Decimal(n)) == n
  {
    if n >= 10 {
      DecimalValueOfDecimal(n / 10);
      assert Decimal(n)[..|Decimal(n)| - 1] == Decimal(n / 10);
    }
  }

  /** A number below 10^k has at most k digits. */
  lemma {:induction false} DecimalLength(n: nat, k: nat)
    requires k >= 1 && n < Pow10(k)
    ensures |Decimal(n)| <= k
  {
    if n >= 10 {
      assert k >= 1 && Pow10(k) == 10 * Pow10(k - 1);
      assert n / 10 < Pow10(k - 1);
      DecimalLength(n / 10, k - 1);
      assert |Decimal(n)| == |Decimal(n / 10)| + 1;
    }
  }

  lemma {:induction false} DigitPrefixOfDigits(d: seq<char>, rest: seq<char>)
    requires AllDigits(d) && (rest == [] || !IsDigit(rest[0]))
    ensures DigitPrefix(d + rest) == d
  {
    if d != [] {
      assert (d + rest)[1..] == d[1..] + rest;
      DigitPrefixOfDigits(d[1..], rest);
    }
  }

  /** atoi reads back what printf("%d") wrote. */
  lemma AtoiOfDecimal(n: nat)
    ensures Atoi(Decimal(n)) == n
  {
    var d := Decimal(n);
    assert SkipSpace(d) == d;
    DigitPrefixOfDigits(d, []);
    assert d + [] == d;
    DecimalValueOfDecimal(n);
  }

  // ---------------------------------------------------------------------------
  // strcasecmp, with ASCII case folding
  // ---------------------------------------------------------------------------

  function Lower(c: char): char
  {
    if 'A' <= c <= 'Z' then (c as int + 32) as char else c
  }

  /**
    The sign of strcasecmp(a, b): characters are compared after folding, and the end of
    a string (its NUL) sorts before any character.
   */
  function CaseCmp(a: string, b: string): int
  {
    if a == [] && b == [] then 0
    else if a == [] then -1
    else if b == [] then 1
    else if Lower(a[0]) < Lower(b[0]) then -1
    else if Lower(a[0]) > Lower(b[0]) then 1
    else CaseCmp(a[1..], b[1..])
  }

  /** The whole string with ASCII upper case folded to lower case. */
  function Folded(s: string): (f: string)
    ensures |f| == |s|
  {
    if s == [] then [] else [Lower(s[0])] + Folded(s[1..])
  }

  /** The ordinary lexicographic order on strings, with a prefix before its extensions. */
  predicate LexLess(a: string, b: string)
  {
    if a == [] then b != []
    else if b == [] then false
    else if a[0] != b[0] then a[0] < b[0]
    else LexLess(a[1..], b[1..])
  }

  /** strcasecmp is the lexicographic order on folded strings: equal exactly when the foldings are equal. */
  lemma {:induction false} CaseCmpIsFoldedOrder(a: string, b: string)
    ensures CaseCmp(a, b) == 0 <==> Folded(a) == Folded(b)
    ensures CaseCmp(a, b) < 0 <==> LexLess(Folded(a), Folded(b))
    ensures -1 <= CaseCmp(a, b) <= 1
  {
    if a != [] && b != [] {
      CaseCmpIsFoldedOrder(a[1..], b[1..]);
      assert Folded(a)[1..] == Folded(a[1..]);
      assert Folded(b)[1..] == Folded(b[1..]);
      if Lower(a[0]) == Lower(b[0]) && Folded(a[1..]) == Folded(b[1..]) {
        assert Folded(a) == [Lower(a[0])] + Folded(a[1..]);
      }
    } else if a != [] {
      assert Folded(a) != [];
    } else if b != [] {
      assert Folded(b) != [];
    }
  }

  /** Swapping the arguments flips the sign. */
  lemma {:induction false} CaseCmpAntisymmetric(a: string, b: string)
    ensures CaseCmp(a, b) == -CaseCmp(b, a)
  {
    if a != [] && b != [] && Lower(a[0]) == Lower(b[0]) {
      CaseCmpAntisymmetric(a[1..], b[1..]);
    }
  }

  /** "Not greater" under strcasecmp is transitive. */
  lemma {:induction false} CaseCmpTransitive(a: string, b: string, c: string)
    requires CaseCmp(a, b) <= 0 && CaseCmp(b, c) <= 0
    ensures CaseCmp(a, c) <= 0
  {
    if a != [] && b != [] && c != [] && Lower(a[0]) == Lower(b[0]) && Lower(b[0]) == Lower(c[0]) {
      CaseCmpTransitive(a[1..], b[1..], c[1..]);
    }
  }

  /** Every string is equal to itself under strcasecmp. */
  lemma {:induction false} CaseCmpReflexive(a: string)
    ensures CaseCmp(a, a) == 0
  {
    if a != [] {
      CaseCmpReflexive(a[1..]);
    }
  }

  // ---------------------------------------------------------------------------
  // "%s/%s"
  // ---------------------------------------------------------------------------

  /** sprintf(buf, "%s/%s", dir, name). */
  function Join(dir: string, name: string): (p: string)
    ensures |p| == |dir| + 1 + |name|
  {
    dir + "/" + name
  }

  /** Within one directory, different names give different paths, and the path starts with the directory. */
  lemma JoinInjective(dir: string, a: string, b: string)
    ensures Join(dir, a) == Join(dir, b) <==> a == b
    ensures Join(dir, a)[..|dir| + 1] == dir + "/"
  {
    if Join(dir, a) == Join(dir, b) {
      assert a == Join(dir, a)[|dir| + 1..];
      assert b == Join(dir, b)[|dir| + 1..];
    }
  }
}
