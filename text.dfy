/** Text helpers the engine relies on: Rust's `str::split`, joining with a
    separator, decimal rendering and parsing of naturals, and the ordering of
    Rust `String`s (byte-wise on UTF-8, which is code-point order, which is
    Dafny's order on `char`). */
module Text {

  // ---------------------------------------------------------------------------
  // Splitting and joining

  /** Rust's `s.split(sep).collect::<Vec<_>>()`: the pieces between the
      occurrences of `sep`, always at least one piece. */
  function Split(s: string, sep: char): (parts: seq<string>)
    ensures |parts| >= 1
    ensures forall i :: 0 <= i < |parts| ==> sep !in parts[i]
    ensures Join(parts, [sep]) == s
  {
    if |s| == 0 then [""]
    else
      var rest := Split(s[1..], sep);
      if s[0] == sep then
        assert Join([""] + rest, [sep]) == [sep] + Join(rest, [sep]);
        [""] + rest
      else
        var parts := [[s[0]] + rest[0]] + rest[1..];
        assert Join(parts, [sep]) == [s[0]] + Join(rest, [sep]) by {
          if |rest| > 1 {
            assert parts[1..] == rest[1..];
          }
        }
        parts
  }

  /** The pieces of `parts` with `sep` between each two neighbours
      (Rust's `format!("{}{}{}", a, sep, b)` repeated, or `join`). */
  function Join(parts: seq<string>, sep: string): (s: string)
    ensures |parts| == 0 ==> s == ""
    ensures |parts| == 1 ==> s == parts[0]
  {
    if |parts| == 0 then ""
    else if |parts| == 1 then parts[0]
    else parts[0] + sep + Join(parts[1..], sep)
  }

  /** The first piece comes first, followed by the separator when there is
      another piece. */
  lemma JoinStartsWith(parts: seq<string>, sep: string)
    requires |parts| >= 1
    ensures parts[0] <= Join(parts, sep)
    ensures |parts| >= 2 ==> parts[0] + sep <= Join(parts, sep)
  {
    if |parts| >= 2 {
      var rest := Join(parts[1..], sep);
      assert Join(parts, sep) == (parts[0] + sep) + rest;
    }
  }

  /** Appending one more piece appends the separator and that piece. */
  lemma {:induction false} JoinSnoc(parts: seq<string>, x: string, sep: string)
    requires |parts| >= 1
    ensures Join(parts + [x], sep) == Join(parts, sep) + sep + x
  {
    if |parts| == 1 {
      assert (parts + [x])[1..] == [x];
    } else {
      assert (parts + [x])[1..] == parts[1..] + [x];
      JoinSnoc(parts[1..], x, sep);
    }
  }

  /** Splitting a piece-free prefix followed by more text. */
  lemma {:induction false} SplitAfterPlainPrefix(p: string, t: string, sep: char)
    requires sep !in p
    ensures Split(p + t, sep) == [p + Split(t, sep)[0]] + Split(t, sep)[1..]
  {
    var st := Split(t, sep);
    if |p| > 0 {
      assert (p + t)[0] == p[0] && (p + t)[1..] == p[1..] + t;
      SplitAfterPlainPrefix(p[1..], t, sep);
      var rest := Split(p[1..] + t, sep);
      assert rest == [p[1..] + st[0]] + st[1..];
      assert rest[0] == p[1..] + st[0] && rest[1..] == st[1..];
      assert [p[0]] + (p[1..] + st[0]) == p + st[0];
    } else {
      assert p + t == t && p + st[0] == st[0];
      assert st == [st[0]] + st[1..];
    }
  }

  /** Split undoes Join when no piece contains the separator. */
  lemma {:induction false} SplitOfJoin(parts: seq<string>, sep: char)
    requires |parts| >= 1
    requires forall i :: 0 <= i < |parts| ==> sep !in parts[i]
    ensures Split(Join(parts, [sep]), sep) == parts
  {
    if |parts| == 1 {
      SplitAfterPlainPrefix(parts[0], "", sep);
      assert parts[0] + "" == parts[0];
    } else {
      var rest := Join(parts[1..], [sep]);
      SplitOfJoin(parts[1..], sep);
      assert Join(parts, [sep]) == parts[0] + ([sep] + rest);
      SplitAfterPlainPrefix(parts[0], [sep] + rest, sep);
      assert ([sep] + rest)[1..] == rest;
      var after := Split([sep] + rest, sep);
      assert after == [""] + parts[1..];
      assert after[0] == "" && after[1..] == parts[1..];
      assert parts[0] + "" == parts[0];
      assert parts == [parts[0]] + parts[1..];
    }
  }

  /** A string splits into two or more pieces iff it contains the separator. */
  lemma {:induction false} SplitHasSeveralPieces(s: string, sep: char)
    ensures |Split(s, sep)| >= 2 <==> sep in s
  {
    if |s| > 0 {
      SplitHasSeveralPieces(s[1..], sep);
      assert s == [s[0]] + s[1..];
    }
  }

  // ---------------------------------------------------------------------------
  // Decimal numerals

  predicate IsAsciiDigit(c: char) { '0' <= c <= '9' }

  /** Rust's `s.chars().all(|c| c.is_ascii_digit())`; true of the empty string. */
  predicate AllAsciiDigits(s: string) { forall i :: 0 <= i < |s| ==> IsAsciiDigit(s[i]) }

  function DigitValue(c: char): nat
  {
    if IsAsciiDigit(c) then c as int - '0' as int else 0
  }

  /** The value of the digits `ds` read after a value `acc` already read. */
  function FoldDecimal(acc: nat, ds: string): nat
    decreases ds
  {
    if |ds| == 0 then acc else FoldDecimal(acc * 10 + DigitValue(ds[0]), ds[1..])
  }

  lemma {:induction false} FoldDecimalSnoc(acc: nat, ds: string, c: char)
    ensures FoldDecimal(acc, ds + [c]) == FoldDecimal(acc, ds) * 10 + DigitValue(c)
    decreases ds
  {
    if |ds| > 0 {
      assert (ds + [c])[1..] == ds[1..] + [c];
      FoldDecimalSnoc(acc * 10 + DigitValue(ds[0]), ds[1..], c);
    }
  }

  /** Reading `a + b` reads `a`, then carries on with `b`. */
  lemma {:induction false} FoldDecimalAppend(acc: nat, a: string, b: string)
    ensures FoldDecimal(acc, a + b) == FoldDecimal(FoldDecimal(acc, a), b)
    decreases a
  {
    if |a| > 0 {
      assert (a + b)[0] == a[0] && (a + b)[1..] == a[1..] + b;
      FoldDecimalAppend(acc * 10 + DigitValue(a[0]), a[1..], b);
    } else {
      assert a + b == b;
    }
  }

  /** Reading more digits never makes a value smaller. */
  lemma {:induction false} FoldDecimalGrows(acc: nat, ds: string)
    ensures FoldDecimal(acc, ds) >= acc
    decreases ds
  {
    if |ds| > 0 {
      FoldDecimalGrows(acc * 10 + DigitValue(ds[0]), ds[1..]);
    }
  }

  /** Rust's `Display` for an unsigned integer: its decimal digits. */
  function NatToString(n: nat): (s: string)
    ensures |s| >= 1 && AllAsciiDigits(s)
    ensures FoldDecimal(0, s) == n
  {
    var d := ['0' + (n % 10) as char];
    assert DigitValue(d[0]) == n % 10;
    if n < 10 then d
    else
      var prefix := NatToString(n / 10);
      FoldDecimalSnoc(0, prefix, d[0]);
      prefix + d
  }

  /** `s.ends_with(t)`. */
  predicate EndsWith(s: string, t: string)
  {
    |t| <= |s| && s[|s| - |t|..] == t
  }

  /** `s + t` starts with `s` and ends with `t`. */
  lemma EndsWithAppend(s: string, t: string)
    ensures s <= s + t
    ensures EndsWith(s + t, t)
  {
    assert (s + t)[|s|..] == t;
  }

  /** Concatenation is associative. */
  lemma Associative(a: string, b: string, c: string)
    ensures a + b + c == a + (b + c)
  {
  }

  /** `a + b + c` starts with `a` and with `a + b`, and ends with `b + c`
      and with `c`. */
  lemma EndsWithAppend3(a: string, b: string, c: string)
    ensures a <= a + b + c && a + b <= a + b + c
    ensures EndsWith(a + b + c, b + c) && EndsWith(a + b + c, c)
  {
    assert (a + b + c)[|a|..] == b + c;
    assert (a + b + c)[|a + b|..] == c;
  }

  // ---------------------------------------------------------------------------
  // Ordering of strings

  /** `a < b` for Rust `String`s: lexicographic, a proper prefix first. */
  predicate LessString(a: string, b: string): (less: bool)
    ensures less ==> a != b
    ensures |a| < |b| && a == b[..|a|] ==> less
  {
    if |a| == 0 then |b| > 0
    else if |b| == 0 then false
    else if a[0] != b[0] then a[0] < b[0]
    else LessString(a[1..], b[1..])
  }

  lemma {:induction false} LessStringIrreflexive(a: string)
    ensures !LessString(a, a)
  {
    if |a| > 0 {
      LessStringIrreflexive(a[1..]);
    }
  }

  lemma {:induction false} LessStringTransitive(a: string, b: string, c: string)
    requires LessString(a, b) && LessString(b, c)
    ensures LessString(a, c)
  {
    if |a| > 0 && |b| > 0 && |c| > 0 && a[0] == b[0] && b[0] == c[0] {
      LessStringTransitive(a[1..], b[1..], c[1..]);
    }
  }

  lemma {:induction false} LessStringTotal(a: string, b: string)
    ensures a == b || LessString(a, b) || LessString(b, a)
  {
    if |a| > 0 && |b| > 0 && a[0] == b[0] {
      LessStringTotal(a[1..], b[1..]);
      if a[1..] == b[1..] {
        assert a == [a[0]] + a[1..] && b == [b[0]] + b[1..];
      }
    }
  }
}
