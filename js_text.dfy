/** The JavaScript string operations the application relies on, on `seq<char>`:
    `trim`, `split` on one character, `join`, `includes`, `startsWith`,
    `toLowerCase`, a global one-character `replace`, `padStart(2, "0")`,
    number-to-decimal conversion, and the truthiness of an optional string
    (`x || d`). Option and Result stand for `undefined`/`null` and for thrown
    errors or error responses. */
module JsText {

  datatype Option<+T> = None | Some(value: T)

  datatype Result<+T, +E> = Ok(value: T) | Err(error: E)

  /** `s` is a JavaScript truthy string: present and non-empty. */
  predicate Truthy(s: Option<string>) {
    s.Some? && s.value != ""
  }

  /** `s || d` for an optional string. */
  function Or(s: Option<string>, d: string): (r: string)
    ensures Truthy(s) ==> r == s.value
    ensures !Truthy(s) ==> r == d
  {
    if s.Some? && s.value != "" then s.value else d
  }

  /** The characters that ECMAScript's `String.prototype.trim` removes:
      WhiteSpace and LineTerminator code points. */
  predicate IsWhiteSpace(c: char) {
    var n := c as int;
    n == 0x09 || n == 0x0A || n == 0x0B || n == 0x0C || n == 0x0D || n == 0x20
    || n == 0xA0 || n == 0x1680 || (0x2000 <= n <= 0x200A) || n == 0x2028
    || n == 0x2029 || n == 0x202F || n == 0x205F || n == 0x3000 || n == 0xFEFF
  }

  /** Nothing but white space (the empty string included). */
  predicate IsBlank(s: string)
    decreases |s|
  {
    s == [] || (IsWhiteSpace(s[0]) && IsBlank(s[1..]))
  }

  lemma {:induction false} BlankSnoc(x: string, c: char)
    ensures IsBlank(x + [c]) <==> IsBlank(x) && IsWhiteSpace(c)
    decreases |x|
  {
    if x != [] {
      assert (x + [c])[1..] == x[1..] + [c];
      BlankSnoc(x[1..], c);
    }
  }

  /** `s.trimStart()`. */
  function TrimStart(s: string): (r: string)
    ensures |r| <= |s| && r == s[|s| - |r|..]
    ensures r == [] || !IsWhiteSpace(r[0])
    ensures r == [] <==> IsBlank(s)
  {
    if s != [] && IsWhiteSpace(s[0]) then TrimStart(s[1..]) else s
  }

  /** `s.trimEnd()`. */
  function TrimEnd(s: string): (r: string)
    ensures |r| <= |s| && r == s[..|r|]
    ensures r == [] || !IsWhiteSpace(r[|r| - 1])
    ensures r == [] <==> IsBlank(s)
  {
    if s == [] then s
    else
      assert s == s[..|s| - 1] + [s[|s| - 1]];
      BlankSnoc(s[..|s| - 1], s[|s| - 1]);
      if IsWhiteSpace(s[|s| - 1]) then TrimEnd(s[..|s| - 1]) else s
  }

  /** `s.trim()`: `s` without its leading and trailing white space. The result
      is a contiguous piece of `s`, starts and ends with a non-space, and is
      empty exactly when `s` is blank. */
  function Trim(s: string): (r: string)
    ensures exists k :: OccursAt(s, r, k)
    ensures r == [] || (!IsWhiteSpace(r[0]) && !IsWhiteSpace(r[|r| - 1]))
    ensures r == [] <==> IsBlank(s)
  {
    TrimOccurs(s);
    TrimEnd(TrimStart(s))
  }

  lemma TrimOccurs(s: string)
    ensures OccursAt(s, TrimEnd(TrimStart(s)), |s| - |TrimStart(s)|)
  {
    var a := TrimStart(s);
    PrefixOfSuffix(s, a, TrimEnd(a), |s| - |a|);
  }

  /** A prefix of a suffix of `s` occurs in `s` where the suffix starts. */
  lemma PrefixOfSuffix(s: string, a: string, r: string, p: nat)
    requires p <= |s| && a == s[p..] && |r| <= |a| && r == a[..|r|]
    ensures OccursAt(s, r, p)
  {
    assert s[p..][..|r|] == s[p..p + |r|];
  }

  /** A string that neither starts nor ends with white space is its own trim. */
  lemma TrimTrimmed(s: string)
    requires s == [] || (!IsWhiteSpace(s[0]) && !IsWhiteSpace(s[|s| - 1]))
    ensures Trim(s) == s
  {
  }

  /** `s.split(sep)` for a one-character separator: the pieces between the
      occurrences of `sep`, in order. There is always at least one piece. */
  function SplitOn(s: string, sep: char): (r: seq<string>)
    ensures |r| >= 1
  {
    if s == [] then [""]
    else
      var rest := SplitOn(s[1..], sep);
      if s[0] == sep then [""] + rest
      else [[s[0]] + rest[0]] + rest[1..]
  }

  /** `parts.join(sep)`. */
  function Join(parts: seq<string>, sep: string): string {
    if |parts| == 0 then ""
    else if |parts| == 1 then parts[0]
    else parts[0] + sep + Join(parts[1..], sep)
  }

  /** A join starts with its first part. */
  lemma JoinStartsWith(parts: seq<string>, sep: string)
    requires |parts| >= 1
    ensures StartsWith(Join(parts, sep), parts[0])
  {
    if |parts| > 1 {
      var j := Join(parts, sep);
      assert j == parts[0] + (sep + Join(parts[1..], sep));
      assert j[..|parts[0]|] == parts[0];
    }
  }

  /** A join ends with its last part. */
  lemma {:induction false} JoinEndsWith(parts: seq<string>, sep: string)
    requires |parts| >= 1
    ensures EndsWith(Join(parts, sep), parts[|parts| - 1])
    decreases |parts|
  {
    if |parts| > 1 {
      var rest := Join(parts[1..], sep);
      JoinEndsWith(parts[1..], sep);
      var j := Join(parts, sep);
      var last := parts[|parts| - 1];
      assert j == (parts[0] + sep) + rest;
      assert rest[|rest| - |last|..] == last;
      assert j[|j| - |last|..] == rest[|rest| - |last|..];
    }
  }

  /** Joining the pieces of a split with the separator gives the input back. */
  lemma {:induction false} JoinSplit(s: string, sep: char)
    ensures Join(SplitOn(s, sep), [sep]) == s
  {
    if s != [] {
      var rest := SplitOn(s[1..], sep);
      JoinSplit(s[1..], sep);
      if s[0] == sep {
        assert SplitOn(s, sep) == [""] + rest;
        assert ([""] + rest)[1..] == rest;
      } else {
        var r := SplitOn(s, sep);
        assert r == [[s[0]] + rest[0]] + rest[1..];
        if |rest| == 1 {
          assert Join(r, [sep]) == [s[0]] + rest[0];
        } else {
          assert r[1..] == rest[1..];
          assert Join(rest, [sep]) == rest[0] + [sep] + Join(rest[1..], [sep]);
        }
      }
    }
  }

  /** Splitting a concatenation: the last piece of `a` and the first piece of
      `b` fuse; all other pieces are kept in order. */
  lemma {:induction false} SplitOnConcat(a: string, b: string, sep: char)
    ensures var sa, sb := SplitOn(a, sep), SplitOn(b, sep);
            SplitOn(a + b, sep) == sa[..|sa| - 1] + [sa[|sa| - 1] + sb[0]] + sb[1..]
  {
    var sb := SplitOn(b, sep);
    if a == [] {
      assert a + b == b;
      assert "" + sb[0] == sb[0];
      assert [sb[0]] + sb[1..] == sb;
    } else {
      var t := a[1..];
      assert a == [a[0]] + t;
      assert a + b == [a[0]] + (t + b);
      SplitOnConcat(t, b, sep);
      if a[0] == sep {
        SplitOnSeparatorFirst(t + b, sep);
        SplitOnSeparatorFirst(t, sep);
        FuseAfterSeparator(SplitOn(t, sep), sb, SplitOn(t + b, sep));
      } else {
        SplitOnOtherFirst(a[0], t + b, sep);
        SplitOnOtherFirst(a[0], t, sep);
        FuseAfterOther(a[0], SplitOn(t, sep), sb, SplitOn(t + b, sep));
      }
    }
  }

  /** The inductive step of SplitOnConcat when `a` starts with the separator,
      stated on the pieces alone. */
  lemma FuseAfterSeparator(st: seq<string>, sb: seq<string>, r: seq<string>)
    requires |st| >= 1 && |sb| >= 1
    requires r == st[..|st| - 1] + [st[|st| - 1] + sb[0]] + sb[1..]
    ensures var sa := [""] + st;
            [""] + r == sa[..|sa| - 1] + [sa[|sa| - 1] + sb[0]] + sb[1..]
  {
    var sa := [""] + st;
    assert sa[..|sa| - 1] == [""] + st[..|st| - 1];
  }

  /** The inductive step of SplitOnConcat when `a` starts with another
      character `c`, stated on the pieces alone. */
  lemma FuseAfterOther(c: char, st: seq<string>, sb: seq<string>, r: seq<string>)
    requires |st| >= 1 && |sb| >= 1
    requires r == st[..|st| - 1] + [st[|st| - 1] + sb[0]] + sb[1..]
    ensures var sa := [[c] + st[0]] + st[1..];
            [[c] + r[0]] + r[1..] == sa[..|sa| - 1] + [sa[|sa| - 1] + sb[0]] + sb[1..]
  {
    var sa := [[c] + st[0]] + st[1..];
    if |st| == 1 {
      assert r == [st[0] + sb[0]] + sb[1..];
      assert [c] + r[0] == ([c] + st[0]) + sb[0];
    } else {
      assert r[0] == st[0];
      assert r[1..] == st[1..|st| - 1] + [st[|st| - 1] + sb[0]] + sb[1..];
      assert sa[..|sa| - 1] == [[c] + st[0]] + st[1..|st| - 1];
    }
  }

  lemma SplitOnSeparatorFirst(t: string, sep: char)
    ensures SplitOn([sep] + t, sep) == [""] + SplitOn(t, sep)
  {
    assert ([sep] + t)[1..] == t;
  }

  lemma SplitOnOtherFirst(c: char, t: string, sep: char)
    requires c != sep
    ensures var st := SplitOn(t, sep); SplitOn([c] + t, sep) == [[c] + st[0]] + st[1..]
  {
    assert ([c] + t)[1..] == t;
  }

  /** No piece of a split contains the separator, nor any character that
      does not occur in the input. */
  lemma {:induction false} SplitOnAvoids(s: string, sep: char, c: char)
    requires c == sep || c !in s
    ensures forall i :: 0 <= i < |SplitOn(s, sep)| ==> c !in SplitOn(s, sep)[i]
  {
    if s != [] {
      assert c == sep || c !in s[1..] by {
        if c != sep {
          forall i | 0 <= i < |s| - 1 ensures s[1..][i] != c { assert s[1..][i] == s[i + 1]; }
        }
      }
      SplitOnAvoids(s[1..], sep, c);
      var rest := SplitOn(s[1..], sep);
      if s[0] != sep {
        assert c !in [s[0]] + rest[0];
        assert SplitOn(s, sep) == [[s[0]] + rest[0]] + rest[1..];
      }
    }
  }

  /** Appending `v` to `d` only re-splits the last piece of `d`: the pieces
      before it stay as they were. */
  lemma SplitOnAfterLast(d: string, v: string, sep: char)
    ensures var sd := SplitOn(d, sep);
            SplitOn(d + v, sep) == sd[..|sd| - 1] + SplitOn(sd[|sd| - 1] + v, sep)
  {
    var sd := SplitOn(d, sep);
    var last := sd[|sd| - 1];
    SplitOnConcat(d, v, sep);
    SplitOnLastFree(d, sep);
    SplitOnNoSeparator(last, sep);
    SplitOnConcat(last, v, sep);
    Regroup(sd[..|sd| - 1], last, SplitOn(v, sep), SplitOn(last + v, sep), SplitOn(d + v, sep));
  }

  lemma Regroup<T>(init: seq<seq<T>>, last: seq<T>, sv: seq<seq<T>>, tail: seq<seq<T>>, whole: seq<seq<T>>)
    requires |sv| >= 1
    requires whole == init + [last + sv[0]] + sv[1..]
    requires tail == [last][..0] + [[last][0] + sv[0]] + sv[1..]
    ensures whole == init + tail
  {
    assert [last][..0] == [];
  }

  lemma SplitOnLastFree(d: string, sep: char)
    ensures var sd := SplitOn(d, sep); sep !in sd[|sd| - 1]
  {
    SplitOnAvoids(d, sep, sep);
  }

  /** A string without the separator is its own single piece. */
  lemma {:induction false} SplitOnNoSeparator(s: string, sep: char)
    requires sep !in s
    ensures SplitOn(s, sep) == [s]
  {
    if s != [] {
      assert sep !in s[1..] by {
        forall i | 0 <= i < |s| - 1 ensures s[1..][i] != sep { assert s[1..][i] == s[i + 1]; }
      }
      SplitOnNoSeparator(s[1..], sep);
      assert [s[0]] + s[1..] == s;
    }
  }

  /** A separator-free piece followed by the separator splits off as the
      first piece. */
  lemma {:induction false} SplitAfterFree(a: string, t: string, sep: char)
    requires sep !in a
    ensures SplitOn(a + ([sep] + t), sep) == [a] + SplitOn(t, sep)
  {
    var w := a + ([sep] + t);
    if a == [] {
      assert w == [sep] + t;
      SplitOnSeparatorFirst(t, sep);
    } else {
      assert sep !in a[1..] by {
        forall i | 0 <= i < |a| - 1 ensures a[1..][i] != sep { assert a[1..][i] == a[i + 1]; }
      }
      assert w[1..] == a[1..] + ([sep] + t);
      SplitAfterFree(a[1..], t, sep);
      assert w[0] == a[0] && a[0] != sep;
      assert [a[0]] + a[1..] == a;
    }
  }

  /** Splitting a join of separator-free pieces gives the pieces back. */
  lemma {:induction false} SplitJoin(parts: seq<string>, sep: char)
    requires |parts| >= 1
    requires forall i :: 0 <= i < |parts| ==> sep !in parts[i]
    ensures SplitOn(Join(parts, [sep]), sep) == parts
  {
    if |parts| == 1 {
      SplitOnNoSeparator(parts[0], sep);
      assert parts == [parts[0]];
    } else {
      var tail := Join(parts[1..], [sep]);
      SplitJoin(parts[1..], sep);
      assert Join(parts, [sep]) == parts[0] + ([sep] + tail);
      SplitAfterFree(parts[0], tail, sep);
      assert parts == [parts[0]] + parts[1..];
    }
  }

  /** Dropping one trailing white-space character does not change the trim. */
  lemma TrimDropLastSpace(x: string, c: char)
    requires IsWhiteSpace(c)
    ensures Trim(x + [c]) == Trim(x)
  {
    if IsBlank(x) {
      BlankSnoc(x, c);
    } else {
      TrimStartSnoc(x, c);
      var a := TrimStart(x);
      assert a + [c] != [] && (a + [c])[..|a|] == a;
    }
  }

  lemma {:induction false} TrimStartSnoc(x: string, c: char)
    requires !IsBlank(x)
    ensures TrimStart(x + [c]) == TrimStart(x) + [c]
    decreases |x|
  {
    assert (x + [c])[0] == x[0];
    assert (x + [c])[1..] == x[1..] + [c];
    if IsWhiteSpace(x[0]) {
      TrimStartSnoc(x[1..], c);
    }
  }

  /** Leading white space does not change the trim. */
  lemma {:induction false} TrimDropLeadingSpace(w: string, x: string)
    requires IsBlank(w)
    ensures Trim(w + x) == Trim(x)
    decreases |w|
  {
    if w != [] {
      assert (w + x)[0] == w[0] && (w + x)[1..] == w[1..] + x;
      TrimDropLeadingSpace(w[1..], x);
    } else {
      assert w + x == x;
    }
  }

  predicate StartsWith(s: string, prefix: string) {
    |prefix| <= |s| && s[..|prefix|] == prefix
  }

  predicate EndsWith(s: string, suffix: string) {
    |suffix| <= |s| && s[|s| - |suffix|..] == suffix
  }

  lemma StartsWithTrans(s: string, p: string, q: string)
    requires StartsWith(s, p) && StartsWith(p, q)
    ensures StartsWith(s, q)
  {
    assert s[..|q|] == s[..|p|][..|q|];
  }

  lemma EndsWithTrans(s: string, p: string, q: string)
    requires EndsWith(s, p) && EndsWith(p, q)
    ensures EndsWith(s, q)
  {
    assert s[|s| - |q|..] == s[|s| - |p|..][|p| - |q|..];
  }

  /** `sub` occurs in `s` starting at index `k`. */
  predicate OccursAt(s: string, sub: string, k: int) {
    0 <= k <= |s| - |sub| && s[k..k + |sub|] == sub
  }

  /** `s.includes(sub)`. */
  predicate Contains(s: string, sub: string)
    decreases |s|
  {
    StartsWith(s, sub) || (s != [] && Contains(s[1..], sub))
  }

  /** `includes` holds exactly when `sub` occurs at some position of `s`. */
  lemma {:induction false} ContainsAt(s: string, sub: string)
    ensures Contains(s, sub) <==> exists k :: OccursAt(s, sub, k)
  {
    if StartsWith(s, sub) {
      assert OccursAt(s, sub, 0);
    } else if s != [] {
      ContainsAt(s[1..], sub);
      if Contains(s[1..], sub) {
        var k :| OccursAt(s[1..], sub, k);
        assert s[k + 1..k + 1 + |sub|] == s[1..][k..k + |sub|];
        assert OccursAt(s, sub, k + 1);
      }
      if k :| OccursAt(s, sub, k) {
        assert k != 0;
        assert s[1..][k - 1..k - 1 + |sub|] == s[k..k + |sub|];
        assert OccursAt(s[1..], sub, k - 1);
      }
    }
  }

  /** `toLowerCase` on one character: the ASCII letters and the upper-case
      letters of Latin-1 (U+00C0 to U+00DE except U+00D7). */
  function LowerChar(c: char): char {
    if 'A' <= c <= 'Z' || (0xC0 <= c as int <= 0xDE && c as int != 0xD7) then (c as int + 32) as char else c
  }

  function ToLower(s: string): (r: string)
    ensures |r| == |s|
    ensures forall i :: 0 <= i < |s| ==> r[i] == LowerChar(s[i])
  {
    seq(|s|, i requires 0 <= i < |s| => LowerChar(s[i]))
  }

  /** `s.replace(/<from>/g, to)` for one character. */
  function ReplaceAll(s: string, from: char, to: char): (r: string)
    ensures |r| == |s|
    ensures forall i :: 0 <= i < |s| ==> r[i] == if s[i] == from then to else s[i]
  {
    seq(|s|, i requires 0 <= i < |s| => if s[i] == from then to else s[i])
  }

  /** The case folding of a regular expression with the `i` flag and no `u`
      flag, restricted to the ASCII letters it can match here. */
  function AsciiLowerChar(c: char): char {
    if 'A' <= c <= 'Z' then (c as int + 32) as char else c
  }

  function AsciiLower(s: string): (r: string)
    ensures |r| == |s|
    ensures forall i :: 0 <= i < |s| ==> r[i] == AsciiLowerChar(s[i])
  {
    seq(|s|, i requires 0 <= i < |s| => AsciiLowerChar(s[i]))
  }

  predicate IsDigit(c: char) {
    '0' <= c <= '9'
  }

  function DigitValue(c: char): (d: nat)
    requires IsDigit(c)
    ensures d < 10 && DigitChar(d) == c
  {
    c as int - '0' as int
  }

  function DigitChar(d: nat): char
    requires d < 10
  {
    ('0' as int + d) as char
  }

  /** The decimal form of a natural number, as `String(n)` writes it. */
  function NatToString(n: nat): (r: string)
    ensures |r| >= 1
    ensures forall i :: 0 <= i < |r| ==> '0' <= r[i] <= '9'
    decreases n
  {
    if n < 10 then [DigitChar(n)] else NatToString(n / 10) + [DigitChar(n % 10)]
  }

  /** `String(n).padStart(2, "0")`. */
  function Pad2(n: nat): (r: string)
    ensures n < 100 ==> |r| == 2
  {
    var s := NatToString(n);
    assert 10 <= n < 100 ==> |NatToString(n / 10)| == 1;
    if |s| < 2 then "0" + s else s
  }

  /** Two decimal digits are their own zero-padded rendering. */
  lemma Pad2Digits(a: char, b: char)
    requires IsDigit(a) && IsDigit(b)
    ensures Pad2(10 * DigitValue(a) + DigitValue(b)) == [a, b]
  {
    var n := 10 * DigitValue(a) + DigitValue(b);
    if n < 10 {
      assert DigitValue(a) == 0;
      assert NatToString(n) == [b];
    } else {
      assert n / 10 == DigitValue(a) && n % 10 == DigitValue(b);
      assert NatToString(n) == NatToString(DigitValue(a)) + [b];
    }
  }

  /** Four decimal digits without a leading zero are the rendering of their
      value. */
  lemma FourDigits(a: char, b: char, c: char, d: char)
    requires IsDigit(a) && IsDigit(b) && IsDigit(c) && IsDigit(d) && a != '0'
    ensures NatToString(1000 * DigitValue(a) + 100 * DigitValue(b) + 10 * DigitValue(c) + DigitValue(d)) == [a, b, c, d]
  {
    var va, vb, vc, vd := DigitValue(a), DigitValue(b), DigitValue(c), DigitValue(d);
    var n := 1000 * va + 100 * vb + 10 * vc + vd;
    assert n / 10 == 100 * va + 10 * vb + vc && n % 10 == vd;
    assert (n / 10) / 10 == 10 * va + vb && (n / 10) % 10 == vc;
    assert ((n / 10) / 10) / 10 == va && ((n / 10) / 10) % 10 == vb;
    var n1, n2 := n / 10, (n / 10) / 10;
    assert NatToString(n2 / 10) == [a];
    assert NatToString(n2) == [a] + [b];
    assert NatToString(n1) == [a, b] + [c];
    assert NatToString(n) == [a, b, c] + [d];
  }

  /** `xs.map(f)`. */
  function Mapped<T, U>(xs: seq<T>, f: T -> U): (r: seq<U>)
    ensures |r| == |xs|
    ensures forall i :: 0 <= i < |xs| ==> r[i] == f(xs[i])
  {
    seq(|xs|, i requires 0 <= i < |xs| => f(xs[i]))
  }

  /** `xs.flatMap(f)`: the results of `f` on each element, concatenated in
      order. */
  function FlatMap<T, U>(xs: seq<T>, f: T -> seq<U>): seq<U> {
    if xs == [] then [] else FlatMap(xs[..|xs| - 1], f) + f(xs[|xs| - 1])
  }

  lemma {:induction false} FlatMapConcat<T, U>(a: seq<T>, b: seq<T>, f: T -> seq<U>)
    ensures FlatMap(a + b, f) == FlatMap(a, f) + FlatMap(b, f)
    decreases |b|
  {
    if b == [] {
      assert a + b == a;
    } else {
      var b' := b[..|b| - 1];
      assert (a + b)[..|a + b| - 1] == a + b';
      assert (a + b)[|a + b| - 1] == b[|b| - 1];
      FlatMapConcat(a, b', f);
    }
  }

  lemma FlatMapSnoc<T, U>(xs: seq<T>, j: nat, f: T -> seq<U>)
    requires j < |xs|
    ensures FlatMap(xs[..j + 1], f) == FlatMap(xs[..j], f) + f(xs[j])
  {
    assert xs[..j + 1][..j] == xs[..j];
  }

  /** When `f` yields at most one element, so does the whole map per element. */
  lemma {:induction false} FlatMapBound<T, U>(xs: seq<T>, f: T -> seq<U>)
    requires forall x :: |f(x)| <= 1
    ensures |FlatMap(xs, f)| <= |xs|
    decreases |xs|
  {
    if xs != [] {
      FlatMapBound(xs[..|xs| - 1], f);
    }
  }

  lemma ConcatAssoc<T>(a: seq<T>, b: seq<T>, c: seq<T>)
    ensures a + b + c == a + (b + c)
  {
  }

  /** The part contributed by the element at `i` sits between the parts of
      the elements before and after it. */
  lemma FlatMapAround<T, U>(xs: seq<T>, i: nat, f: T -> seq<U>)
    requires i < |xs|
    ensures FlatMap(xs, f) == FlatMap(xs[..i], f) + f(xs[i]) + FlatMap(xs[i + 1..], f)
  {
    var pre, mid, post := xs[..i], [xs[i]], xs[i + 1..];
    SplitAround(xs, i);
    FlatMapConcat(pre + mid, post, f);
    FlatMapConcat(pre, mid, f);
    FlatMapSingle(xs[i], f);
  }

  lemma SplitAround<T>(xs: seq<T>, i: nat)
    requires i < |xs|
    ensures xs == (xs[..i] + [xs[i]]) + xs[i + 1..]
  {
  }

  lemma FlatMapSingle<T, U>(x: T, f: T -> seq<U>)
    ensures FlatMap([x], f) == f(x)
  {
    assert [x][..0] == [];
  }

  /** `xs.filter(x => x !== id)`. */
  function Without<T(==)>(sel: seq<T>, id: T): (r: seq<T>)
    ensures |r| <= |sel|
    ensures id !in r
  {
    if sel == [] then []
    else
      var init := Without(sel[..|sel| - 1], id);
      if sel[|sel| - 1] == id then init else init + [sel[|sel| - 1]]
  }

  lemma {:induction false} WithoutMember<T>(sel: seq<T>, id: T, x: T)
    ensures x in Without(sel, id) <==> x in sel && x != id
  {
    if sel != [] {
      var init := sel[..|sel| - 1];
      assert sel == init + [sel[|sel| - 1]];
      WithoutMember(init, id, x);
    }
  }

  lemma {:induction false} WithoutAbsent<T>(sel: seq<T>, id: T)
    requires id !in sel
    ensures Without(sel, id) == sel
  {
    if sel != [] {
      var init := sel[..|sel| - 1];
      assert sel == init + [sel[|sel| - 1]];
      WithoutAbsent(init, id);
    }
  }

  lemma {:induction false} WithoutShorter<T>(sel: seq<T>, id: T)
    requires id in sel
    ensures |Without(sel, id)| < |sel|
  {
    var init := sel[..|sel| - 1];
    if sel[|sel| - 1] != id {
      assert id in init by { assert sel == init + [sel[|sel| - 1]]; }
      WithoutShorter(init, id);
    }
  }

}
