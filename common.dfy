/**
 * Shared vocabulary of the camera tools: optional values and Python-style
 * failures, the few string operations the scripts lean on (prefix tests,
 * ASCII case mapping, int() and str() on integers, str.replace) and
 * os.path.splitext, which every output-filename rule goes through.
 */
module Common {

  datatype Option<T> = None | Some(value: T)

  /** The exception classes the modelled code raises or lets escape. */
  datatype Error =
    | ValueError
    | KeyError
    | IndexError
    | TypeError
    | AttributeError
    | OSError
    | RuntimeError
    | AssertionError
    | GenericException   // a bare `Exception(...)`
    | SdkError           // an exception raised inside the camera SDK

  datatype Result<T> = Ok(value: T) | Err(error: Error)

  predicate StartsWith(s: string, prefix: string)
  {
    |prefix| <= |s| && s[..|prefix|] == prefix
  }

  predicate EndsWith(s: string, suffix: string)
  {
    |suffix| <= |s| && s[|s| - |suffix|..] == suffix
  }

  // ---------------------------------------------------------------------
  // Case mapping (ASCII letters only)
  // ---------------------------------------------------------------------

  function LowerChar(c: char): char
  {
    if 'A' <= c <= 'Z' then (c as int + 32) as char else c
  }

  function UpperChar(c: char): char
  {
    if 'a' <= c <= 'z' then (c as int - 32) as char else c
  }

  function Lower(s: string): (r: string)
    ensures |r| == |s|
  {
    seq(|s|, i requires 0 <= i < |s| => LowerChar(s[i]))
  }

  function Upper(s: string): (r: string)
    ensures |r| == |s|
  {
    seq(|s|, i requires 0 <= i < |s| => UpperChar(s[i]))
  }

  // ---------------------------------------------------------------------
  // str(n) and int(s) on integers
  // ---------------------------------------------------------------------

  predicate IsDigit(c: char)
  {
    '0' <= c <= '9'
  }

  function DigitChar(d: nat): char
    requires d < 10
  {
    ('0' as int + d) as char
  }

  function DigitValue(c: char): nat
    requires IsDigit(c)
  {
    c as int - '0' as int
  }

  /** Decimal digits of n, most significant first, without leading zeros. */
  function NatToString(n: nat): (s: string)
    ensures |s| > 0
    ensures forall i :: 0 <= i < |s| ==> IsDigit(s[i])
  {
    if n < 10 then [DigitChar(n)] else NatToString(n / 10) + [DigitChar(n % 10)]
  }

  /** Python's str() of an int. */
  function IntToString(n: int): (s: string)
    ensures |s| > 0
    ensures forall i :: 0 <= i < |s| ==> IsDigit(s[i]) || s[i] == '-'
  {
    if n < 0 then "-" + NatToString(-n) else NatToString(n)
  }

  function DigitsValue(s: string): nat
    requires forall i :: 0 <= i < |s| ==> IsDigit(s[i])
  {
    if s == [] then 0 else DigitsValue(s[..|s| - 1]) * 10 + DigitValue(s[|s| - 1])
  }

  predicate AllDigits(s: string)
  {
    forall i :: 0 <= i < |s| ==> IsDigit(s[i])
  }

  /**
   * Python's int() on a string: an optional sign followed by one or more
   * decimal digits; anything else is a ValueError.
   */
  function ParseInt(s: string): (r: Result<int>)
    ensures r.Err? ==> r.error == ValueError
    ensures r.Ok? <==> (|s| > 0 && ((s[0] == '-' || s[0] == '+') ==> |s| > 1) &&
                       AllDigits(if s[0] == '-' || s[0] == '+' then s[1..] else s))
  {
    if |s| == 0 then Err(ValueError)
    else if s[0] == '-' || s[0] == '+' then
      var body := s[1..];
      if |body| > 0 && AllDigits(body) then
        var v: int := DigitsValue(body);
        Ok(if s[0] == '-' then -v else v)
      else Err(ValueError)
    else if AllDigits(s) then Ok(DigitsValue(s))
    else Err(ValueError)
  }

  lemma {:induction false} DigitsOfNat(n: nat)
    ensures DigitsValue(NatToString(n)) == n
  {
    if n >= 10 {
      var s := NatToString(n);
      var front := NatToString(n / 10);
      assert s == front + [DigitChar(n % 10)];
      assert s[..|s| - 1] == front;
      DigitsOfNat(n / 10);
    }
  }

  /** int(str(n)) == n: the two conversions are inverse on every integer. */
  lemma ParseIntOfIntToString(n: int)
    ensures ParseInt(IntToString(n)) == Ok(n)
  {
    if n < 0 {
      DigitsOfNat(-n);
      assert IntToString(n)[1..] == NatToString(-n);
    } else {
      DigitsOfNat(n);
      assert IntToString(n)[0] != '-' && IntToString(n)[0] != '+';
    }
  }

  // ---------------------------------------------------------------------
  // os.path.splitext (POSIX)
  // ---------------------------------------------------------------------

  /** Index of the last occurrence of c in s, or -1 when there is none. */
  function LastIndexOf(s: string, c: char): (r: int)
    ensures -1 <= r < |s|
    ensures r >= 0 ==> s[r] == c
    ensures forall j :: r < j < |s| ==> s[j] != c
  {
    if |s| == 0 then -1
    else if s[|s| - 1] == c then |s| - 1
    else LastIndexOf(s[..|s| - 1], c)
  }

  /** Some character strictly between positions lo and hi of p is not a dot. */
  predicate HasStem(p: string, lo: int, hi: int)
    requires -1 <= lo && hi <= |p|
  {
    exists k :: lo < k < hi && p[k] != '.'
  }

  /**
   * os.path.splitext: the extension is the suffix that starts at the last
   * '.' of the final path component, provided that component has some
   * non-dot character before that '.'; otherwise the extension is empty.
   */
  function SplitExt(p: string): (r: (string, string))
    ensures r.0 + r.1 == p
    ensures r.1 == [] || (r.1[0] == '.' && '.' !in r.1[1..] && '/' !in r.1)
    ensures r.1 != [] ==> exists k :: 0 <= k < |r.0| && r.0[k] != '.' && '/' !in r.0[k..]
  {
    var sep := LastIndexOf(p, '/');
    var dot := LastIndexOf(p, '.');
    if dot > sep && HasStem(p, sep, dot) then
      var k :| sep < k < dot && p[k] != '.';
      assert p[..dot][k..] == p[k..dot];
      (p[..dot], p[dot..])
    else (p, [])
  }

  function Root(p: string): string { SplitExt(p).0 }

  function Ext(p: string): string { SplitExt(p).1 }

  lemma {:induction false} LastIndexOfAppend(a: string, b: string, c: char)
    ensures LastIndexOf(a + b, c) ==
            (if LastIndexOf(b, c) >= 0 then |a| + LastIndexOf(b, c) else LastIndexOf(a, c))
    decreases |b|
  {
    if |b| > 0 {
      assert (a + b)[..|a + b| - 1] == a + b[..|b| - 1];
      if b[|b| - 1] != c {
        LastIndexOfAppend(a, b[..|b| - 1], c);
      }
    } else {
      assert a + b == a;
    }
  }

  lemma LastIndexOfAbsent(s: string, c: char)
    requires c !in s
    ensures LastIndexOf(s, c) == -1
  {
  }

  /** A path with no extension keeps none when a dot-free, slash-free piece is appended. */
  lemma SplitExtAppendPlain(p: string, t: string)
    requires '.' !in t && '/' !in t && Ext(p) == []
    ensures SplitExt(p + t) == (p + t, [])
  {
    var q := p + t;
    var sep, dot := LastIndexOf(p, '/'), LastIndexOf(p, '.');
    LastIndexOfAbsent(t, '.');
    LastIndexOfAbsent(t, '/');
    LastIndexOfAppend(p, t, '.');
    LastIndexOfAppend(p, t, '/');
    assert LastIndexOf(q, '.') == dot && LastIndexOf(q, '/') == sep;
    assert forall k :: 0 <= k < |p| ==> q[k] == p[k];
  }

  /** With an extension, a dot-free, slash-free piece inserted before it joins the root. */
  lemma SplitExtInsertBeforeExt(p: string, t: string)
    requires '.' !in t && '/' !in t && Ext(p) != []
    ensures SplitExt(Root(p) + t + Ext(p)) == (Root(p) + t, Ext(p))
  {
    var root, ext := Root(p), Ext(p);
    var q := root + t + ext;
    var sep, dot := LastIndexOf(p, '/'), LastIndexOf(p, '.');
    assert p == root + ext;
    LastIndexOfAbsent(t, '.');
    LastIndexOfAbsent(t, '/');
    LastIndexOfAbsent(ext[1..], '.');
    LastIndexOfAbsent(ext, '/');
    assert ext == [ext[0]] + ext[1..];
    LastIndexOfAppend([ext[0]], ext[1..], '.');
    LastIndexOfAppend(root + t, ext, '.');
    LastIndexOfAppend(root + t, ext, '/');
    LastIndexOfAppend(root, t, '/');
    LastIndexOfAppend(root, ext, '/');
    LastIndexOfAppend(root, ext, '.');
    assert dot == |root|;
    assert LastIndexOf(q, '.') == |root| + |t|;
    assert LastIndexOf(q, '/') == sep;
    var k :| sep < k < dot && p[k] != '.';
    assert q[k] == p[k];
    assert HasStem(q, sep, |root| + |t|);
    assert q[..|root| + |t|] == root + t;
    assert q[|root| + |t|..] == ext;
  }

  /**
   * Inserting a piece with no '.' and no '/' between the root and the
   * extension of a path leaves the extension where it was.
   */
  lemma SplitExtInsert(p: string, t: string)
    requires '.' !in t && '/' !in t
    ensures SplitExt(Root(p) + t + Ext(p)) == (Root(p) + t, Ext(p))
  {
    if Ext(p) == [] {
      assert Root(p) + t + Ext(p) == p + t;
      SplitExtAppendPlain(p, t);
    } else {
      SplitExtInsertBeforeExt(p, t);
    }
  }

  /**
   * Appending a dot and a dot-free, slash-free suffix to a path makes that
   * suffix the extension, as long as the final path component holds a
   * character other than '.'.
   */
  lemma SplitExtAppendExt(p: string, e: string)
    requires exists k :: 0 <= k < |p| && p[k] != '.' && '/' !in p[k..]
    requires '.' !in e && '/' !in e
    ensures SplitExt(p + ['.'] + e) == (p, ['.'] + e)
  {
    var q := p + ['.'] + e;
    var k :| 0 <= k < |p| && p[k] != '.' && '/' !in p[k..];
    LastIndexOfAbsent(e, '.');
    LastIndexOfAbsent(e, '/');
    LastIndexOfAppend(p + ['.'], e, '.');
    LastIndexOfAppend(p + ['.'], e, '/');
    LastIndexOfAppend(p, ['.'], '/');
    assert LastIndexOf(q, '.') == |p|;
    var sep := LastIndexOf(q, '/');
    assert sep == LastIndexOf(p, '/');
    assert q[k] == p[k];
    assert HasStem(q, sep, |p|);
    assert q[..|p|] == p;
    assert q[|p|..] == ['.'] + e;
  }

  // ---------------------------------------------------------------------
  // str.replace and list filtering
  // ---------------------------------------------------------------------

  /** Python's str.replace(old, new): every non-overlapping occurrence, left to right. */
  function ReplaceAll(s: string, pat: string, rep: string): string
    requires |pat| > 0
    decreases |s|
  {
    if |s| < |pat| then s
    else if s[..|pat|] == pat then rep + ReplaceAll(s[|pat|..], pat, rep)
    else [s[0]] + ReplaceAll(s[1..], pat, rep)
  }

  /** The items whose flag is set, in their original order. */
  function Checked<T>(flags: seq<bool>, items: seq<T>): (r: seq<T>)
    requires |flags| == |items|
    ensures |r| <= |items|
    ensures forall x :: x in r ==> x in items
  {
    if items == [] then []
    else Checked(flags[..|flags| - 1], items[..|items| - 1]) +
         (if flags[|flags| - 1] then [items[|items| - 1]] else [])
  }

  /** The order-preserving loop that builds a list of the checked items by appending. */
  method CollectChecked<T>(flags: seq<bool>, items: seq<T>) returns (r: seq<T>)
    requires |flags| == |items|
    ensures r == Checked(flags, items)
  {
    r := [];
    var i := 0;
    while i < |items|
      invariant 0 <= i <= |items|
      invariant r == Checked(flags[..i], items[..i])
    {
      assert flags[..i + 1][..i] == flags[..i];
      assert items[..i + 1][..i] == items[..i];
      if flags[i] {
        r := r + [items[i]];
      }
      i := i + 1;
    }
    assert flags[..i] == flags && items[..i] == items;
  }

  /** A value survives the filter exactly when some flagged item equals it. */
  lemma {:induction false} CheckedMembers<T>(flags: seq<bool>, items: seq<T>, x: T)
    requires |flags| == |items|
    ensures x in Checked(flags, items) <==> exists i :: 0 <= i < |items| && flags[i] && items[i] == x
  {
    if items != [] {
      var n := |items| - 1;
      CheckedMembers(flags[..n], items[..n], x);
      if x in Checked(flags, items) && x !in Checked(flags[..n], items[..n]) {
        assert flags[n] && items[n] == x;
      }
      if exists i :: 0 <= i < |items| && flags[i] && items[i] == x {
        var i :| 0 <= i < |items| && flags[i] && items[i] == x;
        if i < n {
          assert flags[..n][i] && items[..n][i] == x;
        }
      }
    }
  }

  /** When no flag is set nothing is kept, when all are set everything is. */
  lemma {:induction false} CheckedAllOrNone<T>(flags: seq<bool>, items: seq<T>)
    requires |flags| == |items|
    ensures (forall i :: 0 <= i < |flags| ==> flags[i]) ==> Checked(flags, items) == items
    ensures (forall i :: 0 <= i < |flags| ==> !flags[i]) ==> Checked(flags, items) == []
  {
    if items != [] {
      var n := |items| - 1;
      CheckedAllOrNone(flags[..n], items[..n]);
      assert items[..n] + [items[n]] == items;
    }
  }

  /** With exactly one flag set, at position k, the result is the single item k. */
  lemma {:induction false} CheckedSingle<T>(flags: seq<bool>, items: seq<T>, k: nat)
    requires |flags| == |items| && k < |items|
    requires forall i :: 0 <= i < |flags| ==> (flags[i] <==> i == k)
    ensures Checked(flags, items) == [items[k]]
  {
    var n := |items| - 1;
    if k == n {
      CheckedAllOrNone(flags[..n], items[..n]);
    } else {
      CheckedSingle(flags[..n], items[..n], k);
    }
  }

  /** The position of the first failure, or the length when nothing fails. */
  function FirstSome<T>(xs: seq<Option<T>>): (f: nat)
    ensures f <= |xs|
    ensures forall p :: 0 <= p < f ==> xs[p].None?
    ensures f < |xs| ==> xs[f].Some?
  {
    if xs == [] || xs[0].Some? then 0 else 1 + FirstSome(xs[1..])
  }

  /** No entry before k is a failure. */
  predicate NoneBefore<T>(xs: seq<Option<T>>, k: nat)
  {
    k <= |xs| && forall p :: 0 <= p < k ==> xs[p].None?
  }

  /** A further entry that is not a failure extends the failure-free prefix. */
  lemma NoneBeforeStep<T>(xs: seq<Option<T>>, k: nat)
    requires NoneBefore(xs, k) && k < |xs| && xs[k].None?
    ensures NoneBefore(xs, k + 1)
  {
  }

  /** Where every entry before k is None and entry k (if any) is not, k is the first failure. */
  lemma FirstSomeAt<T>(xs: seq<Option<T>>, k: nat)
    requires NoneBefore(xs, k)
    requires k < |xs| ==> xs[k].Some?
    ensures FirstSome(xs) == k
  {
  }
}
