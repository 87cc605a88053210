/** The string functions of Go's standard library that the repository relies on,
    over sequences of Unicode scalar values. */
module Text {
  import opened Wrappers

  // ---- White space ----

  /** Go's unicode.IsSpace. */
  predicate IsSpace(c: char) {
    var n := c as int;
    || 0x09 <= n <= 0x0D || n == 0x20 || n == 0x85 || n == 0xA0 || n == 0x1680
    || 0x2000 <= n <= 0x200A || n == 0x2028 || n == 0x2029 || n == 0x202F || n == 0x205F || n == 0x3000
  }

  function TrimLeft(s: string): (r: string)
    ensures |r| <= |s| && r == s[|s| - |r|..]
    ensures r != "" ==> !IsSpace(r[0])
    ensures forall i | 0 <= i < |s| - |r| :: IsSpace(s[i])
  {
    if s == "" || !IsSpace(s[0]) then s else TrimLeft(s[1..])
  }

  function TrimRight(s: string): (r: string)
    ensures |r| <= |s| && r == s[..|r|]
    ensures r != "" ==> !IsSpace(r[|r| - 1])
    ensures forall i | |r| <= i < |s| :: IsSpace(s[i])
  {
    if s == "" || !IsSpace(s[|s| - 1]) then s else TrimRight(s[..|s| - 1])
  }

  /** strings.TrimSpace. */
  function TrimSpace(s: string): string {
    TrimRight(TrimLeft(s))
  }

  predicate Trimmed(s: string) {
    s != "" ==> !IsSpace(s[0]) && !IsSpace(s[|s| - 1])
  }

  lemma TrimSpaceTrims(s: string)
    ensures Trimmed(TrimSpace(s))
    ensures Trimmed(s) ==> TrimSpace(s) == s
    ensures TrimSpace(s) == "" <==> forall i | 0 <= i < |s| :: IsSpace(s[i])
  {
  }

  predicate AllSpace(s: string) {
    forall i | 0 <= i < |s| :: IsSpace(s[i])
  }

  /** t stands in s at position i, and everything around it is white space. */
  predicate PaddedAt(s: string, t: string, i: nat) {
    && i + |t| <= |s| && s[i..i + |t|] == t
    && forall k | 0 <= k < |s| && !(i <= k < i + |t|) :: IsSpace(s[k])
  }

  /** s is t with white space around it. */
  ghost predicate Padded(s: string, t: string) {
    exists i: nat :: PaddedAt(s, t, i)
  }

  lemma MiddleIsPadded(s: string, m: string, t: string)
    requires |m| <= |s| && m == s[|s| - |m|..] && |t| <= |m| && t == m[..|t|]
    requires forall k | 0 <= k < |s| - |m| :: IsSpace(s[k])
    requires forall k | |t| <= k < |m| :: IsSpace(m[k])
    ensures Padded(s, t)
  {
    var i := |s| - |m|;
    forall k | i + |t| <= k < |s| ensures IsSpace(s[k]) {
      assert s[k] == m[k - i];
    }
    assert s[i..i + |t|] == t;
    assert PaddedAt(s, t, i);
  }

  lemma TrimSpacePads(s: string)
    ensures Padded(s, TrimSpace(s))
  {
    MiddleIsPadded(s, TrimLeft(s), TrimSpace(s));
  }

  lemma PaddedEnds(s: string, t: string, i: nat)
    requires PaddedAt(s, t, i) && Trimmed(t) && t != ""
    ensures !IsSpace(s[i]) && !IsSpace(s[i + |t| - 1])
  {
    assert s[i..i + |t|][|t| - 1] == s[i + |t| - 1];
  }

  lemma OnePadding(s: string, t: string, i: nat, t': string, i': nat)
    requires PaddedAt(s, t, i) && PaddedAt(s, t', i') && Trimmed(t) && Trimmed(t')
    ensures t == t'
  {
    if t != "" {
      PaddedEnds(s, t, i);
    }
    if t' != "" {
      PaddedEnds(s, t', i');
    }
  }

  /** TrimSpace(s) is the one text without white space at its ends that white space pads to s. */
  lemma TrimSpaceIff(s: string, t: string)
    ensures TrimSpace(s) == t <==> Trimmed(t) && Padded(s, t)
  {
    TrimSpaceTrims(s);
    TrimSpacePads(s);
    if Trimmed(t) && Padded(s, t) {
      SamePadding(s, t, TrimSpace(s));
    }
  }

  lemma SamePadding(s: string, t: string, t': string)
    requires Padded(s, t) && Padded(s, t') && Trimmed(t) && Trimmed(t')
    ensures t == t'
  {
    var i: nat :| PaddedAt(s, t, i);
    var i': nat :| PaddedAt(s, t', i');
    OnePadding(s, t, i, t', i');
  }

  predicate ContainsAny(s: string, chars: string) {
    exists i | 0 <= i < |s| :: s[i] in chars
  }

  // ---- Encoded length and order ----

  /** Number of bytes of a scalar value in UTF-8. */
  function RuneLen(c: char): (n: nat)
    ensures 1 <= n <= 4
  {
    var v := c as int;
    if v < 0x80 then 1 else if v < 0x800 then 2 else if v < 0x1_0000 then 3 else 4
  }

  /** len([]byte(s)). */
  function ByteLen(s: string): (n: nat)
    ensures |s| <= n
  {
    if s == "" then 0 else RuneLen(s[0]) + ByteLen(s[1..])
  }

  lemma {:induction false} AsciiByteLen(s: string)
    requires forall i | 0 <= i < |s| :: s[i] as int < 0x80
    ensures ByteLen(s) == |s|
  {
    if s != "" {
      AsciiByteLen(s[1..]);
    }
  }

  /** Go's `<` on strings. Byte order of UTF-8 is scalar-value order. */
  predicate Less(a: string, b: string) {
    b != "" && (a == "" || a[0] < b[0] || (a[0] == b[0] && Less(a[1..], b[1..])))
  }

  /** a and b agree on their first k characters, and there a ends or has the smaller character. */
  predicate SmallerAt(a: string, b: string, k: nat) {
    k <= |a| && k < |b| && a[..k] == b[..k] && (k == |a| || a[k] < b[k])
  }

  /** a is less than b exactly when it is a proper prefix of b or smaller at the first difference. */
  lemma {:induction false} LessIff(a: string, b: string)
    ensures Less(a, b) <==> exists k: nat :: SmallerAt(a, b, k)
  {
    assert SmallerAt(a, b, 0) <==> b != "" && (a == "" || a[0] < b[0]);
    if a != "" && b != "" {
      LessIff(a[1..], b[1..]);
      if k: nat :| SmallerAt(a, b, k) && k > 0 {
        SmallerInTail(a, b, k - 1);
      } else if k: nat :| SmallerAt(a[1..], b[1..], k) && a[0] == b[0] {
        SmallerInTail(a, b, k);
      }
    }
  }

  lemma SmallerInTail(a: string, b: string, k: nat)
    requires a != "" && b != ""
    ensures SmallerAt(a, b, k + 1) <==> a[0] == b[0] && SmallerAt(a[1..], b[1..], k)
  {
    if k + 1 <= |a| && k + 1 < |b| {
      assert a[..k + 1] == [a[0]] + a[1..][..k] && b[..k + 1] == [b[0]] + b[1..][..k];
      assert a[..k + 1][1..] == a[1..][..k] && b[..k + 1][1..] == b[1..][..k];
    }
  }

  lemma {:induction false} LessTransitive(a: string, b: string, c: string)
    requires Less(a, b) && Less(b, c)
    ensures Less(a, c)
  {
    if a != "" && a[0] == b[0] == c[0] {
      LessTransitive(a[1..], b[1..], c[1..]);
    }
  }

  lemma {:induction false} LessTotal(a: string, b: string)
    ensures Less(a, b) || Less(b, a) || a == b
    ensures !(Less(a, b) && Less(b, a))
    ensures !Less(a, a)
  {
    if a != "" {
      LessTotal(a[1..], a[1..]);
    }
    if a != "" && b != "" && a[0] == b[0] {
      LessTotal(a[1..], b[1..]);
      assert a == [a[0]] + a[1..] && b == [b[0]] + b[1..];
    }
  }

  // ---- Split and join on one separator ----

  function IndexOf(s: string, c: char): (i: nat)
    ensures i <= |s|
    ensures i < |s| ==> s[i] == c
    ensures c !in s[..i]
  {
    if s == "" || s[0] == c then 0
    else
      var i := 1 + IndexOf(s[1..], c);
      assert s[..i] == [s[0]] + s[1..][..i - 1];
      i
  }

  lemma {:induction false} IndexOfFirst(a: string, c: char, b: string)
    requires c !in a
    ensures IndexOf(a + [c] + b, c) == |a|
    ensures IndexOf(a, c) == |a|
  {
    var s := a + [c] + b;
    var i := IndexOf(s, c);
    assert s[|a|] == c && forall k | 0 <= k < |a| :: s[k] == a[k];
    assert forall k | 0 <= k < i :: s[..i][k] == s[k];
  }

  /** strings.Split for a one-character separator. */
  function Split(s: string, sep: char): (parts: seq<string>)
    ensures parts != []
    ensures forall p | p in parts :: sep !in p
    decreases |s|
  {
    var i := IndexOf(s, sep);
    if i == |s| then
      assert s[..i] == s;
      [s]
    else [s[..i]] + Split(s[i + 1..], sep)
  }

  /** strings.Join for a one-character separator. */
  function Join(parts: seq<string>, sep: char): string
    requires parts != []
  {
    if |parts| == 1 then parts[0] else parts[0] + [sep] + Join(parts[1..], sep)
  }

  lemma Assoc(a: string, b: string, c: string)
    ensures a + b + c == a + (b + c)
  {
  }

  lemma JoinCons(head: string, rest: seq<string>, sep: char)
    requires rest != []
    ensures Join([head] + rest, sep) == head + [sep] + Join(rest, sep)
  {
  }

  lemma {:induction false} SplitJoin(parts: seq<string>, sep: char)
    requires parts != [] && forall p | p in parts :: sep !in p
    ensures Split(Join(parts, sep), sep) == parts
  {
    var head := parts[0];
    assert sep !in head;
    if |parts| == 1 {
      IndexOfFirst(head, sep, "");
    } else {
      var rest := Join(parts[1..], sep);
      SplitJoin(parts[1..], sep);
      IndexOfFirst(head, sep, rest);
      assert Join(parts, sep)[|head| + 1..] == rest;
      assert Join(parts, sep)[..|head|] == head;
    }
  }

  lemma CutAt(s: string, i: nat)
    requires i < |s|
    ensures s == s[..i] + [s[i]] + s[i + 1..]
  {
  }

  lemma {:induction false} JoinSplit(s: string, sep: char)
    ensures Join(Split(s, sep), sep) == s
    decreases |s|
  {
    var i := IndexOf(s, sep);
    if i < |s| {
      JoinSplit(s[i + 1..], sep);
      JoinCons(s[..i], Split(s[i + 1..], sep), sep);
      CutAt(s, i);
    }
  }

  // ---- Decimal numbers ----

  function Digit(n: nat): (c: char)
    requires n < 10
    ensures c as int == '0' as int + n
  {
    ('0' as int + n) as char
  }

  predicate IsDigit(c: char) {
    '0' <= c <= '9'
  }

  predicate AllDigits(s: string) {
    s != "" && forall i | 0 <= i < |s| :: IsDigit(s[i])
  }

  /** strconv.FormatInt(n, 10), and %d, of a nonnegative number. */
  function FormatNat(n: nat): (s: string)
    ensures AllDigits(s)
  {
    if n < 10 then [Digit(n)] else FormatNat(n / 10) + [Digit(n % 10)]
  }

  function DecimalValue(s: string): nat
    requires forall i | 0 <= i < |s| :: IsDigit(s[i])
  {
    if s == "" then 0
    else
      var last := s[|s| - 1];
      assert IsDigit(last);
      10 * DecimalValue(s[..|s| - 1]) + (last as int - '0' as int)
  }

  lemma {:induction false} FormatNatValue(n: nat)
    ensures DecimalValue(FormatNat(n)) == n
  {
    var s := FormatNat(n);
    if n < 10 {
      assert s[..0] == "";
    } else {
      FormatNatValue(n / 10);
      assert s[..|s| - 1] == FormatNat(n / 10);
    }
  }

  lemma FormatNatInjective(a: nat, b: nat)
    requires FormatNat(a) == FormatNat(b)
    ensures a == b
  {
    FormatNatValue(a);
    FormatNatValue(b);
  }

  predicate NoLeadingZero(s: string) {
    |s| == 1 || (s != "" && s[0] != '0')
  }

  lemma {:induction false} FormatHasNoLeadingZero(n: nat)
    ensures NoLeadingZero(FormatNat(n))
    ensures n > 0 ==> FormatNat(n)[0] != '0'
  {
    if n >= 10 {
      FormatHasNoLeadingZero(n / 10);
      assert FormatNat(n)[0] == FormatNat(n / 10)[0];
    }
  }

  lemma {:induction false} ValuePositive(s: string)
    requires AllDigits(s) && s[0] != '0'
    ensures DecimalValue(s) > 0
  {
    if |s| > 1 {
      ValuePositive(s[..|s| - 1]);
    }
  }

  lemma LastDigit(v: nat, d: nat)
    requires d < 10 && v > 0
    ensures FormatNat(10 * v + d) == FormatNat(v) + [Digit(d)]
  {
    assert (10 * v + d) / 10 == v && (10 * v + d) % 10 == d;
  }

  lemma {:induction false} FormatOfValue(s: string)
    requires AllDigits(s) && NoLeadingZero(s)
    ensures FormatNat(DecimalValue(s)) == s
  {
    var front, d := s[..|s| - 1], s[|s| - 1] as int - '0' as int;
    assert IsDigit(s[|s| - 1]);
    if |s| == 1 {
      assert front == "" && s == [Digit(d)];
    } else {
      FormatOfValue(front);
      ValuePositive(front);
      LastDigit(DecimalValue(front), d);
      assert s == front + [Digit(d)];
    }
  }

  /** Printing a parsed number gives its digits back exactly when they have no leading zero. */
  lemma FormatOfValueIff(s: string)
    requires AllDigits(s)
    ensures FormatNat(DecimalValue(s)) == s <==> NoLeadingZero(s)
  {
    FormatHasNoLeadingZero(DecimalValue(s));
    if NoLeadingZero(s) {
      FormatOfValue(s);
    }
  }

  /** strconv.ParseUint(s, 10, bits) for `bound` == 2^bits: decimal digits only, leading zeros allowed. */
  function ParseUint(s: string, bound: nat): Option<nat> {
    if AllDigits(s) && DecimalValue(s) < bound then Some(DecimalValue(s)) else None
  }
}
