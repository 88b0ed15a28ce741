/** The string operations of the Rust standard library that the codecs rely on,
    over sequences of Unicode scalar values. */
module Text {
  import opened Base

  // ---------- Whitespace ----------

  /** Unicode White_Space, the class `str::trim` removes. */
  predicate IsWhitespace(c: char) {
    || '\U{9}' <= c <= '\U{D}'
    || c == ' ' || c == '\U{85}' || c == '\U{A0}' || c == '\U{1680}'
    || '\U{2000}' <= c <= '\U{200A}'
    || c == '\U{2028}' || c == '\U{2029}' || c == '\U{202F}' || c == '\U{205F}' || c == '\U{3000}'
  }

  function TrimStart(s: string): string {
    if s != [] && IsWhitespace(s[0]) then TrimStart(s[1..]) else s
  }

  function TrimEnd(s: string): string {
    if s != [] && IsWhitespace(s[|s| - 1]) then TrimEnd(s[..|s| - 1]) else s
  }

  function Trim(s: string): string {
    TrimEnd(TrimStart(s))
  }

  /** No whitespace at either end. */
  predicate Trimmed(s: string) {
    s == [] || (!IsWhitespace(s[0]) && !IsWhitespace(s[|s| - 1]))
  }

  lemma {:induction false} TrimEndKeepsStart(s: string)
    requires s != [] && !IsWhitespace(s[0])
    ensures TrimEnd(s) != [] && TrimEnd(s)[0] == s[0]
  {
    if IsWhitespace(s[|s| - 1]) {
      TrimEndKeepsStart(s[..|s| - 1]);
    }
  }

  lemma {:induction false} TrimIsTrimmed(s: string)
    ensures Trimmed(Trim(s))
    ensures Trimmed(s) ==> Trim(s) == s
    ensures forall c | c in Trim(s) :: c in s
  {
    TrimStartFacts(s);
    TrimEndFacts(TrimStart(s));
    if TrimStart(s) != [] {
      TrimEndKeepsStart(TrimStart(s));
    }
  }

  lemma {:induction false} TrimStartFacts(s: string)
    ensures TrimStart(s) == [] || !IsWhitespace(TrimStart(s)[0])
    ensures forall c | c in TrimStart(s) :: c in s
  {
    if s != [] && IsWhitespace(s[0]) {
      TrimStartFacts(s[1..]);
    }
  }

  lemma {:induction false} TrimEndFacts(s: string)
    ensures TrimEnd(s) == [] || !IsWhitespace(TrimEnd(s)[|TrimEnd(s)| - 1])
    ensures forall c | c in TrimEnd(s) :: c in s
  {
    if s != [] && IsWhitespace(s[|s| - 1]) {
      TrimEndFacts(s[..|s| - 1]);
    }
  }

  ghost predicate AllSpace(s: string) {
    forall i | 0 <= i < |s| :: IsWhitespace(s[i])
  }

  lemma {:induction false} TrimStartPad(p: string, s: string)
    requires AllSpace(p)
    ensures TrimStart(p + s) == TrimStart(s)
  {
    if p == [] {
      assert p + s == s;
    } else {
      assert (p + s)[1..] == p[1..] + s;
      TrimStartPad(p[1..], s);
    }
  }

  lemma {:induction false} TrimEndPad(s: string, q: string)
    requires AllSpace(q)
    ensures TrimEnd(s + q) == TrimEnd(s)
  {
    if q == [] {
      assert s + q == s;
    } else {
      assert (s + q)[..|s + q| - 1] == s + q[..|q| - 1];
      TrimEndPad(s, q[..|q| - 1]);
    }
  }

  /** Padding a trimmed text, with whatever white space, does not change what trimming yields. */
  lemma {:induction false} TrimPadded(p: string, s: string, q: string)
    requires AllSpace(p) && AllSpace(q) && Trimmed(s)
    ensures Trim(p + s + q) == s
  {
    assert p + s + q == p + (s + q);
    TrimStartPad(p, s + q);
    if s == [] {
      assert s + q == q + [];
      TrimStartPad(q, []);
    } else {
      assert TrimStart(s + q) == s + q;
      TrimEndPad(s, q);
    }
  }

  lemma {:induction false} TrimStartCut(s: string) returns (p: string)
    ensures AllSpace(p) && s == p + TrimStart(s)
  {
    if s != [] && IsWhitespace(s[0]) {
      var rest := TrimStartCut(s[1..]);
      p := [s[0]] + rest;
      assert s == [s[0]] + s[1..];
    } else {
      p := [];
    }
  }

  lemma {:induction false} TrimEndCut(s: string) returns (q: string)
    ensures AllSpace(q) && s == TrimEnd(s) + q
  {
    if s != [] && IsWhitespace(s[|s| - 1]) {
      var rest := TrimEndCut(s[..|s| - 1]);
      q := rest + [s[|s| - 1]];
      assert s == s[..|s| - 1] + [s[|s| - 1]];
    } else {
      q := [];
    }
  }

  /** Trimming takes off nothing but white space. */
  lemma {:induction false} TrimCut(s: string) returns (p: string, q: string)
    ensures AllSpace(p) && AllSpace(q) && s == p + Trim(s) + q
  {
    p := TrimStartCut(s);
    q := TrimEndCut(TrimStart(s));
    assert s == p + (Trim(s) + q);
  }

  // ---------- Searching and splitting ----------

  predicate OccursAt(text: string, pat: string, i: int) {
    0 <= i && i + |pat| <= |text| && text[i..i + |pat|] == pat
  }

  lemma {:induction false} OccursChar(text: string, pat: string, i: int, k: nat)
    ensures OccursAt(text, pat, i) && k < |pat| ==> text[i + k] == pat[k]
  {}

  /** Leftmost occurrence at or after `from` (`str::find`). */
  function FindFrom(text: string, pat: string, from: nat): (r: Option<nat>)
    requires from <= |text|
    ensures r.Some? ==> from <= r.value && OccursAt(text, pat, r.value)
    ensures forall j | from <= j && (r.None? || j < r.value) :: !OccursAt(text, pat, j)
    decreases |text| - from
  {
    if OccursAt(text, pat, from) then Some(from)
    else if from == |text| then None
    else FindFrom(text, pat, from + 1)
  }

  /** Rightmost occurrence starting before `bound` (`str::rfind`). */
  function RFindBelow(text: string, pat: string, bound: nat): (r: Option<nat>)
    requires bound <= |text| + 1
    ensures r.Some? ==> r.value < bound && OccursAt(text, pat, r.value)
    ensures forall j | j < bound && (r.None? || r.value < j) :: !OccursAt(text, pat, j)
  {
    if bound == 0 then None
    else if OccursAt(text, pat, bound - 1) then Some(bound - 1)
    else RFindBelow(text, pat, bound - 1)
  }

  function Find(text: string, pat: string): Option<nat> {
    FindFrom(text, pat, 0)
  }

  function RFind(text: string, pat: string): Option<nat> {
    RFindBelow(text, pat, |text| + 1)
  }

  /** `str::split` with a string separator. */
  function Split(text: string, sep: string): (parts: seq<string>)
    requires sep != []
    ensures parts != []
    decreases |text|
  {
    match Find(text, sep)
    case None => [text]
    case Some(i) => [text[..i]] + Split(text[i + |sep|..], sep)
  }

  /** The leftmost separator decides the first piece. */
  lemma {:induction false} SplitAtFirst(a: string, sep: string, rest: string)
    requires sep != []
    requires forall j | 0 <= j < |a| :: !OccursAt(a + sep + rest, sep, j)
    ensures Split(a + sep + rest, sep) == [a] + Split(rest, sep)
  {
    var text := a + sep + rest;
    assert OccursAt(text, sep, |a|);
    assert Find(text, sep) == Some(|a|);
    assert text[..|a|] == a && text[|a| + |sep|..] == rest;
  }

  /** Up to the first separator of `a`, a longer text that starts with `a` has none either. */
  lemma {:induction false} NoEarlierChar(a: string, c: char, rest: string, bound: nat)
    requires bound <= |a|
    requires forall j | 0 <= j < bound :: !OccursAt(a, [c], j)
    ensures forall j | 0 <= j < bound :: !OccursAt(a + rest, [c], j)
  {
    forall j | 0 <= j < bound
      ensures !OccursAt(a + rest, [c], j)
    {
      assert !OccursAt(a, [c], j);
      assert (a + rest)[j..j + 1] == a[j..j + 1];
    }
  }

  lemma {:induction false} SplitStep(a: string, c: char, b: string, i: nat)
    requires Find(a, [c]) == Some(i)
    ensures Split(a + [c] + b, [c]) == [a[..i]] + Split(a[i + 1..] + [c] + b, [c])
  {
    var head, tail := a[..i], a[i + 1..];
    NoEarlierChar(a, c, [c] + b, i);
    assert a == head + [c] + tail;
    assert a + ([c] + b) == head + [c] + (tail + [c] + b);
    SplitAtFirst(head, [c], tail + [c] + b);
    assert a + [c] + b == a + ([c] + b);
  }

  lemma {:induction false} SplitLast(a: string, c: char, b: string)
    requires Find(a, [c]) == None
    ensures Split(a + [c] + b, [c]) == [a] + Split(b, [c])
  {
    NoEarlierChar(a, c, [c] + b, |a|);
    assert a + ([c] + b) == a + [c] + b;
    SplitAtFirst(a, [c], b);
  }

  lemma {:induction false} Associates<T>(x: seq<T>, y: seq<T>, z: seq<T>)
    ensures x + (y + z) == x + y + z
  {
  }

  /** Splitting on one character distributes over joining with it. */
  lemma {:induction false} SplitConcat(a: string, c: char, b: string)
    ensures Split(a + [c] + b, [c]) == Split(a, [c]) + Split(b, [c])
    decreases |a|
  {
    match Find(a, [c])
    case None =>
      SplitLast(a, c, b);
    case Some(i) =>
      SplitStep(a, c, b, i);
      SplitConcat(a[i + 1..], c, b);
      Associates([a[..i]], Split(a[i + 1..], [c]), Split(b, [c]));
  }

  function JoinWith(pieces: seq<string>, sep: string): string
    requires pieces != []
  {
    if |pieces| == 1 then pieces[0] else pieces[0] + sep + JoinWith(pieces[1..], sep)
  }

  /** The character at `m` marks the separator: it occurs nowhere before that. */
  ghost predicate Marks(sep: string, m: nat) {
    m < |sep| && sep[m] !in sep[..m]
  }

  /** A text without the mark holds no separator, and none begins in it when one follows. */
  lemma {:induction false} NoSepBefore(a: string, sep: string, m: nat, rest: string)
    requires Marks(sep, m) && sep[m] !in a
    ensures forall j | 0 <= j < |a| :: !OccursAt(a + sep + rest, sep, j)
    ensures Split(a, sep) == [a]
  {
    var text := a + sep + rest;
    assert forall q | 0 <= q < |a| :: text[q] == a[q];
    assert forall q | 0 <= q < m :: text[|a| + q] == sep[q] && sep[q] == sep[..m][q];
    forall j | 0 <= j < |a| ensures !OccursAt(text, sep, j) {
      OccursChar(text, sep, j, m);
    }
    forall j ensures !OccursAt(a, sep, j) {
      OccursChar(a, sep, j, m);
    }
  }

  /** Splitting undoes joining, for pieces without the separator's mark. */
  lemma {:induction false} SplitJoined(pieces: seq<string>, sep: string, m: nat)
    requires Marks(sep, m) && pieces != [] && forall i | 0 <= i < |pieces| :: sep[m] !in pieces[i]
    ensures Split(JoinWith(pieces, sep), sep) == pieces
  {
    if |pieces| == 1 {
      NoSepBefore(pieces[0], sep, m, []);
      assert pieces == [pieces[0]];
    } else {
      SplitJoined(pieces[1..], sep, m);
      NoSepBefore(pieces[0], sep, m, JoinWith(pieces[1..], sep));
      SplitAtFirst(pieces[0], sep, JoinWith(pieces[1..], sep));
      assert pieces == [pieces[0]] + pieces[1..];
    }
  }

  // ---------- Decimal numerals ----------

  predicate IsDigit(c: char) {
    '0' <= c <= '9'
  }

  predicate AllDigits(s: string) {
    forall i | 0 <= i < |s| :: IsDigit(s[i])
  }

  function DigitsValue(s: string): nat
    requires AllDigits(s)
  {
    if s == [] then 0 else 10 * DigitsValue(s[..|s| - 1]) + (s[|s| - 1] - '0') as nat
  }

  /** `str::parse` for a 64-bit unsigned integer: an optional `+`, then at least one digit. */
  function ParseU64(s: string): (r: Option<nat>)
    ensures r.Some? ==> r.value <= U64_MAX
  {
    var body := if s != [] && s[0] == '+' then s[1..] else s;
    if body == [] || !AllDigits(body) || DigitsValue(body) > U64_MAX then None
    else Some(DigitsValue(body))
  }

  /** The decimal numeral of `n`, without leading zeros. */
  function Decimal(n: nat): (s: string)
    ensures s != [] && AllDigits(s)
  {
    var last := ['0' + (n % 10) as char];
    if n < 10 then last else Decimal(n / 10) + last
  }

  lemma {:induction false} DecimalValue(n: nat)
    ensures DigitsValue(Decimal(n)) == n
  {
    var s := Decimal(n);
    if n >= 10 {
      assert s[..|s| - 1] == Decimal(n / 10);
      DecimalValue(n / 10);
    }
  }

  /** Printing and parsing are inverse on the whole 64-bit range. */
  lemma {:induction false} ParseDecimal(n: nat)
    ensures ParseU64(Decimal(n)) == if n <= U64_MAX then Some(n) else None
    ensures Trim(Decimal(n)) == Decimal(n)
  {
    DecimalValue(n);
    var s := Decimal(n);
    assert IsDigit(s[0]) && IsDigit(s[|s| - 1]);
  }

  /** A plus sign before the numeral is accepted; a minus sign, or nothing at all, is not. */
  lemma {:induction false} ParseSigns(n: nat)
    ensures ParseU64("+" + Decimal(n)) == ParseU64(Decimal(n))
    ensures ParseU64("-" + Decimal(n)) == None
    ensures ParseU64("") == None && ParseU64("+") == None
  {
    assert ("+" + Decimal(n))[1..] == Decimal(n);
    assert IsDigit(Decimal(n)[0]);
    assert ("-" + Decimal(n))[0] == '-';
  }

  // ---------- Order ----------

  /** `str` ordering: UTF-8 byte order, which is code point order. */
  predicate LexLess(a: string, b: string) {
    b != [] && (a == [] || a[0] < b[0] || (a[0] == b[0] && LexLess(a[1..], b[1..])))
  }

  /** The texts agree up to some point, where `a` ends or has the smaller character. */
  ghost predicate DifferAt(a: string, b: string, k: nat) {
    k <= |a| && k < |b| && a[..k] == b[..k] && (k == |a| || a[k] < b[k])
  }

  lemma {:induction false} LexMeans(a: string, b: string)
    ensures LexLess(a, b) <==> exists k: nat :: DifferAt(a, b, k)
  {
    if a != [] && b != [] && a[0] == b[0] {
      LexMeans(a[1..], b[1..]);
      if k: nat :| DifferAt(a[1..], b[1..], k) {
        assert a[..k + 1] == [a[0]] + a[1..][..k] && b[..k + 1] == [b[0]] + b[1..][..k];
        assert DifferAt(a, b, k + 1);
      }
      if k: nat :| DifferAt(a, b, k) {
        assert k > 0;
        assert a[1..][..k - 1] == a[..k][1..] && b[1..][..k - 1] == b[..k][1..];
        assert DifferAt(a[1..], b[1..], k - 1);
      }
    } else if LexLess(a, b) {
      assert DifferAt(a, b, 0);
    } else {
      forall k: nat ensures !DifferAt(a, b, k) {
        if k > 0 && k <= |a| && k <= |b| {
          assert a[..k][0] == a[0] && b[..k][0] == b[0];
        }
      }
    }
  }

  lemma {:induction false} LexTotal(a: string, b: string)
    ensures LexLess(a, b) || a == b || LexLess(b, a)
  {
    if a != [] && b != [] && a[0] == b[0] {
      LexTotal(a[1..], b[1..]);
      assert a == [a[0]] + a[1..] && b == [b[0]] + b[1..];
    }
  }

  lemma {:induction false} LexTransitive(a: string, b: string, c: string)
    requires LexLess(a, b) && LexLess(b, c)
    ensures LexLess(a, c)
  {
    if a != [] && a[0] == b[0] == c[0] {
      LexTransitive(a[1..], b[1..], c[1..]);
    }
  }

  lemma {:induction false} LexIrreflexive(a: string)
    ensures !LexLess(a, a)
  {
    if a != [] {
      LexIrreflexive(a[1..]);
    }
  }
}
