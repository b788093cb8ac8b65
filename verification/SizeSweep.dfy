/**
 * The message-size sweep: `first..last` doubles from the first size to the last, anything
 * else is a comma list, sorted and without repeats. Numbers are 64-bit `usize` values.
 */
module SizeSweep {

  import opened Wrappers
  import opened Text
  import opened Arithmetic

  const DEFAULT_BUF_LEN := 0x10_0000

  datatype Error = EmptySpec | BadSize | Overflow | ZeroSize | TooLarge | EmptyRange | ZeroBufLen

  // ---------------------------------------------------------------- numbers

  /** Decimal digits after an optional plus sign, at most `MAX_USIZE`. */
  function ParseUsize(s: string): (r: Option<nat>)
    ensures r.Some? ==> r.value <= MAX_USIZE
  {
    var digits := Unsigned(s);
    if digits == [] || !AllDigits(digits) || Value(digits) > MAX_USIZE then None else Some(Value(digits))
  }

  /** The factor a last letter stands for; 1 when it is no suffix. */
  function Factor(c: char): (m: nat)
  {
    if c == 'k' || c == 'K' then 0x400
    else if c == 'm' || c == 'M' then 0x10_0000
    else if c == 'g' || c == 'G' then 0x4000_0000
    else 1
  }

  function ParseOneSize(token: string): (r: Result<nat, Error>)
    ensures r.Ok? ==> 1 <= r.value <= MAX_U32
  {
    var tok := Trim(token);
    var mult := if tok == [] then 1 else Factor(tok[|tok| - 1]);
    var num := if mult == 1 then tok else tok[..|tok| - 1];
    var n := ParseUsize(num);
    if n.None? then Err(BadSize)
    else if n.value * mult > MAX_USIZE then Err(Overflow)
    else if n.value * mult == 0 then Err(ZeroSize)
    else if n.value * mult > MAX_U32 then Err(TooLarge)
    else Ok(n.value * mult)
  }

  function Unsigned(s: string): (digits: string)
  {
    if s != [] && s[0] == '+' then s[1..] else s
  }

  const DECIMAL_DIGITS := "0123456789"

  /** One or more decimal digits that stand for `n`. */
  predicate Digits(s: string, n: nat)
  {
    && s != [] && (forall i :: 0 <= i < |s| ==> s[i] in DECIMAL_DIGITS)
    && AllDigits(s) && Value(s) == n
  }

  /** Digits, perhaps after a plus sign. */
  predicate Numeral(s: string, n: nat)
  {
    Digits(s, n) || (s != [] && s[0] == '+' && Digits(s[1..], n))
  }

  /** `n` times a power of two. */
  function Scaled(n: nat, power: nat): (r: nat)
  {
    Product(n, Pow2(power));
    n * Pow2(power)
  }

  lemma Product(a: nat, b: nat)
    ensures a * b >= 0
  {
  }

  /** The power of two a last letter stands for. */
  predicate Suffix(c: char, power: nat)
  {
    || (c in "kK" && power == 10)
    || (c in "mM" && power == 20)
    || (c in "gG" && power == 30)
  }

  /** A numeral for `n` alone, or with a suffix for a power of two. */
  predicate Spelled(tok: string, n: nat, power: nat)
  {
    || (Numeral(tok, n) && power == 0)
    || (tok != [] && Suffix(tok[|tok| - 1], power) && Numeral(tok[..|tok| - 1], n))
  }

  lemma Powers()
    ensures Pow2(0) == 1 && Pow2(10) == 0x400 && Pow2(20) == 0x10_0000 && Pow2(30) == 0x4000_0000
    ensures Pow2(32) == MAX_U32 + 1 && Pow2(64) == MAX_USIZE + 1 && Pow2(20) == DEFAULT_BUF_LEN
  {
    assert Pow2(8) == 0x100;
    assert Pow2(16) == 0x1_0000;
    assert Pow2(24) == 0x100_0000;
    assert Pow2(32) == 0x1_0000_0000;
    assert Pow2(40) == 0x100_0000_0000;
    assert Pow2(48) == 0x1_0000_0000_0000;
    assert Pow2(56) == 0x100_0000_0000_0000;
  }

  lemma DigitIsListed(c: char)
    ensures IsDigit(c) <==> c in DECIMAL_DIGITS
  {
  }

  /** Digits alone, or after a plus sign, are what is parsed as a number. */
  lemma NumeralParses(s: string, n: nat)
    ensures Numeral(s, n) ==> ParseUsize(s) == if n > MAX_USIZE then None else Some(n)
    ensures ParseUsize(s) == Some(n) ==> Numeral(s, n)
  {
    hide Value;
    forall c: char ensures IsDigit(c) <==> c in DECIMAL_DIGITS {
      DigitIsListed(c);
    }
    if s != [] && s[0] == '+' {
      assert !AllDigits(s);
    }
  }

  lemma FactorIsPower(c: char, power: nat)
    ensures Suffix(c, power) ==> Factor(c) == Pow2(power) && Factor(c) > 1
    ensures Factor(c) > 1 ==> Suffix(c, 10) || Suffix(c, 20) || Suffix(c, 30)
    ensures Factor(c) > 1 ==> !IsDigit(c)
  {
    hide Pow2;
    Powers();
  }

  lemma NoDigitAtEnd(tok: string, n: nat)
    requires Numeral(tok, n)
    ensures tok != [] && IsDigit(tok[|tok| - 1])
  {
    if !Digits(tok, n) {
      assert tok[1..][|tok| - 2] == tok[|tok| - 1];
    }
  }

  /** What a token spells decides what it is read as, or why it is refused. */
  lemma SpelledSizeParses(token: string, n: nat, power: nat)
    requires Spelled(Trim(token), n, power)
    ensures ParseOneSize(token) == if n > MAX_USIZE then Err(BadSize) else Checked(Scaled(n, power))
  {
    hide Trim, ParseUsize, Value, Pow2, Factor;
    Powers();
    var tok := Trim(token);
    if Numeral(tok, n) {
      NoDigitAtEnd(tok, n);
      FactorIsPower(tok[|tok| - 1], 10);
      FactorAtLeastOne(tok[|tok| - 1]);
    }
    if tok != [] && Suffix(tok[|tok| - 1], power) {
      FactorIsPower(tok[|tok| - 1], power);
      SuffixIsNoDigit(tok, n, power);
      NumeralParses(tok[..|tok| - 1], n);
    } else {
      NumeralParses(tok, n);
    }
  }

  lemma FactorAtLeastOne(c: char)
    ensures Factor(c) >= 1
  {
  }

  lemma SuffixIsNoDigit(tok: string, n: nat, power: nat)
    requires tok != [] && Suffix(tok[|tok| - 1], power)
    ensures !Numeral(tok, n)
  {
    FactorIsPower(tok[|tok| - 1], power);
    if Numeral(tok, n) {
      NoDigitAtEnd(tok, n);
    }
  }

  lemma NotBadIsSpelled(token: string) returns (n: nat, power: nat)
    requires ParseOneSize(token) != Err(BadSize)
    ensures Spelled(Trim(token), n, power)
  {
    hide Trim, ParseUsize, Numeral, Factor;
    var tok := Trim(token);
    if tok != [] && Factor(tok[|tok| - 1]) > 1 {
      FactorIsPower(tok[|tok| - 1], 10);
      n := ParseUsize(tok[..|tok| - 1]).value;
      NumeralParses(tok[..|tok| - 1], n);
      power := if Suffix(tok[|tok| - 1], 10) then 10 else if Suffix(tok[|tok| - 1], 20) then 20 else 30;
    } else {
      if tok != [] {
        FactorAtLeastOne(tok[|tok| - 1]);
      }
      n, power := ParseUsize(tok).value, 0;
      NumeralParses(tok, n);
    }
  }

  /** A token that spells nothing is a bad size. */
  lemma OtherTokensAreBad(token: string)
    requires forall n: nat, power: nat :: !Spelled(Trim(token), n, power)
    ensures ParseOneSize(token) == Err(BadSize)
  {
    if ParseOneSize(token) != Err(BadSize) {
      var n, power := NotBadIsSpelled(token);
    }
  }

  /** Which size a token names: exactly what it spells, when that is a size at all. */
  lemma SizeIsSpelled(token: string, x: nat)
    ensures ParseOneSize(token) == Ok(x) <==>
      1 <= x <= MAX_U32 && exists n: nat, power: nat :: Spelled(Trim(token), n, power) && x == Scaled(n, power)
  {
    hide Trim, Numeral, ParseOneSize, Spelled, Pow2;
    if ParseOneSize(token) == Ok(x) {
      var n, power := NotBadIsSpelled(token);
      SpelledSizeParses(token, n, power);
    }
    if n: nat, power: nat :| Spelled(Trim(token), n, power) && x == Scaled(n, power) {
      SpelledSizeParses(token, n, power);
      if x <= MAX_U32 {
        FactorGrows(n, power);
      }
    }
  }

  lemma FactorGrows(n: nat, power: nat)
    ensures n <= Scaled(n, power)
  {
    var f := Pow2(power);
    hide Pow2;
    MulDistributes(f, 1, n);
    if f > 1 && n > 0 {
      MulAtLeast(f - 1, n);
    }
  }

  /** Without one of the six letters at its end a token is accepted only as a plain numeral. */
  lemma PlainTokens(token: string, x: nat)
    requires var tok := Trim(token); tok == [] || tok[|tok| - 1] !in "kKmMgG"
    ensures ParseOneSize(token) == Ok(x) <==> 1 <= x <= MAX_U32 && Numeral(Trim(token), x)
  {
    hide Trim, Numeral, ParseOneSize, Pow2, Scaled, Checked;
    ScaledByOne(x);
    if Numeral(Trim(token), x) {
      SpelledSizeParses(token, x, 0);
      SmallChecked(x);
    }
    if ParseOneSize(token) == Ok(x) {
      var n, power := NotBadIsSpelled(token);
      SpelledSizeParses(token, n, power);
      ScaledByOne(n);
      SmallChecked(n);
    }
  }

  lemma ScaledByOne(n: nat)
    ensures Scaled(n, 0) == n
  {
    assert Pow2(0) == 1;
  }

  lemma SmallChecked(m: nat)
    ensures Checked(m).Ok? ==> Checked(m) == Ok(m) && 1 <= m <= MAX_U32
    ensures 1 <= m <= MAX_U32 ==> Checked(m) == Ok(m)
  {
  }

  lemma DecimalParses(n: nat)
    requires n <= MAX_USIZE
    ensures ParseUsize(Decimal(n)) == Some(n)
  {
    hide Value;
    ValueOfDecimal(n);
    assert IsDigit(Decimal(n)[0]);
  }

  lemma DecimalIsTight(n: nat, tail: string)
    requires Tight(tail)
    ensures Trim(Decimal(n) + tail) == Decimal(n) + tail
  {
    var s := Decimal(n) + tail;
    assert IsDigit(Decimal(n)[0]) && IsDigit(Decimal(n)[|Decimal(n)| - 1]);
    TrimTight(s);
  }

  /** A value is refused for being 0, too large for 64 bits, or too large for 32. */
  function Checked(m: nat): (r: Result<nat, Error>)
  {
    if m > MAX_USIZE then Err(Overflow) else if m == 0 then Err(ZeroSize)
    else if m > MAX_U32 then Err(TooLarge) else Ok(m)
  }

  /** A printed size is read as what it says, or refused for its value. */
  lemma PrintedSizeParses(n: nat)
    requires n <= MAX_USIZE
    ensures ParseOneSize(Decimal(n)) == Checked(n)
  {
    hide Trim, ParseUsize, Decimal;
    DecimalIsTight(n, []);
    assert Decimal(n) + [] == Decimal(n);
    DecimalParses(n);
    assert IsDigit(Decimal(n)[|Decimal(n)| - 1]);
  }

  /** With a suffix, in either case, it is read as that many times a power of two more. */
  lemma SuffixedSizeParses(n: nat, suffix: char, power: nat)
    requires n <= MAX_USIZE && Suffix(suffix, power)
    ensures ParseOneSize(Decimal(n) + [suffix]) == Checked(Scaled(n, power))
  {
    hide Trim, ParseUsize, Decimal, Factor, Pow2;
    var t := Decimal(n) + [suffix];
    FactorIsPower(suffix, power);
    DecimalIsTight(n, [suffix]);
    DecimalParses(n);
    assert t[..|t| - 1] == Decimal(n) && t[|t| - 1] == suffix;
  }

  // ---------------------------------------------------------------- splitting

  /** The position of the first `..`, or the length of `s`. */
  function FindDots(s: string, i: nat): (k: nat)
    requires i <= |s|
    ensures i <= k <= |s|
    ensures k < |s| ==> k + 1 < |s| && s[k] == '.' && s[k + 1] == '.'
    ensures forall j :: i <= j < k && j + 1 < |s| ==> !(s[j] == '.' && s[j + 1] == '.')
    decreases |s| - i
  {
    if i + 1 >= |s| then |s|
    else if s[i] == '.' && s[i + 1] == '.' then i
    else FindDots(s, i + 1)
  }

  function SplitCommas(s: string): (parts: seq<string>)
    ensures |parts| > 0
  {
    if s == [] then [[]]
    else
      var rest := SplitCommas(s[1..]);
      if s[0] == ',' then [[]] + rest else [[s[0]] + rest[0]] + rest[1..]
  }

  function JoinCommas(parts: seq<string>): (s: string)
    requires |parts| > 0
  {
    if |parts| == 1 then parts[0] else parts[0] + "," + JoinCommas(parts[1..])
  }

  predicate NoComma(s: string)
  {
    forall i :: 0 <= i < |s| ==> s[i] != ','
  }

  lemma {:induction false} SplitPrefix(a: string, s: string)
    requires NoComma(a)
    ensures SplitCommas(a + s) == [a + SplitCommas(s)[0]] + SplitCommas(s)[1..]
    decreases |a|
  {
    if a == [] {
      assert a + s == s && a + SplitCommas(s)[0] == SplitCommas(s)[0];
    } else {
      SplitPrefix(a[1..], s);
      assert (a + s)[0] == a[0] && (a + s)[1..] == a[1..] + s;
      assert [a[0]] + (a[1..] + SplitCommas(s)[0]) == a + SplitCommas(s)[0];
    }
  }

  /** Splitting undoes joining, for parts without commas. */
  lemma {:induction false} SplitOfJoin(parts: seq<string>)
    requires |parts| > 0 && forall i :: 0 <= i < |parts| ==> NoComma(parts[i])
    ensures SplitCommas(JoinCommas(parts)) == parts
  {
    if |parts| == 1 {
      SplitPrefix(parts[0], []);
      assert parts[0] + [] == parts[0];
      assert parts == [parts[0]];
    } else {
      SplitOfJoin(parts[1..]);
      var rest := "," + JoinCommas(parts[1..]);
      assert rest[1..] == JoinCommas(parts[1..]);
      SplitPrefix(parts[0], rest);
      assert parts[0] + rest == JoinCommas(parts);
      assert parts[0] + [] == parts[0];
      assert parts == [parts[0]] + parts[1..];
    }
  }

  // ---------------------------------------------------------------- doubling

  function Pow2(k: nat): (r: nat)
    ensures r > 0
  {
    if k == 0 then 1 else 2 * Pow2(k - 1)
  }

  /** First, twice first, and so on up to `last`. */
  function Doubles(first: nat, last: nat): (sizes: seq<nat>)
    requires first >= 1
    decreases last - first
  {
    if first > last then [] else [first] + Doubles(2 * first, last)
  }

  /** The loop of a range: double the last size while it fits. */
  method DoubleUpTo(first: nat, last: nat) returns (sizes: seq<nat>)
    requires 1 <= first <= last <= MAX_U32
    ensures sizes == Doubles(first, last)
  {
    sizes := [first];
    while sizes[|sizes| - 1] * 2 <= MAX_USIZE
      invariant |sizes| > 0 && 1 <= sizes[|sizes| - 1] <= last
      invariant sizes + Doubles(2 * sizes[|sizes| - 1], last) == Doubles(first, last)
      decreases last - sizes[|sizes| - 1]
    {
      var next := sizes[|sizes| - 1] * 2;
      if next > last {
        break;
      }
      sizes := sizes + [next];
    }
  }

  lemma DoublingStep(first: nat, k: nat)
    ensures first * Pow2(k + 1) == 2 * (first * Pow2(k)) == (2 * first) * Pow2(k)
  {
  }

  lemma {:induction false} DoublingGrows(first: nat, j: nat, k: nat)
    requires first > 0 && j <= k
    ensures 0 < first * Pow2(j) <= first * Pow2(k)
    ensures j < k ==> first * Pow2(j) < first * Pow2(k)
    decreases k
  {
    if j < k {
      DoublingStep(first, k - 1);
      DoublingGrows(first, j, k - 1);
    } else {
      assert first * Pow2(k) > 0;
    }
  }

  /** Entry `k` is `first * 2^k`, and the next one would be past `last`. */
  lemma {:induction false} DoublesAt(first: nat, last: nat)
    requires first >= 1
    ensures var d := Doubles(first, last);
      && (forall k :: 0 <= k < |d| ==> d[k] == first * Pow2(k) <= last)
      && first * Pow2(|d|) > last
    decreases last - first
  {
    hide Pow2;
    if first <= last {
      DoublesAt(2 * first, last);
      var rest := Doubles(2 * first, last);
      PowZero();
      forall k | 0 <= k < |rest| + 1
        ensures Doubles(first, last)[k] == first * Pow2(k) <= last
      {
        if k > 0 {
          DoublingStep(first, k - 1);
          assert rest[k - 1] == (2 * first) * Pow2(k - 1);
        }
      }
      DoublingStep(first, |rest|);
    } else {
      PowZero();
    }
  }

  lemma PowZero()
    ensures Pow2(0) == 1
  {
  }

  ghost predicate IsDoubling(x: nat, first: nat)
  {
    exists k: nat :: x == first * Pow2(k)
  }

  /** A range holds exactly the sizes `first * 2^k` up to `last`, each once and in order. */
  lemma DoublesExact(first: nat, last: nat)
    requires 1 <= first
    ensures StrictlyAscending(Doubles(first, last))
    ensures forall x: nat :: x in Doubles(first, last) <==> x <= last && IsDoubling(x, first)
  {
    hide Pow2, Doubles;
    var d := Doubles(first, last);
    DoublesAt(first, last);
    forall i, j | 0 <= i < j < |d|
      ensures d[i] < d[j]
    {
      DoublingGrows(first, i, j);
    }
    forall x: nat | x <= last && IsDoubling(x, first)
      ensures x in d
    {
      var k: nat :| x == first * Pow2(k);
      if k >= |d| {
        DoublingGrows(first, |d|, k);
      }
      assert d[k] == x;
    }
  }

  // ---------------------------------------------------------------- lists

  predicate Ascending(s: seq<nat>)
  {
    forall i, j :: 0 <= i < j < |s| ==> s[i] <= s[j]
  }

  predicate StrictlyAscending(s: seq<nat>)
  {
    forall i, j :: 0 <= i < j < |s| ==> s[i] < s[j]
  }

  function Insert(x: nat, s: seq<nat>): (r: seq<nat>)
  {
    if s == [] || x <= s[0] then [x] + s else [s[0]] + Insert(x, s[1..])
  }

  /** `sort_unstable`, on numbers. */
  function Sort(s: seq<nat>): (r: seq<nat>)
  {
    if s == [] then [] else Insert(s[0], Sort(s[1..]))
  }

  /** `dedup`: of equal neighbours the first stays. */
  function Dedup(s: seq<nat>): (r: seq<nat>)
    decreases |s|
  {
    if |s| < 2 then s
    else if s[0] == s[1] then Dedup([s[0]] + s[2..])
    else [s[0]] + Dedup(s[1..])
  }

  lemma {:induction false} InsertAdds(x: nat, s: seq<nat>)
    ensures multiset(Insert(x, s)) == multiset{x} + multiset(s)
  {
    if s != [] && x > s[0] {
      InsertAdds(x, s[1..]);
      assert s == [s[0]] + s[1..];
    }
  }

  lemma {:induction false} InsertSorts(x: nat, s: seq<nat>)
    requires Ascending(s)
    ensures Ascending(Insert(x, s))
  {
    if s != [] && x > s[0] {
      InsertSorts(x, s[1..]);
      var r := Insert(x, s[1..]);
      forall i | 0 <= i < |r|
        ensures s[0] <= r[i]
      {
        InsertAdds(x, s[1..]);
        assert r[i] in multiset(r);
        assert r[i] == x || r[i] in s[1..];
      }
    }
  }

  lemma {:induction false} SortSorts(s: seq<nat>)
    ensures Ascending(Sort(s)) && multiset(Sort(s)) == multiset(s)
  {
    if s != [] {
      SortSorts(s[1..]);
      InsertSorts(s[0], Sort(s[1..]));
      InsertAdds(s[0], Sort(s[1..]));
      assert s == [s[0]] + s[1..];
    }
  }

  /** Removing repeats from an ascending list leaves each of its values once, in order. */
  lemma {:induction false} DedupKeeps(s: seq<nat>)
    requires Ascending(s)
    ensures StrictlyAscending(Dedup(s)) && (s != [] ==> Dedup(s) != [] && Dedup(s)[0] == s[0])
    ensures forall x :: x in Dedup(s) <==> x in s
    decreases |s|
  {
    if |s| >= 2 {
      if s[0] == s[1] {
        var t := [s[0]] + s[2..];
        assert t == s[1..];
        DedupKeeps(t);
        assert forall x :: x in s <==> x == s[0] || x in s[1..];
      } else {
        DedupKeeps(s[1..]);
        var d := Dedup(s[1..]);
        forall i | 0 <= i < |d|
          ensures s[0] < d[i]
        {
          assert d[i] in s[1..];
        }
        assert forall x :: x in s <==> x == s[0] || x in s[1..];
      }
    }
  }

  /** Blank parts are skipped; the first part that is no size is the error. */
  function Values(parts: seq<string>): (r: Result<seq<nat>, Error>)
    ensures r.Ok? ==> forall i :: 0 <= i < |r.value| ==> 1 <= r.value[i] <= MAX_U32
  {
    if parts == [] then Ok([])
    else if Trim(parts[0]) == [] then Values(parts[1..])
    else
      var v := ParseOneSize(parts[0]);
      if v.Err? then Err(v.error) else Then([v.value], Values(parts[1..]))
  }

  /** Part `i` is a size and that size is `x`. */
  predicate Names(part: string, x: nat)
  {
    Trim(part) != [] && ParseOneSize(part) == Ok(x)
  }

  /** Some part of the list names `x`. */
  ghost predicate NamedIn(parts: seq<string>, x: nat)
  {
    exists i :: 0 <= i < |parts| && Names(parts[i], x)
  }

  predicate IsSize(part: string)
  {
    Trim(part) != [] && ParseOneSize(part).Ok?
  }

  ghost predicate HasSize(parts: seq<string>)
  {
    exists i :: 0 <= i < |parts| && IsSize(parts[i])
  }

  predicate Refused(part: string)
  {
    Trim(part) != [] && ParseOneSize(part).Err?
  }

  /** A list is read if and only if no part is refused, and then gives exactly the named sizes. */
  lemma {:induction false} ValuesExact(parts: seq<string>)
    ensures Values(parts).Ok? <==> forall i :: 0 <= i < |parts| ==> !Refused(parts[i])
    ensures Values(parts).Ok? ==>
      forall x: nat :: x in Values(parts).value <==> NamedIn(parts, x)
  {
    hide Trim, ParseOneSize;
    if parts != [] {
      var rest := parts[1..];
      ValuesExact(rest);
      assert parts == [parts[0]] + rest;
      assert forall i :: 0 <= i < |rest| ==> rest[i] == parts[i + 1];
      if Values(parts).Ok? {
        forall x: nat
          ensures x in Values(parts).value <==> NamedIn(parts, x)
        {
          NamesShift(parts, x);
        }
      }
    }
  }

  lemma NamesShift(parts: seq<string>, x: nat)
    requires parts != []
    ensures NamedIn(parts, x) <==> Names(parts[0], x) || NamedIn(parts[1..], x)
  {
    if i :| 0 <= i < |parts| && Names(parts[i], x) {
      if i > 0 {
        assert parts[1..][i - 1] == parts[i];
      }
    }
    if i :| 0 <= i < |parts[1..]| && Names(parts[1..][i], x) {
      assert parts[i + 1] == parts[1..][i];
    }
  }

  // ---------------------------------------------------------------- the whole specification

  /** A spec with `..` is a range. */
  function Range(s: string, k: nat): (r: Result<seq<nat>, Error>)
    requires k + 1 < |s|
  {
    var first := ParseOneSize(s[..k]);
    if first.Err? then Err(first.error) else
    var last := ParseOneSize(s[k + 2..]);
    if last.Err? then Err(last.error) else
    if last.value < first.value then Err(EmptyRange) else Ok(Doubles(first.value, last.value))
  }

  /** Any other spec is a list. */
  function List(s: string): (r: Result<seq<nat>, Error>)
  {
    var vs := Values(SplitCommas(s));
    if vs.Err? then Err(vs.error)
    else if vs.value == [] then Err(EmptySpec)
    else Ok(Dedup(Sort(vs.value)))
  }

  function Sweep(spec: string): (r: Result<seq<nat>, Error>)
  {
    var s := Trim(spec);
    if s == [] then Err(EmptySpec)
    else if FindDots(s, 0) < |s| then Range(s, FindDots(s, 0))
    else List(s)
  }

  method ParseSizes(spec: string) returns (r: Result<seq<nat>, Error>)
    ensures r == Sweep(spec)
  {
    hide Trim, ParseOneSize, SplitCommas, Sort, Dedup, Doubles, Values;
    var s := Trim(spec);
    if s == [] {
      return Err(EmptySpec);
    }
    var k := FindDots(s, 0);
    if k < |s| {
      var first := ParseOneSize(s[..k]);
      if first.Err? { return Err(first.error); }
      var last := ParseOneSize(s[k + 2..]);
      if last.Err? { return Err(last.error); }
      if last.value < first.value { return Err(EmptyRange); }
      var doubled := DoubleUpTo(first.value, last.value);
      return Ok(doubled);
    }
    var sizes := CollectSizes(SplitCommas(s));
    if sizes.Err? { return Err(sizes.error); }
    if sizes.value == [] { return Err(EmptySpec); }
    return Ok(Dedup(Sort(sizes.value)));
  }

  /** The loop over the parts of a list. */
  method CollectSizes(parts: seq<string>) returns (r: Result<seq<nat>, Error>)
    ensures r == Values(parts)
  {
    hide Trim, ParseOneSize;
    var sizes: seq<nat> := [];
    assert parts[0..] == parts;
    ThenNothing(Values(parts));
    for i := 0 to |parts|
      invariant Values(parts) == Then(sizes, Values(parts[i..]))
    {
      assert parts[i..][0] == parts[i] && parts[i..][1..] == parts[i + 1..];
      if Trim(parts[i]) != [] {
        var v := ParseOneSize(parts[i]);
        if v.Err? { return Err(v.error); }
        ThenThen(sizes, [v.value], Values(parts[i + 1..]));
        sizes := sizes + [v.value];
      }
    }
    assert sizes + [] == sizes;
    return Ok(sizes);
  }

  /** A list is accepted exactly when some part is a size and none is refused. */
  lemma ListAccepted(s: string)
    ensures var parts := SplitCommas(s);
      List(s).Ok? <==>
      (forall i :: 0 <= i < |parts| ==> !Refused(parts[i])) && HasSize(parts)
  {
    hide SplitCommas, Names, Refused, IsSize, Sort, Dedup, Values;
    var parts := SplitCommas(s);
    ValuesExact(parts);
    var vs := Values(parts);
    if vs.Ok? {
      if vs.value != [] {
        assert vs.value[0] in vs.value;
        assert NamedIn(parts, vs.value[0]);
        var i :| 0 <= i < |parts| && Names(parts[i], vs.value[0]);
        NamedIsSize(parts[i], vs.value[0]);
        assert HasSize(parts);
      }
      if HasSize(parts) {
        var i :| 0 <= i < |parts| && IsSize(parts[i]);
        var x := SizeIsNamed(parts[i]);
        assert NamedIn(parts, x);
        assert x in vs.value;
        assert vs.value != [];
      }
    }
  }

  lemma NamedIsSize(part: string, x: nat)
    requires Names(part, x)
    ensures IsSize(part)
  {
  }

  lemma SizeIsNamed(part: string) returns (x: nat)
    requires IsSize(part)
    ensures Names(part, x)
  {
    x := ParseOneSize(part).value;
  }

  /** An accepted list gives exactly the sizes its parts name, each once and in order. */
  lemma ListExact(s: string)
    requires List(s).Ok?
    ensures List(s).value != [] && StrictlyAscending(List(s).value)
    ensures forall x: nat :: x in List(s).value <==> NamedIn(SplitCommas(s), x)
  {
    hide SplitCommas, Names, Refused, Sort, Dedup, Values, StrictlyAscending;
    ValuesExact(SplitCommas(s));
    var vs := Values(SplitCommas(s)).value;
    SortSorts(vs);
    SortMembers(vs);
    DedupKeeps(Sort(vs));
  }

  lemma SortMembers(s: seq<nat>)
    ensures forall x :: x in Sort(s) <==> x in s
    ensures s != [] ==> Sort(s) != []
  {
    SortSorts(s);
    forall x
      ensures x in Sort(s) <==> x in s
    {
      assert x in Sort(s) <==> x in multiset(Sort(s));
      assert x in s <==> x in multiset(s);
    }
    assert |multiset(s)| == |s| && |multiset(Sort(s))| == |Sort(s)|;
  }

  /** Whatever is accepted is a non-empty, strictly ascending list of sizes a 32-bit length can hold. */
  lemma SweepIsSound(spec: string)
    requires Sweep(spec).Ok?
    ensures var sizes := Sweep(spec).value;
      sizes != [] && StrictlyAscending(sizes) && forall x :: x in sizes ==> 1 <= x <= MAX_U32
  {
    hide Trim, ParseOneSize, SplitCommas, Sort, Dedup, Pow2;
    var s := Trim(spec);
    var k := FindDots(s, 0);
    if k < |s| {
      var first, last := ParseOneSize(s[..k]).value, ParseOneSize(s[k + 2..]).value;
      DoublesExact(first, last);
      DoublesAt(first, last);
      forall x | x in Doubles(first, last)
        ensures 1 <= x <= MAX_U32
      {
        var n: nat :| x == first * Pow2(n);
        DoublingGrows(first, 0, n);
      }
    } else {
      ListExact(s);
      ListInRange(s);
    }
  }

  lemma ListInRange(s: string)
    requires List(s).Ok?
    ensures forall x :: x in List(s).value ==> 1 <= x <= MAX_U32
  {
    hide ParseOneSize, SplitCommas, Sort, Dedup;
    var vs := Values(SplitCommas(s)).value;
    SortSorts(vs);
    SortMembers(vs);
    DedupKeeps(Sort(vs));
  }

  /** A range is accepted exactly when both ends are sizes in order; it gives all doublings. */
  lemma RangeExact(s: string, k: nat, first: nat, last: nat)
    requires k + 1 < |s|
    ensures Range(s, k).Ok? <==>
      && ParseOneSize(s[..k]).Ok? && ParseOneSize(s[k + 2..]).Ok?
      && ParseOneSize(s[..k]).value <= ParseOneSize(s[k + 2..]).value
    ensures Range(s, k).Ok? && ParseOneSize(s[..k]) == Ok(first) && ParseOneSize(s[k + 2..]) == Ok(last) ==>
      forall x: nat :: x in Range(s, k).value <==> x <= last && IsDoubling(x, first)
  {
    hide ParseOneSize, Doubles, IsDoubling;
    if ParseOneSize(s[..k]) == Ok(first) {
      DoublesExact(first, last);
    }
  }

  /** The first refused part of a list is its error. */
  lemma {:induction false} FirstRefusedIsError(parts: seq<string>, i: nat)
    requires i < |parts| && Refused(parts[i]) && forall k :: 0 <= k < i ==> !Refused(parts[k])
    ensures Values(parts) == Err(ParseOneSize(parts[i]).error)
  {
    hide Trim, ParseOneSize;
    if i > 0 {
      FirstRefusedIsError(parts[1..], i - 1);
    }
  }

  /** No two dots in a row before position `k`. */
  predicate NoDots(s: string, k: nat)
  {
    forall i :: 0 <= i < k && i + 1 < |s| ==> !(s[i] == '.' && s[i + 1] == '.')
  }

  /** A spec with two dots is a range between what stands before the first pair and after it. */
  lemma RangeIsRead(spec: string, first: string, last: string)
    requires Trim(spec) == first + ".." + last && NoDots(Trim(spec), |first|)
    ensures Sweep(spec) ==
      if ParseOneSize(first).Err? then Err(ParseOneSize(first).error)
      else if ParseOneSize(last).Err? then Err(ParseOneSize(last).error)
      else if ParseOneSize(last).value < ParseOneSize(first).value then Err(EmptyRange)
      else Ok(Doubles(ParseOneSize(first).value, ParseOneSize(last).value))
  {
    hide Trim, ParseOneSize, Doubles;
    var s := Trim(spec);
    var k := FindDots(s, 0);
    assert s[|first|] == '.' && s[|first| + 1] == '.';
    assert k == |first|;
    assert s[..k] == first && s[k + 2..] == last;
  }

  /** A spec without two dots is a list; a blank one, or one of blank parts, is empty. */
  lemma ListIsRead(spec: string)
    requires NoDots(Trim(spec), |Trim(spec)|)
    ensures var parts := SplitCommas(Trim(spec));
      && (Trim(spec) == [] ==> Sweep(spec) == Err(EmptySpec))
      && (Trim(spec) != [] ==> Sweep(spec) == List(Trim(spec)))
      && (AllBlank(parts) ==> Sweep(spec) == Err(EmptySpec))
  {
    hide Trim, ParseOneSize, SplitCommas;
    var s := Trim(spec);
    assert FindDots(s, 0) == |s|;
    if AllBlank(SplitCommas(s)) {
      BlanksHaveNoValues(SplitCommas(s));
    }
  }

  predicate AllBlank(parts: seq<string>)
  {
    forall i :: 0 <= i < |parts| ==> Trim(parts[i]) == []
  }

  lemma {:induction false} BlanksHaveNoValues(parts: seq<string>)
    requires AllBlank(parts)
    ensures Values(parts) == Ok([])
  {
    hide Trim, ParseOneSize;
    if parts != [] {
      BlanksHaveNoValues(parts[1..]);
    }
  }

  // ---------------------------------------------------------------- every sweep can be written

  function Printed(sizes: seq<nat>): (parts: seq<string>)
    ensures |parts| == |sizes| && forall i :: 0 <= i < |sizes| ==> parts[i] == Decimal(sizes[i])
  {
    if sizes == [] then [] else [Decimal(sizes[0])] + Printed(sizes[1..])
  }

  lemma {:induction false} PrintedValues(sizes: seq<nat>)
    requires forall i :: 0 <= i < |sizes| ==> 1 <= sizes[i] <= MAX_U32
    ensures Values(Printed(sizes)) == Ok(sizes)
  {
    hide Trim, ParseOneSize, Decimal;
    if sizes != [] {
      PrintedValues(sizes[1..]);
      PrintedSizeParses(sizes[0]);
      DecimalIsTight(sizes[0], []);
      assert Decimal(sizes[0]) + [] == Decimal(sizes[0]);
      assert Printed(sizes)[1..] == Printed(sizes[1..]);
      assert sizes == [sizes[0]] + sizes[1..];
    }
  }

  lemma {:induction false} SortOfAscending(s: seq<nat>)
    requires StrictlyAscending(s)
    ensures Sort(s) == s && Dedup(s) == s
  {
    if s != [] {
      SortOfAscending(s[1..]);
      assert s == [s[0]] + s[1..];
    }
  }

  /** No character of joined digits is a dot, a space or a second dot. */
  predicate DigitsAndCommas(s: string)
  {
    forall i :: 0 <= i < |s| ==> IsDigit(s[i]) || s[i] == ','
  }

  lemma {:induction false} JoinedDigits(parts: seq<string>)
    requires |parts| > 0 && forall i :: 0 <= i < |parts| ==> |parts[i]| > 0 && AllDigits(parts[i])
    ensures var s := JoinCommas(parts);
      |s| > 0 && DigitsAndCommas(s) && IsDigit(s[0]) && IsDigit(s[|s| - 1])
  {
    if |parts| > 1 {
      JoinedDigits(parts[1..]);
    }
  }

  /** Every non-empty strictly ascending list of sizes is the sweep of its own comma list. */
  lemma EverySweepCanBeWritten(sizes: seq<nat>)
    requires sizes != [] && StrictlyAscending(sizes) && forall i :: 0 <= i < |sizes| ==> 1 <= sizes[i] <= MAX_U32
    ensures Sweep(JoinCommas(Printed(sizes))) == Ok(sizes)
  {
    hide Decimal, JoinCommas, SplitCommas, Sort, Dedup, Values, Trim;
    var parts := Printed(sizes);
    var s := JoinCommas(parts);
    JoinedDigits(parts);
    TrimTight(s);
    assert FindDots(s, 0) == |s|;
    forall i | 0 <= i < |parts|
      ensures NoComma(parts[i])
    {
      assert AllDigits(parts[i]);
    }
    SplitOfJoin(parts);
    PrintedValues(sizes);
    SortOfAscending(sizes);
  }

  // ---------------------------------------------------------------- the serve side

  function ResolveBufLen(bufLen: Option<nat>, sizes: Option<string>): (r: Result<nat, Error>)
  {
    if bufLen.Some? then (if bufLen.value == 0 then Err(ZeroBufLen) else Ok(bufLen.value))
    else if sizes.None? then Ok(DEFAULT_BUF_LEN)
    else
      var sweep := Sweep(sizes.value);
      if sweep.Err? then Err(sweep.error)
      else
        SweepIsSound(sizes.value);
        Ok(sweep.value[|sweep.value| - 1])
  }

  /**
   * A serve buffer sized from the sweep holds every swept size and is no larger than the
   * largest; an explicit length is taken as it is and holds them if and only if it is at
   * least that.
   */
  lemma ServeBufferHoldsSweep(spec: string, bufLen: Option<nat>)
    requires Sweep(spec).Ok? && bufLen != Some(0)
    ensures var sizes := Sweep(spec).value;
      var auto, n := ResolveBufLen(None, Some(spec)), ResolveBufLen(bufLen, Some(spec));
      && auto.Ok? && auto.value in sizes && (forall x :: x in sizes ==> x <= auto.value)
      && n.Ok? && ((forall x :: x in sizes ==> x <= n.value) <==> n.value >= auto.value)
  {
    hide Sweep;
    SweepIsSound(spec);
    var sizes := Sweep(spec).value;
    var top := sizes[|sizes| - 1];
    forall x | x in sizes
      ensures x <= top
    {
      var i :| 0 <= i < |sizes| && sizes[i] == x;
    }
  }

  /** An explicit length is taken as it is, zero refused; without it and a sweep it is 1 MiB. */
  lemma BufferWithoutSweep(n: nat, sizes: Option<string>)
    ensures ResolveBufLen(Some(n), sizes) == if n == 0 then Err(ZeroBufLen) else Ok(n)
    ensures ResolveBufLen(None, None) == Ok(Pow2(20))
    ensures sizes.Some? && Sweep(sizes.value).Err? ==>
      ResolveBufLen(None, sizes) == Err(Sweep(sizes.value).error)
  {
    hide Sweep;
    Powers();
  }
}
