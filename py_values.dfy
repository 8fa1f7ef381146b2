/**
 * The loosely typed Python values that declarative input arrives as, and the
 * handful of Python 2.7 built-in behaviours the spec layer relies on: truth
 * value, `str()`, `int()`, `str.upper()`, `str.lstrip()`, `dict.get()` and the
 * ordered mapping used for `extra_params`.
 */
module PyValues {
  import opened Wrappers

  /** The three container types that `isinstance(x, (tuple, list, set))` accepts. */
  datatype SeqKind = Tuple | List | Set

  /**
   * A Python value as it comes out of the YAML loader. A set is given with
   * the order in which Python happens to iterate it.
   */
  datatype Value =
    | NoneVal
    | BoolVal(b: bool)
    | IntVal(i: int)
    | StrVal(s: string)
    | SeqVal(kind: SeqKind, items: seq<Value>)
    | DictVal(entries: map<string, Value>)

  /** The exceptions the modelled code raises or lets through. */
  datatype Error =
    | ValueError(message: string)
    | TypeError           // raised by the interpreter (item assignment on a non-dict, int() of a container)
    | AttributeError      // raised by the interpreter (a method called on a value that lacks it)
    | ZeroDivisionError   // `x % 0`
    | HostError(message: string)  // raised by a host-platform collaborator

  /** Python's truth value: `if v:`. */
  predicate Truthy(v: Value) {
    match v
    case NoneVal => false
    case BoolVal(b) => b
    case IntVal(i) => i != 0
    case StrVal(s) => s != ""
    case SeqVal(_, items) => items != []
    case DictVal(m) => m != map[]
  }

  /**
   * The falsy values are exactly None, False, 0, the empty string and the
   * empty tuple, list, set and dict; everything else is truthy.
   */
  lemma FalsyValues(v: Value)
    ensures !Truthy(v) <==>
              v == NoneVal || v == BoolVal(false) || v == IntVal(0) || v == StrVal("") ||
              (v.SeqVal? && v == SeqVal(v.kind, [])) || v == DictVal(map[])
  {
  }

  /** `d.get(key)`: the stored value, or None when the key is absent. */
  function DictGet(m: map<string, Value>, key: string): (r: Value)
    ensures key in m ==> r == m[key]
    ensures key !in m ==> r == NoneVal
  {
    if key in m then m[key] else NoneVal
  }

  // ---------------------------------------------------------------------
  // Characters and strings (Python 2 byte strings, C locale)
  // ---------------------------------------------------------------------

  /** `isspace()` in the C locale: space, \t, \n, \v, \f, \r. */
  predicate IsSpace(c: char) {
    c == ' ' || 9 <= c as int <= 13
  }

  predicate IsDigit(c: char) {
    '0' <= c <= '9'
  }

  predicate AllDigits(s: string) {
    forall k :: 0 <= k < |s| ==> IsDigit(s[k])
  }

  function UpperChar(c: char): char {
    if 'a' <= c <= 'z' then (c as int - 32) as char else c
  }

  /** `s.upper()`: ASCII letters only, as for a byte string in the C locale. */
  function AsciiUpper(s: string): (r: string)
    ensures |r| == |s|
    ensures forall k :: 0 <= k < |s| ==> r[k] == UpperChar(s[k])
  {
    seq(|s|, k requires 0 <= k < |s| => UpperChar(s[k]))
  }

  /** Upper-casing twice is upper-casing once. */
  lemma AsciiUpperIdempotent(s: string)
    ensures AsciiUpper(AsciiUpper(s)) == AsciiUpper(s)
  {
  }

  /** `s.lstrip(c)`: drops every leading occurrence of `c`. */
  function LStrip(s: string, c: char): (r: string)
    ensures |r| <= |s| && r == s[|s| - |r|..]
    ensures r == [] || r[0] != c
    ensures forall k :: 0 <= k < |s| - |r| ==> s[k] == c
  {
    if s != [] && s[0] == c then LStrip(s[1..], c) else s
  }

  /** `sep.join(parts)`. */
  function Join(parts: seq<string>, sep: string): string {
    if parts == [] then ""
    else if |parts| == 1 then parts[0]
    else parts[0] + sep + Join(parts[1..], sep)
  }

  /** The index of the first character from `i` on that is not whitespace, or `|s|`. */
  function SkipSpace(s: string, i: nat): (r: nat)
    requires i <= |s|
    ensures i <= r <= |s| && (r == |s| || !IsSpace(s[r]))
    decreases |s| - i
  {
    if i < |s| && IsSpace(s[i]) then SkipSpace(s, i + 1) else i
  }

  /** The index just past the last character before `j` that is not whitespace, or 0. */
  function SkipSpaceBack(s: string, j: nat): (r: nat)
    requires j <= |s|
    ensures r <= j && (r == 0 || !IsSpace(s[r - 1]))
  {
    if 0 < j && IsSpace(s[j - 1]) then SkipSpaceBack(s, j - 1) else j
  }

  /** Drops leading whitespace. */
  function TrimStart(s: string): (r: string)
    ensures |r| <= |s| && r == s[|s| - |r|..]
    ensures r == [] || !IsSpace(r[0])
  {
    s[SkipSpace(s, 0)..]
  }

  /** Drops trailing whitespace. */
  function TrimEnd(s: string): (r: string)
    ensures |r| <= |s| && r == s[..|r|]
    ensures r == [] || !IsSpace(r[|r| - 1])
  {
    s[..SkipSpaceBack(s, |s|)]
  }

  // ---------------------------------------------------------------------
  // Integers: str() and int()
  // ---------------------------------------------------------------------

  function DigitChar(d: nat): char
    requires d < 10
  {
    ('0' as int + d) as char
  }

  function DigitValue(c: char): nat
    requires IsDigit(c)
  {
    c as int - '0' as int
  }

  /** Decimal digits of a natural number, without leading zeros. */
  function NatToString(n: nat): (r: string)
    ensures r != [] && AllDigits(r)
  {
    if n < 10 then [DigitChar(n)] else NatToString(n / 10) + [DigitChar(n % 10)]
  }

  /** `str(i)` for an integer. */
  function IntToString(i: int): string {
    if i < 0 then "-" + NatToString(-i) else NatToString(i)
  }

  /** The number a string of decimal digits denotes. */
  function DigitsValue(s: string): nat
    requires AllDigits(s)
  {
    if s == [] then 0 else 10 * DigitsValue(s[..|s| - 1]) + DigitValue(s[|s| - 1])
  }

  /**
   * `int(s)` for a string in Python 2.7: surrounding whitespace is ignored,
   * an optional sign may be followed by more whitespace, and at least one
   * decimal digit must follow; anything else is a ValueError (None here).
   */
  function ParseIntLiteral(s: string): (r: Option<int>)
    ensures TrimEnd(TrimStart(s)) == [] ==> r.None?
  {
    var t := TrimEnd(TrimStart(s));
    if t == [] then None else ParseSigned(t)
  }

  /** A trimmed, non-empty literal: an optional sign, then whitespace and digits. */
  function ParseSigned(t: string): Option<int>
    requires t != []
  {
    var unsigned := if t[0] == '-' || t[0] == '+' then t[1..] else t;
    ParseDigits(t[0] == '-', TrimStart(unsigned))
  }

  /** What follows the sign and its whitespace: at least one digit and nothing else. */
  function ParseDigits(negative: bool, digits: string): Option<int> {
    if digits != [] && AllDigits(digits) then
      var n: int := DigitsValue(digits);
      Some(if negative then -n else n)
    else None
  }

  /** Every character of `s[i..j]` is whitespace. */
  predicate SpaceBetween(s: string, i: int, j: int)
    requires 0 <= i <= j <= |s|
  {
    forall k :: i <= k < j ==> IsSpace(s[k])
  }

  /** Every character of `s[i..j]` is a decimal digit. */
  predicate DigitsBetween(s: string, i: int, j: int)
    requires 0 <= i <= j <= |s|
  {
    forall k :: i <= k < j ==> IsDigit(s[k])
  }

  /**
   * The grammar `int()` accepts, with the cut points named: whitespace
   * `s[..i]`, an optional sign `s[i..j]`, whitespace `s[j..k]`, at least one
   * digit `s[k..l]`, whitespace `s[l..]`; `v` is the digits' value, negated
   * for a '-' sign.
   */
  predicate LiteralAt(s: string, i: int, j: int, k: int, l: int, v: int) {
    && 0 <= i <= j <= k < l <= |s|
    && SpaceBetween(s, 0, i)
    && (j == i || (j == i + 1 && (s[i] == '+' || s[i] == '-')))
    && SpaceBetween(s, j, k)
    && DigitsBetween(s, k, l)
    && SpaceBetween(s, l, |s|)
    && v == (if j == i + 1 && s[i] == '-' then -(DigitsValue(s[k..l]) as int) else DigitsValue(s[k..l]))
  }

  /** `s` is a decimal integer literal, as Python 2.7's `int()` reads one, denoting `v`. */
  ghost predicate IsIntLiteral(s: string, v: int) {
    exists i, j, k, l :: LiteralAt(s, i, j, k, l, v)
  }

  /** Whitespace in the whole is whitespace in a slice. */
  lemma SpaceToSlice(s: string, a: int, b: int, c: int, d: int)
    requires 0 <= a <= b <= |s| && 0 <= c <= d <= b - a && SpaceBetween(s, a + c, a + d)
    ensures SpaceBetween(s[a..b], c, d)
  {
    forall n | c <= n < d ensures IsSpace(s[a..b][n]) {
      assert s[a..b][n] == s[a + n];
    }
  }

  /** Whitespace in a slice is whitespace in the whole. */
  lemma SpaceFromSlice(s: string, a: int, b: int, c: int, d: int)
    requires 0 <= a <= b <= |s| && 0 <= c <= d <= b - a && SpaceBetween(s[a..b], c, d)
    ensures SpaceBetween(s, a + c, a + d)
  {
    forall n | a + c <= n < a + d ensures IsSpace(s[n]) {
      assert s[a..b][n - a] == s[n];
    }
  }

  /** Whitespace in the whole is whitespace in a suffix. */
  lemma SpaceToSuffix(s: string, a: int, c: int, d: int)
    requires 0 <= a <= |s| && 0 <= c <= d <= |s| - a && SpaceBetween(s, a + c, a + d)
    ensures SpaceBetween(s[a..], c, d)
  {
    forall n | c <= n < d ensures IsSpace(s[a..][n]) {
      assert s[a..][n] == s[a + n];
    }
  }

  /** Whitespace in a suffix is whitespace in the whole. */
  lemma SpaceFromSuffix(s: string, a: int, c: int, d: int)
    requires 0 <= a <= |s| && 0 <= c <= d <= |s| - a && SpaceBetween(s[a..], c, d)
    ensures SpaceBetween(s, a + c, a + d)
  {
    forall n | a + c <= n < a + d ensures IsSpace(s[n]) {
      assert s[a..][n - a] == s[n];
    }
  }

  /** Everything `SkipSpace` passes over is whitespace. */
  lemma {:induction false} SkipSpaceDropsSpace(s: string, i: nat)
    requires i <= |s|
    ensures SpaceBetween(s, i, SkipSpace(s, i))
    decreases |s| - i
  {
    if i < |s| && IsSpace(s[i]) {
      SkipSpaceDropsSpace(s, i + 1);
    }
  }

  /** Everything `SkipSpaceBack` passes over is whitespace. */
  lemma {:induction false} SkipSpaceBackDropsSpace(s: string, j: nat)
    requires j <= |s|
    ensures SpaceBetween(s, SkipSpaceBack(s, j), j)
  {
    if 0 < j && IsSpace(s[j - 1]) {
      SkipSpaceBackDropsSpace(s, j - 1);
    }
  }

  /** Everything `TrimStart` drops is whitespace. */
  lemma TrimStartDropsSpace(s: string)
    ensures SpaceBetween(s, 0, |s| - |TrimStart(s)|)
  {
    SkipSpaceDropsSpace(s, 0);
  }

  /** Everything `TrimEnd` drops is whitespace. */
  lemma TrimEndDropsSpace(s: string)
    ensures SpaceBetween(s, |TrimEnd(s)|, |s|)
  {
    SkipSpaceBackDropsSpace(s, |s|);
  }

  /** Skipping leading whitespace stops at the first character that is not whitespace. */
  lemma TrimStartAt(s: string, m: int)
    requires 0 <= m <= |s| && SpaceBetween(s, 0, m) && (m == |s| || !IsSpace(s[m]))
    ensures TrimStart(s) == s[m..]
  {
    TrimStartDropsSpace(s);
  }

  /** Dropping trailing whitespace stops after the last character that is not whitespace. */
  lemma TrimEndAt(s: string, m: int)
    requires 0 <= m <= |s| && SpaceBetween(s, m, |s|) && (m == 0 || !IsSpace(s[m - 1]))
    ensures TrimEnd(s) == s[..m]
  {
    TrimEndDropsSpace(s);
  }

  /** A prefix of a suffix is a slice of the whole. */
  lemma PrefixOfSuffix(s: string, a: int, b: int)
    requires 0 <= a <= b <= |s|
    ensures s[a..][..b - a] == s[a..b]
  {
  }

  /** A suffix of a slice is a slice of the whole. */
  lemma SuffixOfSlice(s: string, a: int, b: int, m: int)
    requires 0 <= a && 0 <= m && a + m <= b <= |s|
    ensures s[a..b][m..] == s[a + m..b]
  {
  }

  /** Trimming both ends of `s` leaves `s[a..b]` when that is where the non-whitespace begins and ends. */
  lemma TrimBothAt(s: string, a: int, b: int)
    requires 0 <= a < b <= |s| && SpaceBetween(s, 0, a) && SpaceBetween(s, b, |s|)
    requires !IsSpace(s[a]) && !IsSpace(s[b - 1])
    ensures TrimEnd(TrimStart(s)) == s[a..b]
  {
    TrimStartAt(s, a);
    var u := s[a..];
    SpaceToSuffix(s, a, b - a, |s| - a);
    assert u[b - a - 1] == s[b - 1];
    TrimEndAt(u, b - a);
    PrefixOfSuffix(s, a, b);
    calc {
      TrimEnd(TrimStart(s));
      TrimEnd(u);
      u[..b - a];
      s[a..b];
    }
  }

  /** The digits of a literal form a string of digits. */
  lemma DigitsSlice(s: string, k: int, l: int)
    requires 0 <= k <= l <= |s| && DigitsBetween(s, k, l)
    ensures AllDigits(s[k..l])
  {
    forall n | 0 <= n < l - k ensures IsDigit(s[k..l][n]) {
      assert s[k..l][n] == s[k + n];
    }
  }

  /** A slice made of digits is a run of digits in the whole. */
  lemma DigitsOfSlice(s: string, k: int, l: int)
    requires 0 <= k <= l <= |s| && AllDigits(s[k..l])
    ensures DigitsBetween(s, k, l)
  {
    forall n | k <= n < l ensures IsDigit(s[n]) {
      assert s[k..l][n - k] == s[n];
    }
  }

  /** The unsigned part of a literal: whitespace, then digits, then nothing. */
  lemma UnsignedAt(s: string, j: int, k: int, l: int)
    requires 0 <= j <= k < l <= |s| && SpaceBetween(s, j, k) && DigitsBetween(s, k, l)
    ensures TrimStart(s[j..l]) == s[k..l] && AllDigits(s[k..l])
  {
    var w := s[j..l];
    SpaceToSlice(s, j, l, 0, k - j);
    assert w[k - j] == s[k];
    TrimStartAt(w, k - j);
    SuffixOfSlice(s, j, l, k - j);
    calc {
      TrimStart(w);
      w[k - j..];
      s[k..l];
    }
    DigitsSlice(s, k, l);
  }

  /** A literal is read through the trimmed text from `a` to `b`. */
  lemma ParseThroughTrimmed(s: string, a: int, b: int)
    requires 0 <= a < b <= |s| && SpaceBetween(s, 0, a) && SpaceBetween(s, b, |s|)
    requires !IsSpace(s[a]) && !IsSpace(s[b - 1])
    ensures ParseIntLiteral(s) == ParseSigned(s[a..b])
  {
    TrimBothAt(s, a, b);
  }

  /** An unsigned literal is read through its digits. */
  lemma ParseUnsigned(s: string, k: int, l: int)
    requires 0 <= k < l <= |s| && DigitsBetween(s, k, l)
    ensures ParseSigned(s[k..l]) == ParseDigits(false, s[k..l])
  {
    var t := s[k..l];
    UnsignedAt(s, k, k, l);
    assert t[0] == s[k];
    ParseSignedNoSign(t);
  }

  /** Text that does not start with a sign is read as digits only. */
  lemma ParseSignedNoSign(t: string)
    requires t != [] && t[0] != '-' && t[0] != '+'
    ensures ParseSigned(t) == ParseDigits(false, TrimStart(t))
  {
  }

  /** A signed literal is read through the digits after the sign and its whitespace. */
  lemma ParseWithSign(s: string, i: int, k: int, l: int)
    requires 0 <= i < k < l <= |s| && (s[i] == '+' || s[i] == '-')
    requires SpaceBetween(s, i + 1, k) && DigitsBetween(s, k, l)
    ensures ParseSigned(s[i..l]) == ParseDigits(s[i] == '-', s[k..l])
  {
    UnsignedAt(s, i + 1, k, l);
    SuffixOfSlice(s, i, l, 1);
    assert s[i..l][0] == s[i];
  }

  /** A literal is read as the number it denotes. */
  lemma ParseIntLiteralAccepts(s: string, i: int, j: int, k: int, l: int, v: int)
    requires LiteralAt(s, i, j, k, l, v)
    ensures ParseIntLiteral(s) == Some(v)
  {
    DigitsSlice(s, k, l);
    var negative := j == i + 1 && s[i] == '-';
    assert ParseDigits(negative, s[k..l]) == Some(v);
    if j == i {
      assert SpaceBetween(s, 0, k);
      ParseThroughTrimmed(s, k, l);
      ParseUnsigned(s, k, l);
    } else {
      ParseThroughTrimmed(s, i, l);
      ParseWithSign(s, i, k, l);
    }
  }

  /** Where the trimmed text of a string lies in it. */
  lemma TrimmedPart(s: string) returns (i: int, l: int)
    requires TrimEnd(TrimStart(s)) != []
    ensures 0 <= i < l <= |s| && TrimEnd(TrimStart(s)) == s[i..l]
    ensures SpaceBetween(s, 0, i) && SpaceBetween(s, l, |s|)
  {
    var u := TrimStart(s);
    var t := TrimEnd(u);
    i := |s| - |u|;
    l := i + |t|;
    TrimStartDropsSpace(s);
    TrimEndDropsSpace(u);
    PrefixOfSuffix(s, i, l);
    SpaceFromSuffix(s, i, l - i, |s| - i);
  }

  /** Where the digits lie after a sign: whitespace up to `k`, digits from `k` on. */
  lemma DigitsPart(s: string, j: int, l: int) returns (k: int)
    requires 0 <= j < l <= |s|
    requires TrimStart(s[j..l]) != [] && AllDigits(TrimStart(s[j..l]))
    ensures j <= k < l && TrimStart(s[j..l]) == s[k..l]
    ensures SpaceBetween(s, j, k) && DigitsBetween(s, k, l)
  {
    var unsigned := s[j..l];
    var digits := TrimStart(unsigned);
    k := l - |digits|;
    SuffixOfSlice(s, j, l, k - j);
    assert digits == s[k..l];
    TrimStartDropsSpace(unsigned);
    SpaceFromSlice(s, j, l, 0, k - j);
    DigitsOfSlice(s, k, l);
  }

  /** The text after the sign of a trimmed literal, if it has one. */
  lemma UnsignedPart(s: string, i: int, l: int) returns (j: int)
    requires 0 <= i < l <= |s|
    ensures j == if s[i] == '-' || s[i] == '+' then i + 1 else i
    ensures ParseSigned(s[i..l]) == ParseDigits(s[i] == '-', TrimStart(s[j..l]))
  {
    var t := s[i..l];
    assert t[0] == s[i];
    j := if s[i] == '-' || s[i] == '+' then i + 1 else i;
    SuffixOfSlice(s, i, l, j - i);
  }

  /** Where the sign and the digits of an accepted trimmed literal lie. */
  lemma SignedPart(s: string, i: int, l: int) returns (j: int, k: int)
    requires 0 <= i < l <= |s| && ParseSigned(s[i..l]).Some?
    ensures i <= j <= k < l && (j == i || (j == i + 1 && (s[i] == '+' || s[i] == '-')))
    ensures SpaceBetween(s, j, k) && DigitsBetween(s, k, l)
    ensures ParseSigned(s[i..l]) == ParseDigits(j == i + 1 && s[i] == '-', s[k..l])
  {
    j := UnsignedPart(s, i, l);
    k := DigitsPart(s, j, l);
  }

  /** Whatever is read as a number is a literal denoting it. */
  lemma ParseIntLiteralIsLiteral(s: string) returns (i: int, j: int, k: int, l: int)
    requires ParseIntLiteral(s).Some?
    ensures LiteralAt(s, i, j, k, l, ParseIntLiteral(s).value)
  {
    i, l := TrimmedPart(s);
    j, k := SignedPart(s, i, l);
    DigitsSlice(s, k, l);
  }

  /**
   * `int(s)` succeeds exactly on the literals of `IsIntLiteral`, and gives the
   * number the literal denotes: optional whitespace, an optional sign,
   * optional whitespace, at least one decimal digit, optional whitespace.
   */
  lemma ParseIntLiteralSpec(s: string, v: int)
    ensures ParseIntLiteral(s) == Some(v) <==> IsIntLiteral(s, v)
  {
    if ParseIntLiteral(s) == Some(v) {
      var i, j, k, l := ParseIntLiteralIsLiteral(s);
      assert LiteralAt(s, i, j, k, l, v);
    }
    if IsIntLiteral(s, v) {
      var i, j, k, l :| LiteralAt(s, i, j, k, l, v);
      ParseIntLiteralAccepts(s, i, j, k, l, v);
    }
  }

  /** Every character of a literal is whitespace, a digit or a sign. */
  lemma LiteralCharacters(s: string, i: int, j: int, k: int, l: int, v: int)
    requires LiteralAt(s, i, j, k, l, v)
    ensures forall n :: 0 <= n < |s| ==> IsSpace(s[n]) || IsDigit(s[n]) || s[n] == '+' || s[n] == '-'
  {
  }

  /** A string without a decimal digit, such as "+", "-" or "red", is not a number. */
  lemma ParseIntLiteralNeedsDigit(s: string)
    requires forall n :: 0 <= n < |s| ==> !IsDigit(s[n])
    ensures ParseIntLiteral(s).None?
  {
    if ParseIntLiteral(s).Some? {
      var i, j, k, l := ParseIntLiteralIsLiteral(s);
      assert false;
    }
  }

  /**
   * Every character of a string `int()` accepts is whitespace, a digit or a
   * sign, so "red", "1a" and "0x10" raise ValueError.
   */
  lemma ParseIntLiteralCharacters(s: string)
    ensures ParseIntLiteral(s).Some? ==>
              forall n :: 0 <= n < |s| ==> IsSpace(s[n]) || IsDigit(s[n]) || s[n] == '+' || s[n] == '-'
  {
    if ParseIntLiteral(s).Some? {
      var i, j, k, l := ParseIntLiteralIsLiteral(s);
      LiteralCharacters(s, i, j, k, l, ParseIntLiteral(s).value);
    }
  }

  /** One character that is neither whitespace, a digit nor a sign makes `int()` raise: "red", "1a", "0x10". */
  lemma ParseIntLiteralRejects(s: string, n: int)
    requires 0 <= n < |s| && !IsSpace(s[n]) && !IsDigit(s[n]) && s[n] != '+' && s[n] != '-'
    ensures ParseIntLiteral(s).None?
  {
    ParseIntLiteralCharacters(s);
  }

  /** `int(v)`: None when Python raises TypeError or ValueError. */
  function PythonInt(v: Value): (r: Option<int>)
    ensures v.IntVal? ==> r == Some(v.i)
    ensures v.BoolVal? ==> r == Some(if v.b then 1 else 0)
    ensures v.NoneVal? || v.SeqVal? || v.DictVal? ==> r.None?
  {
    match v
    case NoneVal => None
    case BoolVal(b) => Some(if b then 1 else 0)
    case IntVal(i) => Some(i)
    case StrVal(s) => ParseIntLiteral(s)
    case SeqVal(_, _) => None
    case DictVal(_) => None
  }

  lemma {:induction false} DigitsValueOfNat(n: nat)
    ensures DigitsValue(NatToString(n)) == n
  {
    if n >= 10 {
      DigitsValueOfNat(n / 10);
      var s := NatToString(n);
      assert s[..|s| - 1] == NatToString(n / 10);
    }
  }

  /** The decimal rendering of an integer is a literal denoting it. */
  lemma IntToStringIsLiteral(i: int)
    ensures var s := IntToString(i);
            LiteralAt(s, 0, if i < 0 then 1 else 0, if i < 0 then 1 else 0, |s|, i)
  {
    var s := IntToString(i);
    var n: nat := if i < 0 then -i else i;
    var d := NatToString(n);
    var k := if i < 0 then 1 else 0;
    DigitsValueOfNat(n);
    assert s[k..|s|] == d;
    DigitsOfSlice(s, k, |s|);
  }

  /** `int(str(i)) == i`: the decimal rendering of an integer parses back to it. */
  lemma IntToStringRoundTrip(i: int)
    ensures ParseIntLiteral(IntToString(i)) == Some(i)
  {
    var k := if i < 0 then 1 else 0;
    IntToStringIsLiteral(i);
    ParseIntLiteralAccepts(IntToString(i), 0, k, k, |IntToString(i)|, i);
  }

  /** `int(str(i)) == i` for the `int()` of a value. */
  lemma PythonIntOfString(i: int)
    ensures PythonInt(StrVal(IntToString(i))) == Some(i)
  {
    IntToStringRoundTrip(i);
  }

  // ---------------------------------------------------------------------
  // str() of an arbitrary value
  // ---------------------------------------------------------------------

  /**
   * `str(v)`. Containers are rendered element by element with `repr()`; a
   * non-empty dict, whose iteration order Python leaves unspecified, is
   * rendered as "{...}".
   */
  function Render(v: Value): string
    decreases v, 1
  {
    match v
    case NoneVal => "None"
    case BoolVal(b) => if b then "True" else "False"
    case IntVal(i) => IntToString(i)
    case StrVal(s) => s
    case SeqVal(kind, items) =>
      (match kind
       case List => "[" + ReprItems(items, v) + "]"
       case Tuple => if |items| == 1 then "(" + Repr(items[0]) + ",)" else "(" + ReprItems(items, v) + ")"
       case Set => "set([" + ReprItems(items, v) + "])")
    case DictVal(m) => if m == map[] then "{}" else "{...}"
  }

  /** The `repr()` of each item, separated by ", ". */
  function ReprItems(items: seq<Value>, ghost parent: Value): string
    requires forall k :: 0 <= k < |items| ==> items[k] < parent
    decreases parent, 0, |items|
  {
    if items == [] then ""
    else if |items| == 1 then Repr(items[0])
    else Repr(items[0]) + ", " + ReprItems(items[1..], parent)
  }

  /** `repr(v)`: as `str(v)`, except that a string is quoted. */
  function Repr(v: Value): string
    decreases v, 2
  {
    if v.StrVal? then "'" + v.s + "'" else Render(v)
  }

  // ---------------------------------------------------------------------
  // Ordered mappings (OrderedDict) as sequences of key/value pairs
  // ---------------------------------------------------------------------

  type Entries = seq<(string, Value)>

  /** The keys, in order. */
  function Keys(ps: Entries): (r: seq<string>)
    ensures |r| == |ps| && forall k :: 0 <= k < |ps| ==> r[k] == ps[k].0
  {
    seq(|ps|, k requires 0 <= k < |ps| => ps[k].0)
  }

  /** A Python dict never holds a key twice. */
  predicate DistinctKeys(ps: Entries) {
    forall i, j :: 0 <= i < j < |ps| ==> ps[i].0 != ps[j].0
  }

  /** `d.get(key)`: the value stored under `key`, or None when it is absent. */
  function Get(ps: Entries, key: string): Value {
    if ps == [] then NoneVal
    else if ps[0].0 == key then ps[0].1
    else Get(ps[1..], key)
  }

  /** `Get` finds the value stored under the key, and None when no entry holds it. */
  lemma {:induction false} GetFinds(ps: Entries, key: string)
    ensures (forall k :: 0 <= k < |ps| ==> ps[k].0 != key) ==> Get(ps, key) == NoneVal
    ensures (exists k :: 0 <= k < |ps| && ps[k].0 == key) ==>
              exists k :: 0 <= k < |ps| && ps[k].0 == key && Get(ps, key) == ps[k].1
  {
    if ps != [] && ps[0].0 != key {
      GetFinds(ps[1..], key);
      assert forall k :: 1 <= k < |ps| ==> ps[1..][k - 1] == ps[k];
      if exists k :: 0 <= k < |ps| && ps[k].0 == key {
        var k :| 0 <= k < |ps| && ps[k].0 == key;
        assert ps[1..][k - 1].0 == key;
      }
    }
  }

  /**
   * `d[key] = v` for a key already present: the value is replaced where the
   * key stands, and the order of the keys is kept.
   */
  function Put(ps: Entries, key: string, v: Value): (r: Entries)
    ensures |r| == |ps|
    ensures forall k :: 0 <= k < |ps| ==> r[k].0 == ps[k].0
    ensures forall k :: 0 <= k < |ps| ==> r[k].1 == if ps[k].0 == key then v else ps[k].1
  {
    seq(|ps|, k requires 0 <= k < |ps| => if ps[k].0 == key then (key, v) else ps[k])
  }

  /** Reading a key back after storing it, when it was present. */
  lemma {:induction false} GetAfterPut(ps: Entries, key: string, v: Value, other: string)
    requires Get(ps, key) != NoneVal
    ensures Get(Put(ps, key, v), key) == v
    ensures other != key ==> Get(Put(ps, key, v), other) == Get(ps, other)
  {
    if ps != [] {
      assert Put(ps, key, v)[1..] == Put(ps[1..], key, v);
      if ps[0].0 != key {
        GetAfterPut(ps[1..], key, v, other);
      } else if other != key {
        GetPutOther(ps[1..], key, v, other);
      }
    }
  }

  lemma {:induction false} GetPutOther(ps: Entries, key: string, v: Value, other: string)
    requires other != key
    ensures Get(Put(ps, key, v), other) == Get(ps, other)
  {
    if ps != [] {
      assert Put(ps, key, v)[1..] == Put(ps[1..], key, v);
      GetPutOther(ps[1..], key, v, other);
    }
  }
}
