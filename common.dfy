/**
 * JavaScript built-ins that the modelled front-end code relies on, stated on
 * Dafny values: optional values, truthiness of sort keys, `Array.prototype.join`,
 * `Array.prototype.indexOf`, `Array.prototype.filter`, `String.prototype.indexOf`,
 * `includes` and `replace` with a string pattern, `String(n)` for integers and
 * `parseInt(s, 10)`.
 */
module Common {

  /** A value that may be `undefined`. */
  datatype Option<T> = None | Some(value: T)
  {
    /** `o ?? d`: the value when present, otherwise the default. */
    function GetOr(default: T): T
    {
      if Some? then value else default
    }
  }

  /** A value used as a table sort key: a string or an (integral, finite) number. */
  datatype SortValue = SText(text: string) | SNum(num: int)

  /** JavaScript truthiness of a sort key: `""` and `0` are the falsy ones. */
  predicate Truthy(v: SortValue)
  {
    match v
    case SText(s) => s != ""
    case SNum(n) => n != 0
  }

  /** JavaScript truthiness of an optional string: absent and `""` are falsy. */
  predicate TruthyText(o: Option<string>)
  {
    o.Some? && o.value != ""
  }

  // ---------------------------------------------------------------------------
  // Joining strings

  /** Sum of the lengths of the parts. */
  function TotalLength(parts: seq<string>): nat
  {
    if parts == [] then 0 else |parts[0]| + TotalLength(parts[1..])
  }

  /** `parts.join("")`. */
  function Concat(parts: seq<string>): string
  {
    if parts == [] then "" else parts[0] + Concat(parts[1..])
  }

  /** `parts.join(sep)`. */
  function Join(parts: seq<string>, sep: string): string
  {
    if parts == [] then ""
    else if |parts| == 1 then parts[0]
    else parts[0] + sep + Join(parts[1..], sep)
  }

  lemma {:induction false} ConcatLength(parts: seq<string>)
    ensures |Concat(parts)| == TotalLength(parts)
  {
    if parts != [] {
      ConcatLength(parts[1..]);
    }
  }

  lemma {:induction false} ConcatAppend(a: seq<string>, b: seq<string>)
    ensures Concat(a + b) == Concat(a) + Concat(b)
  {
    if a == [] {
      assert a + b == b;
    } else {
      assert (a + b)[1..] == a[1..] + b;
      ConcatAppend(a[1..], b);
    }
  }

  /** Joining with the empty separator is concatenation. */
  lemma {:induction false} JoinEmptySeparator(parts: seq<string>)
    ensures Join(parts, "") == Concat(parts)
  {
    if |parts| > 1 {
      JoinEmptySeparator(parts[1..]);
    } else if |parts| == 1 {
      assert parts[1..] == [];
    }
  }

  /** A non-empty join is as long as its parts plus one separator between each two. */
  lemma {:induction false} JoinLength(parts: seq<string>, sep: string)
    requires parts != []
    ensures |Join(parts, sep)| == TotalLength(parts) + (|parts| - 1) * |sep|
  {
    if |parts| == 1 {
      assert parts[1..] == [];
    } else {
      JoinLength(parts[1..], sep);
      calc {
        |Join(parts, sep)|;
        |parts[0]| + |sep| + |Join(parts[1..], sep)|;
        |parts[0]| + |sep| + TotalLength(parts[1..]) + (|parts| - 2) * |sep|;
        { assert |sep| + (|parts| - 2) * |sep| == (|parts| - 1) * |sep|; }
        TotalLength(parts) + (|parts| - 1) * |sep|;
      }
    }
  }

  /** Each part of a concatenation occurs in it, at the offset of the parts before it. */
  lemma {:induction false} ConcatContainsPart(parts: seq<string>, i: nat)
    requires i < |parts|
    ensures OccursAt(Concat(parts), parts[i], TotalLength(parts[..i]))
  {
    ConcatLength(parts[..i]);
    assert parts == parts[..i] + [parts[i]] + parts[i + 1..];
    ConcatAppend(parts[..i] + [parts[i]], parts[i + 1..]);
    ConcatAppend(parts[..i], [parts[i]]);
    assert Concat([parts[i]]) == parts[i] + Concat([]);
    var c := Concat(parts);
    assert c == Concat(parts[..i]) + parts[i] + Concat(parts[i + 1..]);
    assert c[|Concat(parts[..i])|..|Concat(parts[..i])| + |parts[i]|] == parts[i];
  }

  /** An occurrence stays an occurrence when text is put in front: it moves by the length of that text. */
  lemma OccursAtShift(a: string, t: string, sub: string, k: int)
    requires OccursAt(t, sub, k)
    ensures OccursAt(a + t, sub, |a| + k)
  {
    assert (a + t)[|a| + k..|a| + k + |sub|] == t[k..k + |sub|];
  }

  /**
   * Each part of `parts.join(sep)` occurs at the offset of the parts and
   * separators before it, and a separator follows every part but the last.
   */
  lemma {:induction false} JoinContainsPart(parts: seq<string>, sep: string, i: nat)
    requires i < |parts|
    ensures OccursAt(Join(parts, sep), parts[i], TotalLength(parts[..i]) + i * |sep|)
    ensures i < |parts| - 1 ==> OccursAt(Join(parts, sep), sep, TotalLength(parts[..i]) + i * |sep| + |parts[i]|)
  {
    var j := Join(parts, sep);
    if |parts| == 1 {
      assert j == parts[0];
      assert parts[..0] == [];
    } else {
      var tail := Join(parts[1..], sep);
      assert j == parts[0] + sep + tail;
      if i == 0 {
        assert parts[..0] == [];
        assert j[..|parts[0]|] == parts[0];
        assert j[|parts[0]|..|parts[0]| + |sep|] == sep;
      } else {
        JoinContainsPart(parts[1..], sep, i - 1);
        assert parts[..i][1..] == parts[1..][..i - 1];
        assert TotalLength(parts[..i]) == |parts[0]| + TotalLength(parts[1..][..i - 1]);
        var k := TotalLength(parts[1..][..i - 1]) + (i - 1) * |sep|;
        assert |parts[0] + sep| + k == TotalLength(parts[..i]) + i * |sep|;
        OccursAtShift(parts[0] + sep, tail, parts[i], k);
        if i < |parts| - 1 {
          OccursAtShift(parts[0] + sep, tail, sep, k + |parts[i]|);
        }
      }
    }
  }

  // ---------------------------------------------------------------------------
  // Searching sequences

  /** `s.indexOf(x)`: the first position of `x`, or -1. */
  function IndexOf<T(==)>(s: seq<T>, x: T): (i: int)
    ensures -1 <= i < |s|
    ensures i == -1 <==> x !in s
    ensures 0 <= i ==> s[i] == x && x !in s[..i]
  {
    if s == [] then -1
    else if s[0] == x then 0
    else
      var j := IndexOf(s[1..], x);
      assert s[1..][..if j < 0 then 0 else j] == s[1..1 + if j < 0 then 0 else j];
      if j < 0 then -1 else j + 1
  }

  /** Position `i` holds the first element satisfying `p`. */
  predicate IsFirstMatch<T>(s: seq<T>, p: T -> bool, i: int)
  {
    0 <= i < |s| && p(s[i]) && forall j :: 0 <= j < i ==> !p(s[j])
  }

  /** `s.find(p)`: the first element satisfying `p`, or `undefined`. */
  function Find<T>(s: seq<T>, p: T -> bool): (r: Option<T>)
    ensures r.None? <==> forall i :: 0 <= i < |s| ==> !p(s[i])
    ensures r.Some? ==> exists i :: IsFirstMatch(s, p, i) && s[i] == r.value
  {
    if s == [] then None
    else if p(s[0]) then
      assert IsFirstMatch(s, p, 0);
      Some(s[0])
    else
      var r := Find(s[1..], p);
      assert r.Some? ==> exists i :: IsFirstMatch(s, p, i) && s[i] == r.value by {
        if r.Some? {
          var i :| IsFirstMatch(s[1..], p, i) && s[1..][i] == r.value;
          assert IsFirstMatch(s, p, i + 1);
        }
      }
      r
  }

  /** `s.filter(p)`: the elements satisfying `p`, in their order in `s`. */
  function Filter<T(==,!new)>(s: seq<T>, p: T -> bool): (r: seq<T>)
    ensures forall x :: x in r <==> x in s && p(x)
    ensures |r| <= |s|
    ensures IsSubsequence(r, s)
    ensures forall x :: multiset(r)[x] == if p(x) then multiset(s)[x] else 0
  {
    if s == [] then []
    else
      assert s == [s[0]] + s[1..];
      if p(s[0]) then [s[0]] + Filter(s[1..], p)
      else Filter(s[1..], p)
  }

  /** `r` is `s` with some elements left out, the rest in the same order. */
  predicate IsSubsequence<T(==)>(r: seq<T>, s: seq<T>)
    decreases |s|
  {
    r == [] ||
    (s != [] && ((r[0] == s[0] && IsSubsequence(r[1..], s[1..])) || IsSubsequence(r, s[1..])))
  }

  /** Leaving elements out twice is leaving elements out once. */
  lemma {:induction false} SubsequenceTransitive<T>(a: seq<T>, b: seq<T>, c: seq<T>)
    requires IsSubsequence(a, b) && IsSubsequence(b, c)
    ensures IsSubsequence(a, c)
    decreases |c|
  {
    if a != [] {
      if IsSubsequence(b, c[1..]) {
        SubsequenceTransitive(a, b, c[1..]);
      } else if a[0] == b[0] && IsSubsequence(a[1..], b[1..]) {
        SubsequenceTransitive(a[1..], b[1..], c[1..]);
      } else {
        SubsequenceTransitive(a, b[1..], c[1..]);
      }
    }
  }

  // ---------------------------------------------------------------------------
  // Searching strings

  /** `sub` occurs in `s` starting at position `i`. */
  predicate OccursAt(s: string, sub: string, i: int)
  {
    0 <= i && i + |sub| <= |s| && s[i..i + |sub|] == sub
  }

  /** The first occurrence of `sub` in `s` at or after `k` (`s.indexOf(sub, k)`). */
  function FindFrom(s: string, sub: string, k: nat): (r: Option<nat>)
    ensures r.Some? ==> k <= r.value && OccursAt(s, sub, r.value)
    ensures forall j :: k <= j && (r.None? || j < r.value) ==> !OccursAt(s, sub, j)
    decreases |s| - k
  {
    if k + |sub| > |s| then None
    else if s[k..k + |sub|] == sub then Some(k)
    else FindFrom(s, sub, k + 1)
  }

  /** `s.includes(sub)`. */
  predicate Includes(s: string, sub: string)
  {
    FindFrom(s, sub, 0).Some?
  }

  lemma IncludesIffOccurs(s: string, sub: string)
    ensures Includes(s, sub) <==> exists i :: OccursAt(s, sub, i)
  {
  }

  /** `s.replace(pat, rep)` with a string pattern: only the first occurrence is replaced. */
  function ReplaceFirst(s: string, pat: string, rep: string): string
  {
    match FindFrom(s, pat, 0)
    case None => s
    case Some(i) => s[..i] + rep + s[i + |pat|..]
  }

  /**
   * A path placeholder `/:name/` is replaced by `/value/` where it stands,
   * provided the text before it holds no colon (so no earlier match can start there).
   */
  lemma ReplacePlaceholder(prefix: string, name: string, suffix: string, value: string)
    requires ':' !in prefix
    ensures ReplaceFirst(prefix + "/:" + name + "/" + suffix, "/:" + name + "/", "/" + value + "/")
         == prefix + "/" + value + "/" + suffix
  {
    var pat := "/:" + name + "/";
    var rep := "/" + value + "/";
    var s := prefix + pat + suffix;
    assert s == prefix + "/:" + name + "/" + suffix;
    assert s[|prefix|..|prefix| + |pat|] == pat;
    assert OccursAt(s, pat, |prefix|);
    var r := FindFrom(s, pat, 0);
    assert r.Some?;
    var i := r.value;
    assert i <= |prefix|;
    assert s[i + 1] == ':' by {
      assert s[i..i + |pat|][1] == pat[1];
    }
    assert forall k :: 0 <= k < |prefix| ==> s[k] == prefix[k] && s[k] != ':';
    assert s[|prefix|] == '/';
    assert i == |prefix|;
    assert s[..i] == prefix;
    assert s[i + |pat|..] == suffix;
    assert prefix + rep + suffix == prefix + "/" + value + "/" + suffix;
  }

  // ---------------------------------------------------------------------------
  // Numbers and their decimal text

  predicate IsDigit(c: char)
  {
    '0' <= c <= '9'
  }

  function DigitChar(d: nat): (c: char)
    requires d < 10
    ensures IsDigit(c) && c as int - '0' as int == d
  {
    ('0' as int + d) as char
  }

  /** The decimal digits of a natural number, most significant first, without leading zeros. */
  function DecimalString(n: nat): (s: string)
    ensures |s| > 0 && forall i :: 0 <= i < |s| ==> IsDigit(s[i])
    ensures n > 0 ==> s[0] != '0'
  {
    if n < 10 then [DigitChar(n)] else DecimalString(n / 10) + [DigitChar(n % 10)]
  }

  /** `String(i)` for an integer-valued number. */
  function IntToString(i: int): string
  {
    if i < 0 then "-" + DecimalString(-i) else DecimalString(i)
  }

  /** The value of a string of decimal digits. */
  function DigitsValue(ds: string): nat
    requires forall i :: 0 <= i < |ds| ==> IsDigit(ds[i])
  {
    if ds == [] then 0
    else
      var last := ds[|ds| - 1];
      assert IsDigit(last);
      DigitsValue(ds[..|ds| - 1]) * 10 + (last as int - '0' as int)
  }

  lemma {:induction false} DigitsValueOfDecimal(n: nat)
    ensures DigitsValue(DecimalString(n)) == n
  {
    var s := DecimalString(n);
    if n >= 10 {
      DigitsValueOfDecimal(n / 10);
      assert s[..|s| - 1] == DecimalString(n / 10);
    }
  }

  /** A number as JavaScript computes it: an integer value, or NaN. */
  datatype ParsedNumber = Finite(value: int) | NaN

  /** The characters `parseInt` skips before the number (WhiteSpace and LineTerminator of ECMA-262). */
  predicate IsStrWhiteSpace(c: char)
  {
    c == '\t' || c == '\n' || c == '\U{000B}' || c == '\U{000C}' || c == '\r' || c == ' ' ||
    c == '\U{00A0}' || c == '\U{1680}' || ('\U{2000}' <= c <= '\U{200A}') ||
    c == '\U{2028}' || c == '\U{2029}' || c == '\U{202F}' || c == '\U{205F}' ||
    c == '\U{3000}' || c == '\U{FEFF}'
  }

  /** `s` without its leading white space. */
  function TrimStart(s: string): (r: string)
    ensures |r| <= |s| && r == s[|s| - |r|..]
    ensures r == [] || !IsStrWhiteSpace(r[0])
    ensures s != [] && !IsStrWhiteSpace(s[0]) ==> r == s
  {
    if s != [] && IsStrWhiteSpace(s[0]) then TrimStart(s[1..]) else s
  }

  /** The longest prefix of `s` made of decimal digits. */
  function DigitPrefix(s: string): (r: string)
    ensures |r| <= |s| && r == s[..|r|]
    ensures forall i :: 0 <= i < |r| ==> IsDigit(r[i])
    ensures |r| == |s| || !IsDigit(s[|r|])
  {
    if s != [] && IsDigit(s[0]) then [s[0]] + DigitPrefix(s[1..]) else []
  }

  /** `parseInt(s, 10)`: white space, an optional sign, then the longest run of decimal digits. */
  function ParseInt10(s: string): ParsedNumber
  {
    var t := TrimStart(s);
    if |t| > 0 && t[0] == '-' then Negate(ParseDigits(t[1..]))
    else if |t| > 0 && t[0] == '+' then ParseDigits(t[1..])
    else ParseDigits(t)
  }

  /** The value of the leading decimal digits of `u`, or NaN when there are none. */
  function ParseDigits(u: string): ParsedNumber
  {
    var ds := DigitPrefix(u);
    if ds == [] then NaN else Finite(DigitsValue(ds))
  }

  function Negate(p: ParsedNumber): ParsedNumber
  {
    match p
    case NaN => NaN
    case Finite(v) => Finite(-v)
  }

  /** `parseInt(String(i), 10) === i`: the decimal text of an integer parses back to it. */
  lemma ParseIntOfIntToString(i: int)
    ensures ParseInt10(IntToString(i)) == Finite(i)
  {
    var n: nat := if i < 0 then -i else i;
    var d := DecimalString(n);
    DigitsValueOfDecimal(n);
    DigitPrefixOfDigits(d);
    assert ParseDigits(d) == Finite(n);
    assert IsDigit(d[0]);
    if i < 0 {
      ParseIntOfNegative(d);
    } else {
      assert !IsStrWhiteSpace(d[0]);
      assert TrimStart(d) == d;
    }
  }

  lemma ParseIntOfNegative(d: string)
    requires d != [] && IsDigit(d[0])
    ensures ParseInt10("-" + d) == Negate(ParseDigits(d))
  {
    var s := "-" + d;
    assert !IsStrWhiteSpace(s[0]);
    assert TrimStart(s) == s;
    assert s[1..] == d;
  }

  lemma {:induction false} DigitPrefixOfDigits(d: string)
    requires forall i :: 0 <= i < |d| ==> IsDigit(d[i])
    ensures DigitPrefix(d) == d
  {
    if d != [] {
      DigitPrefixOfDigits(d[1..]);
    }
  }
}
