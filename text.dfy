/** The string primitives of the Python runtime that the bot's handlers rely on:
    str.strip(), str.lower(), str.startswith(), str.split(sep[, maxsplit]) with a
    one-character separator, int() on a stripped token, and str() on an integer.
    Strings are sequences of Unicode code points, as in Python 3. */
module Text {

  datatype Option<T> = None | Some(value: T)

  /** The characters for which Python's str.isspace() holds; str.strip() with no
      argument removes exactly these from both ends. */
  predicate IsSpace(c: char) {
    || c == ' '
    || ('\t' <= c <= '\r')
    || ('\U{1c}' <= c <= '\U{1f}')
    || c == '\U{85}' || c == '\U{a0}' || c == '\U{1680}'
    || ('\U{2000}' <= c <= '\U{200a}')
    || c == '\U{2028}' || c == '\U{2029}' || c == '\U{202f}' || c == '\U{205f}' || c == '\U{3000}'
  }

  /** s.lstrip() */
  function StripLeft(s: string): (r: string)
    ensures |r| <= |s| && r == s[|s| - |r|..]
    decreases |s|
  {
    if |s| > 0 && IsSpace(s[0]) then StripLeft(s[1..]) else s
  }

  /** s.rstrip() */
  function StripRight(s: string): (r: string)
    ensures |r| <= |s| && r == s[..|r|]
    decreases |s|
  {
    if |s| > 0 && IsSpace(s[|s| - 1]) then StripRight(s[..|s| - 1]) else s
  }

  /** lstrip() cuts only white space, and up to the first character that is not. */
  lemma {:induction false} StripLeftTrims(s: string)
    ensures forall i :: 0 <= i < |s| - |StripLeft(s)| ==> IsSpace(s[i])
    ensures StripLeft(s) != [] ==> !IsSpace(StripLeft(s)[0])
    decreases |s|
  {
    if |s| > 0 && IsSpace(s[0]) {
      StripLeftTrims(s[1..]);
    }
  }

  /** rstrip() cuts only white space, and back to the last character that is not. */
  lemma {:induction false} StripRightTrims(s: string)
    ensures forall i :: |StripRight(s)| <= i < |s| ==> IsSpace(s[i])
    ensures StripRight(s) != [] ==> !IsSpace(StripRight(s)[|StripRight(s)| - 1])
    decreases |s|
  {
    if |s| > 0 && IsSpace(s[|s| - 1]) {
      StripRightTrims(s[..|s| - 1]);
    }
  }

  /** How many white-space characters s.strip() removes from the front of s. */
  function LeadingSpaces(s: string): (k: nat)
    ensures k <= |s|
  {
    |s| - |StripLeft(s)|
  }

  /** s.strip(): a slice of s (StripTrims says which one). */
  function Strip(s: string): (r: string)
    ensures LeadingSpaces(s) + |r| <= |s| && r == s[LeadingSpaces(s)..LeadingSpaces(s) + |r|]
  {
    StripRight(StripLeft(s))
  }

  /** The slice strip() keeps neither starts nor ends with white space, and nothing but
      white space is cut from either end. */
  lemma StripTrims(s: string)
    ensures forall i :: 0 <= i < |s| && !(LeadingSpaces(s) <= i < LeadingSpaces(s) + |Strip(s)|) ==> IsSpace(s[i])
    ensures Strip(s) != [] ==> !IsSpace(Strip(s)[0]) && !IsSpace(Strip(s)[|Strip(s)| - 1])
  {
    StripLeftTrims(s);
    StripRightTrims(StripLeft(s));
  }

  /** A string with no white space at either end. */
  predicate Trimmed(s: string) {
    s != [] ==> !IsSpace(s[0]) && !IsSpace(s[|s| - 1])
  }

  /** What strip() returns is trimmed. */
  lemma StripIsTrimmed(s: string)
    ensures Trimmed(Strip(s))
  {
    StripTrims(s);
  }

  /** A trimmed string is its own strip. */
  lemma StripUnchanged(s: string)
    requires Trimmed(s)
    ensures Strip(s) == s
  {
  }

  /** Stripping twice is stripping once. */
  lemma {:induction false} StripIdempotent(s: string)
    ensures Strip(Strip(s)) == Strip(s)
  {
    StripTrims(s);
    StripUnchanged(Strip(s));
  }

  function LowerChar(c: char): char {
    if 'A' <= c <= 'Z' then (c as int + 32) as char else c
  }

  /** s.lower(), on the ASCII letters only. */
  function Lower(s: string): (r: string)
    ensures |r| == |s|
    ensures forall i :: 0 <= i < |s| ==> r[i] == LowerChar(s[i])
  {
    seq(|s|, i requires 0 <= i < |s| => LowerChar(s[i]))
  }

  /** One white-space character on each side of a trimmed word is all strip() removes. */
  lemma StripPadded(c: char, x: string, d: char)
    requires IsSpace(c) && IsSpace(d) && x != [] && Trimmed(x)
    ensures Strip([c] + x + [d]) == x
  {
    var s := [c] + x + [d];
    assert s[1..] == x + [d];
    assert StripLeft(x + [d]) == x + [d] by {
      assert (x + [d])[0] == x[0];
    }
    assert (x + [d])[..|x|] == x;
    assert StripRight(x) == x;
  }

  /** A string with no ASCII capital letter is its own lower case. */
  lemma LowerUnchanged(s: string)
    requires forall i :: 0 <= i < |s| ==> !('A' <= s[i] <= 'Z')
    ensures Lower(s) == s
  {
  }

  /** s.startswith(prefix) */
  predicate StartsWith(s: string, prefix: string) {
    |prefix| <= |s| && s[..|prefix|] == prefix
  }

  /** The parts of s joined back together with c between them (c.join(parts)). */
  function Join(parts: seq<string>, c: char): string {
    if |parts| == 0 then "" else if |parts| == 1 then parts[0] else parts[0] + [c] + Join(parts[1..], c)
  }

  /** Joining a part in front of the others. */
  lemma JoinCons(p: string, rest: seq<string>, c: char)
    requires rest != []
    ensures Join([p] + rest, c) == p + [c] + Join(rest, c)
  {
    assert ([p] + rest)[1..] == rest;
  }

  /** The scan behind str.split: `field` is the part being collected, `cuts` how many
      more separators may still end a part; once none may, the rest joins the last part. */
  function SplitScan(field: string, s: string, c: char, cuts: nat): (parts: seq<string>)
    ensures |parts| >= 1
    decreases |s|
  {
    if s == [] then [field]
    else if s[0] == c && cuts > 0 then [field] + SplitScan("", s[1..], c, cuts - 1)
    else SplitScan(field + [s[0]], s[1..], c, cuts)
  }

  /** s.split(c, n): cut at the first n occurrences of c at most; the last part keeps the rest. */
  function SplitN(s: string, c: char, n: nat): seq<string> {
    SplitScan("", s, c, n)
  }

  /** s.split(c): cut at every occurrence of c (s has no more than |s| of them). */
  function Split(s: string, c: char): seq<string> {
    SplitScan("", s, c, |s|)
  }

  lemma {:induction false} ScanJoin(field: string, s: string, c: char, cuts: nat)
    ensures Join(SplitScan(field, s, c, cuts), c) == field + s
    decreases |s|
  {
    if s == [] {
    } else if s[0] == c && cuts > 0 {
      ScanJoin("", s[1..], c, cuts - 1);
      assert field + s == field + [c] + s[1..];
    } else {
      ScanJoin(field + [s[0]], s[1..], c, cuts);
      assert field + s == (field + [s[0]]) + s[1..];
    }
  }

  /** Splitting and joining again gives back the original string. */
  lemma SplitJoin(s: string, c: char)
    ensures Join(Split(s, c), c) == s
  {
    ScanJoin("", s, c, |s|);
  }

  /** The same for the bounded split. */
  lemma SplitNJoin(s: string, c: char, n: nat)
    ensures Join(SplitN(s, c, n), c) == s
  {
    ScanJoin("", s, c, n);
  }

  lemma {:induction false} ScanShape(field: string, s: string, c: char, cuts: nat)
    requires c !in field || cuts == 0
    ensures |SplitScan(field, s, c, cuts)| <= cuts + 1
    ensures forall k :: 0 <= k < |SplitScan(field, s, c, cuts)| - 1 ==> c !in SplitScan(field, s, c, cuts)[k]
    decreases |s|
  {
    if s == [] {
    } else if s[0] == c && cuts > 0 {
      ScanShape("", s[1..], c, cuts - 1);
    } else {
      ScanShape(field + [s[0]], s[1..], c, cuts);
    }
  }

  lemma {:induction false} ScanAllCut(field: string, s: string, c: char, cuts: nat)
    requires c !in field && cuts >= |s|
    ensures forall k :: 0 <= k < |SplitScan(field, s, c, cuts)| ==> c !in SplitScan(field, s, c, cuts)[k]
    decreases |s|
  {
    if s == [] {
    } else if s[0] == c {
      ScanAllCut("", s[1..], c, cuts - 1);
    } else {
      ScanAllCut(field + [s[0]], s[1..], c, cuts);
    }
  }

  /** No part of s.split(c) contains c. */
  lemma SplitParts(s: string, c: char)
    ensures forall k :: 0 <= k < |Split(s, c)| ==> c !in Split(s, c)[k]
  {
    ScanAllCut("", s, c, |s|);
  }

  /** s.split(c, n) has at most n + 1 parts, and only its last may contain c. */
  lemma SplitNParts(s: string, c: char, n: nat)
    ensures |SplitN(s, c, n)| <= n + 1
    ensures forall k :: 0 <= k < |SplitN(s, c, n)| - 1 ==> c !in SplitN(s, c, n)[k]
  {
    ScanShape("", s, c, n);
  }

  /** Once the remaining cuts outnumber the characters left, more cuts change nothing. */
  lemma {:induction false} ScanEnoughCuts(field: string, s: string, c: char, n: nat, m: nat)
    requires n >= |s| && m >= |s|
    ensures SplitScan(field, s, c, n) == SplitScan(field, s, c, m)
    decreases |s|
  {
    if s != [] {
      if s[0] == c {
        ScanEnoughCuts("", s[1..], c, n - 1, m - 1);
        assert SplitScan(field, s, c, n) == [field] + SplitScan("", s[1..], c, n - 1);
        assert SplitScan(field, s, c, m) == [field] + SplitScan("", s[1..], c, m - 1);
      } else {
        ScanEnoughCuts(field + [s[0]], s[1..], c, n, m);
      }
    }
  }

  /** Scanning a separator-free stretch only extends the current part. */
  lemma {:induction false} ScanField(field: string, a: string, c: char, b: string, cuts: nat)
    requires c !in a && cuts > 0
    ensures SplitScan(field, a + [c] + b, c, cuts) == [field + a] + SplitScan("", b, c, cuts - 1)
    decreases |a|
  {
    if a == [] {
      var s := a + [c] + b;
      assert s[0] == c && s[1..] == b;
      assert field + a == field;
    } else {
      assert (a + [c] + b)[0] == a[0] != c;
      assert (a + [c] + b)[1..] == a[1..] + [c] + b;
      ScanField(field + [a[0]], a[1..], c, b, cuts);
      assert field + [a[0]] + a[1..] == field + a;
    }
  }

  /** Splitting a string that starts with a separator-free field peels that field off. */
  lemma SplitField(a: string, c: char, b: string)
    requires c !in a
    ensures Split(a + [c] + b, c) == [a] + Split(b, c)
  {
    ScanField("", a, c, b, |a + [c] + b|);
    ScanEnoughCuts("", b, c, |a + [c] + b| - 1, |b|);
    assert "" + a == a;
  }

  /** The same for the bounded split, which spends one of its cuts. */
  lemma SplitNField(a: string, c: char, b: string, n: nat)
    requires c !in a && n > 0
    ensures SplitN(a + [c] + b, c, n) == [a] + SplitN(b, c, n - 1)
  {
    ScanField("", a, c, b, n);
    assert "" + a == a;
  }

  /** A string free of c splits into itself alone, however many cuts are allowed. */
  lemma {:induction false} ScanNoSeparator(field: string, s: string, c: char, cuts: nat)
    requires c !in s
    ensures SplitScan(field, s, c, cuts) == [field + s]
    decreases |s|
  {
    if s == [] {
      assert field + s == field;
    } else {
      assert s[0] != c && c !in s[1..];
      ScanNoSeparator(field + [s[0]], s[1..], c, cuts);
      assert field + [s[0]] + s[1..] == field + s;
    }
  }

  /** With no cuts left, the rest of the string joins the current part. */
  lemma {:induction false} ScanNoCuts(field: string, s: string, c: char)
    ensures SplitScan(field, s, c, 0) == [field + s]
    decreases |s|
  {
    if s == [] {
      assert field + s == field;
    } else {
      ScanNoCuts(field + [s[0]], s[1..], c);
      assert field + [s[0]] + s[1..] == field + s;
    }
  }

  lemma SplitNoSeparator(s: string, c: char, n: nat)
    requires c !in s
    ensures Split(s, c) == [s] && SplitN(s, c, n) == [s]
  {
    ScanNoSeparator("", s, c, |s|);
    ScanNoSeparator("", s, c, n);
    assert "" + s == s;
  }

  /** s.count(c) */
  function Count(s: string, c: char): nat
    decreases |s|
  {
    if s == [] then 0 else (if s[0] == c then 1 else 0) + Count(s[1..], c)
  }

  /** The scan makes one more part than it makes cuts, and it cuts at every c until
      its cuts run out. */
  lemma {:induction false} ScanLength(field: string, s: string, c: char, cuts: nat)
    ensures |SplitScan(field, s, c, cuts)| == 1 + (if cuts < Count(s, c) then cuts else Count(s, c))
    decreases |s|
  {
    if s != [] {
      if s[0] == c && cuts > 0 {
        ScanLength("", s[1..], c, cuts - 1);
      } else {
        ScanLength(field + [s[0]], s[1..], c, cuts);
      }
    }
  }

  /** len(s.split(c, n)) == 1 + min(n, s.count(c)) */
  lemma SplitNLength(s: string, c: char, n: nat)
    ensures |SplitN(s, c, n)| == 1 + (if n < Count(s, c) then n else Count(s, c))
  {
    ScanLength("", s, c, n);
  }

  /** The position of the last c in s, or -1 when there is none. */
  function LastIndex(s: string, c: char): (k: int)
    ensures -1 <= k < |s|
    ensures k >= 0 ==> s[k] == c
    decreases |s|
  {
    if s == [] then -1 else if s[|s| - 1] == c then |s| - 1 else LastIndex(s[..|s| - 1], c)
  }

  /** s.rsplit(c, 1) when s holds a c: the text before and after its last occurrence. */
  function RSplitOnce(s: string, c: char): Option<(string, string)> {
    var k := LastIndex(s, c);
    if k < 0 then None else Some((s[..k], s[k + 1..]))
  }

  /** The last c of a + [c] + b is the one after a, when b holds none. */
  lemma {:induction false} LastIndexAfter(a: string, c: char, b: string)
    requires c !in b
    ensures LastIndex(a + [c] + b, c) == |a|
    decreases |b|
  {
    var s := a + [c] + b;
    if b == [] {
      assert s[..|s| - 1] == a && s[|s| - 1] == c;
    } else {
      var m := |b| - 1;
      assert s[..|s| - 1] == a + [c] + b[..m];
      assert s[|s| - 1] == b[m];
      LastIndexAfter(a, c, b[..m]);
    }
  }

  /** rsplit(c, 1) takes back the last field of a + [c] + b, whatever a holds. */
  lemma RSplitOnceRoundTrip(a: string, c: char, b: string)
    requires c !in b
    ensures RSplitOnce(a + [c] + b, c) == Some((a, b))
  {
    var s := a + [c] + b;
    LastIndexAfter(a, c, b);
    assert s[..|a|] == a;
    assert s[|a| + 1..] == b;
  }

  /** Splitting the join of separator-free parts gives the parts back: the inverse of
      SplitJoin. */
  lemma {:induction false} JoinSplit(parts: seq<string>, c: char)
    requires |parts| >= 1
    requires forall k :: 0 <= k < |parts| ==> c !in parts[k]
    ensures Split(Join(parts, c), c) == parts
    decreases |parts|
  {
    if |parts| == 1 {
      SplitNoSeparator(parts[0], c, 0);
    } else {
      JoinSplit(parts[1..], c);
      SplitField(parts[0], c, Join(parts[1..], c));
    }
  }

  /** The same for the bounded split, as long as the parts are no more than the cuts
      allowed plus one. */
  lemma {:induction false} JoinSplitN(parts: seq<string>, c: char, n: nat)
    requires 1 <= |parts| <= n + 1
    requires forall k :: 0 <= k < |parts| ==> c !in parts[k]
    ensures SplitN(Join(parts, c), c, n) == parts
    decreases |parts|
  {
    if |parts| == 1 {
      SplitNoSeparator(parts[0], c, n);
    } else {
      JoinSplitN(parts[1..], c, n - 1);
      SplitNField(parts[0], c, Join(parts[1..], c), n);
    }
  }

  // ---------------------------------------------------------------------------
  // Decimal integers: int(token) and str(n)

  predicate IsDigit(c: char) { '0' <= c <= '9' }

  function DigitValue(c: char): nat
    requires IsDigit(c)
  {
    c as int - '0' as int
  }

  function DigitChar(d: nat): (c: char)
    requires d < 10
    ensures IsDigit(c) && DigitValue(c) == d
  {
    ('0' as int + d) as char
  }

  predicate AllDigits(s: string) {
    forall i :: 0 <= i < |s| ==> IsDigit(s[i])
  }

  /** The value of a string of decimal digits, most significant first. */
  function DigitsValue(s: string): nat
    requires AllDigits(s)
  {
    if s == [] then 0 else 10 * DigitsValue(s[..|s| - 1]) + DigitValue(s[|s| - 1])
  }

  /** int(token) on an already stripped token: an optional sign and at least one ASCII
      digit; anything else is the ValueError the handlers catch (None). */
  function ParseInt(s: string): (r: Option<int>)
    ensures r.Some? ==> s != [] && (AllDigits(s) || ((s[0] == '+' || s[0] == '-') && |s| > 1 && AllDigits(s[1..])))
    ensures s != [] && AllDigits(s) ==> r == Some(DigitsValue(s))
  {
    if |s| > 1 && s[0] == '+' && AllDigits(s[1..]) then Some(DigitsValue(s[1..]))
    else if |s| > 1 && s[0] == '-' && AllDigits(s[1..]) then Some(0 - DigitsValue(s[1..]))
    else if |s| > 0 && AllDigits(s) then Some(DigitsValue(s))
    else None
  }

  /** str(n) for n >= 0: decimal digits without leading zeros. */
  function NatToDecimal(n: nat): (s: string)
    ensures s != [] && AllDigits(s)
    ensures |s| > 1 ==> s[0] != '0'
    decreases n
  {
    if n < 10 then [DigitChar(n)] else NatToDecimal(n / 10) + [DigitChar(n % 10)]
  }

  /** str(i) for any integer. */
  function Decimal(i: int): (s: string)
    ensures s != [] && !IsSpace(s[0]) && !IsSpace(s[|s| - 1])
  {
    if i < 0 then "-" + NatToDecimal(-i) else NatToDecimal(i)
  }

  /** The rendering of a natural number holds only digits: no separator of the
      selection grammar or of the command syntax. */
  lemma DecimalHasNoSeparator(n: nat)
    ensures ':' !in Decimal(n) && ',' !in Decimal(n) && '-' !in Decimal(n)
  {
  }

  lemma {:induction false} NatToDecimalValue(n: nat)
    ensures DigitsValue(NatToDecimal(n)) == n
    decreases n
  {
    if n >= 10 {
      NatToDecimalValue(n / 10);
      var s := NatToDecimal(n);
      assert s[..|s| - 1] == NatToDecimal(n / 10);
    }
  }

  /** int(str(i)) == i: reading back the decimal rendering of an integer gives the integer. */
  lemma ParseDecimal(i: int)
    ensures ParseInt(Decimal(i)) == Some(i)
  {
    if i < 0 {
      NatToDecimalValue(-i);
      assert Decimal(i)[1..] == NatToDecimal(-i);
    } else {
      NatToDecimalValue(i);
    }
  }

  /** Hence str() is injective: two identities with the same rendering are equal. */
  lemma DecimalInjective(i: int, j: int)
    requires Decimal(i) == Decimal(j)
    ensures i == j
  {
    ParseDecimal(i);
    ParseDecimal(j);
  }
}
