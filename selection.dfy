/** The selective-shutdown selection language: the operator answers the numbered host
    menu with "all", with comma-separated numbers, or with ranges "a-b" (both ends
    included, numbered from 1). Tokens that do not parse are skipped, as are numbers
    outside the menu; what is left picks hosts from the menu in the order typed,
    repeats included. */
module Selection {
  import opened Text

  /** list(range(lo, hi)) */
  function Range(lo: int, hi: int): (r: seq<int>)
    ensures |r| == if lo <= hi then hi - lo else 0
    decreases hi - lo
  {
    if lo >= hi then [] else [lo] + Range(lo + 1, hi)
  }

  /** The k-th integer of the range is lo + k. */
  lemma {:induction false} RangeElements(lo: int, hi: int)
    ensures forall k :: 0 <= k < |Range(lo, hi)| ==> Range(lo, hi)[k] == lo + k
    decreases hi - lo
  {
    if lo < hi {
      RangeElements(lo + 1, hi);
    }
  }

  /** The zero-based indices one comma-separated token stands for: "n" gives n - 1,
      "a-b" gives a - 1 up to b - 1, and a token that does not parse (or a "-" that
      does not cut the token in exactly two) gives nothing. */
  function TokenIndices(part: string): seq<int> {
    var p := Strip(part);
    if '-' in p then
      var ends := Split(p, '-');
      if |ends| != 2 then []
      else
        match (ParseInt(Strip(ends[0])), ParseInt(Strip(ends[1])))
        case (Some(a), Some(b)) => Range(a - 1, b)
        case _ => []
    else
      match ParseInt(p)
      case Some(n) => [n - 1]
      case None => []
  }

  /** The indices of a run of tokens, in order. */
  function IndicesOf(parts: seq<string>): seq<int> {
    if parts == [] then [] else IndicesOf(parts[..|parts| - 1]) + TokenIndices(parts[|parts| - 1])
  }

  /** The indices a (stripped, lower-cased) selection names over a menu of n hosts. */
  function SelectedIndices(selection: string, n: nat): seq<int> {
    if selection == "all" then Range(0, n) else IndicesOf(Split(selection, ','))
  }

  /** The items the indices pick, skipping the ones outside the list. */
  function Select<T>(indices: seq<int>, items: seq<T>): seq<T> {
    if indices == [] then []
    else
      var k := indices[|indices| - 1];
      Select(indices[..|indices| - 1], items) + (if 0 <= k < |items| then [items[k]] else [])
  }

  /** What an operator's reply picks from the menu. */
  function Selected<T>(text: string, hostList: seq<T>): seq<T> {
    Select(SelectedIndices(Lower(Strip(text)), |hostList|), hostList)
  }

  /** The parser of the awaiting-selection step. */
  method ParseSelection<T>(text: string, hostList: seq<T>) returns (selected: seq<T>)
    ensures selected == Selected(text, hostList)
  {
    var selection := Lower(Strip(text));
    var indices: seq<int>;
    if selection == "all" {
      indices := Range(0, |hostList|);
    } else {
      indices := CollectIndices(Split(selection, ','));
    }
    selected := PickHosts(indices, hostList);
  }

  /** The loop over the comma-separated tokens. */
  method CollectIndices(parts: seq<string>) returns (indices: seq<int>)
    ensures indices == IndicesOf(parts)
  {
    indices := [];
    var i := 0;
    while i < |parts|
      invariant 0 <= i <= |parts|
      invariant indices == IndicesOf(parts[..i])
    {
      assert parts[..i + 1][..i] == parts[..i];
      indices := indices + TokenIndices(parts[i]);
      i := i + 1;
    }
    assert parts[..|parts|] == parts;
  }

  /** The loop that validates the indices and collects the hosts. */
  method PickHosts<T>(indices: seq<int>, hostList: seq<T>) returns (selected: seq<T>)
    ensures selected == Select(indices, hostList)
  {
    selected := [];
    var j := 0;
    while j < |indices|
      invariant 0 <= j <= |indices|
      invariant selected == Select(indices[..j], hostList)
    {
      assert indices[..j + 1][..j] == indices[..j];
      var idx := indices[j];
      if 0 <= idx < |hostList| {
        selected := selected + [hostList[idx]];
      }
      j := j + 1;
    }
    assert indices[..|indices|] == indices;
  }

  // ---------------------------------------------------------------------------
  // What a selection picks

  predicate InRange(indices: seq<int>, n: nat) {
    forall k :: 0 <= k < |indices| ==> 0 <= indices[k] < n
  }

  /** Only hosts of the menu are ever picked, and never more than were named. */
  lemma {:induction false} SelectMembers<T>(indices: seq<int>, items: seq<T>)
    ensures |Select(indices, items)| <= |indices|
    ensures forall x :: x in Select(indices, items) ==> x in items
    decreases |indices|
  {
    if indices != [] {
      SelectMembers(indices[..|indices| - 1], items);
    }
  }

  /** Indices inside the menu pick exactly their hosts, in order. */
  lemma {:induction false} SelectInRange<T>(indices: seq<int>, items: seq<T>)
    requires InRange(indices, |items|)
    ensures Select(indices, items) == seq(|indices|, k requires 0 <= k < |indices| => items[indices[k]])
    decreases |indices|
  {
    if indices != [] {
      var m := |indices| - 1;
      var front := indices[..m];
      assert InRange(front, |items|) by {
        forall k | 0 <= k < |front| ensures 0 <= front[k] < |items| {
          assert front[k] == indices[k];
        }
      }
      SelectInRange(front, items);
      var lhs := Select(indices, items);
      var rhs := seq(|indices|, k requires 0 <= k < |indices| => items[indices[k]]);
      assert lhs == Select(front, items) + [items[indices[m]]];
      forall k | 0 <= k < |rhs| ensures lhs[k] == rhs[k] {
        if k < m {
          assert front[k] == indices[k];
        }
      }
    }
  }

  /** Nothing is picked exactly when no index falls inside the menu. */
  lemma {:induction false} SelectEmptyIff<T>(indices: seq<int>, items: seq<T>)
    ensures Select(indices, items) == [] <==> forall k :: 0 <= k < |indices| ==> !(0 <= indices[k] < |items|)
    decreases |indices|
  {
    if indices != [] {
      var m := |indices| - 1;
      SelectEmptyIff(indices[..m], items);
      assert forall k :: 0 <= k < m ==> indices[..m][k] == indices[k];
    }
  }

  /** A range inside the menu picks the corresponding slice. */
  lemma SelectRange<T>(lo: int, hi: int, items: seq<T>)
    requires 0 <= lo <= hi <= |items|
    ensures Select(Range(lo, hi), items) == items[lo..hi]
  {
    RangeElements(lo, hi);
    SelectInRange(Range(lo, hi), items);
  }

  /** "all" picks the whole menu. */
  lemma SelectedAll<T>(hostList: seq<T>)
    ensures Selected("all", hostList) == hostList
  {
    StripUnchanged("all");
    LowerUnchanged("all");
    SelectRange(0, |hostList|, hostList);
  }

  /** The comparison with "all" is made after stripping and lower-casing. */
  lemma SelectedAllCaps<T>(hostList: seq<T>)
    ensures Selected(" ALL ", hostList) == hostList
  {
    AllCapsNormalised();
    AllNormalised();
    SelectedNormalised(" ALL ", "all", hostList);
    SelectedAll(hostList);
  }

  /** Two answers that read the same once stripped and lower-cased pick the same hosts. */
  lemma SelectedNormalised<T>(a: string, b: string, hostList: seq<T>)
    requires Lower(Strip(a)) == Lower(Strip(b))
    ensures Selected(a, hostList) == Selected(b, hostList)
  {
  }

  lemma AllNormalised()
    ensures Lower(Strip("all")) == "all"
  {
    StripUnchanged("all");
    LowerUnchanged("all");
  }

  lemma AllCapsNormalised()
    ensures Lower(Strip(" ALL ")) == "all"
  {
    StripAllCaps();
    LowerAllCaps();
  }

  lemma StripAllCaps()
    ensures Strip(" ALL ") == "ALL"
  {
    assert " ALL " == [' '] + "ALL" + [' '];
    StripPadded(' ', "ALL", ' ');
  }

  lemma LowerAllCaps()
    ensures Lower("ALL") == "all"
  {
    var lower := Lower("ALL");
    assert lower[0] == 'a' && lower[1] == 'l' && lower[2] == 'l';
  }

  // ---------------------------------------------------------------------------
  // Tokens as the menu suggests typing them

  /** A number n stands for the host printed as n. */
  lemma TokenOfNumber(n: nat)
    ensures TokenIndices(Decimal(n)) == [n - 1]
  {
    StripUnchanged(Decimal(n));
    DecimalHasNoSeparator(n);
    ParseDecimal(n);
  }

  /** A negative number is read as a range with an empty first end and picks nothing. */
  lemma TokenOfNegative(n: nat)
    requires n > 0
    ensures TokenIndices(Decimal(-(n as int))) == []
  {
    var d := NatToDecimal(n);
    assert Decimal(-(n as int)) == ['-'] + d;
    DecimalHasNoSeparator(n);
    DecimalStrip(-(n as int));
    LeadingDashPicksNothing(d);
  }

  /** A token made of a dash and a dash-free tail has an empty first end. */
  lemma LeadingDashPicksNothing(d: string)
    requires '-' !in d && Strip(['-'] + d) == ['-'] + d
    ensures TokenIndices(['-'] + d) == []
  {
    assert "" + ['-'] + d == ['-'] + d;
    SplitField("", '-', d);
    SplitNoSeparator(d, '-', 0);
    assert Strip("") == "";
  }

  /** "a-b" stands for the hosts printed as a through b. */
  lemma TokenOfRange(a: nat, b: nat)
    ensures TokenIndices(Decimal(a) + "-" + Decimal(b)) == Range(a - 1, b)
  {
    RangeTextStrip(a, b);
    RangeTextSplit(a, b);
    DecimalStrip(a);
    DecimalStrip(b);
    ParseDecimal(a);
    ParseDecimal(b);
  }

  lemma DecimalStrip(i: int)
    ensures Strip(Decimal(i)) == Decimal(i)
  {
    StripUnchanged(Decimal(i));
  }

  lemma RangeTextStrip(a: nat, b: nat)
    ensures Strip(Decimal(a) + "-" + Decimal(b)) == Decimal(a) + "-" + Decimal(b)
    ensures '-' in Decimal(a) + "-" + Decimal(b)
  {
    var t := Decimal(a) + "-" + Decimal(b);
    assert t[0] == Decimal(a)[0] && t[|t| - 1] == Decimal(b)[|Decimal(b)| - 1];
    assert t[|Decimal(a)|] == '-';
    StripUnchanged(t);
  }

  lemma RangeTextSplit(a: nat, b: nat)
    ensures Split(Decimal(a) + "-" + Decimal(b), '-') == [Decimal(a), Decimal(b)]
  {
    assert Decimal(a) + "-" + Decimal(b) == Decimal(a) + ['-'] + Decimal(b);
    DecimalHasNoSeparator(a);
    DecimalHasNoSeparator(b);
    SplitField(Decimal(a), '-', Decimal(b));
    SplitNoSeparator(Decimal(b), '-', 0);
  }

  /** Digits, commas and dashes: the characters of a selection the menu suggests. */
  predicate SelectionChars(s: string) {
    forall i :: 0 <= i < |s| ==> IsDigit(s[i]) || s[i] == ',' || s[i] == '-'
  }

  /** Such a selection is unchanged by strip() and lower() and is not "all". */
  lemma SelectionCharsNormal(s: string)
    requires SelectionChars(s)
    ensures Lower(Strip(s)) == s && s != "all"
  {
    SelectionCharsStrip(s);
    SelectionCharsLower(s);
    SelectionCharsNotAll(s);
  }

  lemma SelectionCharsNotAll(s: string)
    requires SelectionChars(s)
    ensures s != "all"
  {
    if |s| == 3 {
      assert IsDigit(s[0]) || s[0] == ',' || s[0] == '-';
      assert "all"[0] == 'a';
    }
  }

  lemma SelectionCharsStrip(s: string)
    requires SelectionChars(s)
    ensures Strip(s) == s
  {
    if s != [] {
      assert !IsSpace(s[0]);
      assert !IsSpace(s[|s| - 1]);
    }
    StripUnchanged(s);
  }

  lemma SelectionCharsLower(s: string)
    requires SelectionChars(s)
    ensures Lower(s) == s
  {
    LowerUnchanged(s);
  }

  function Decimals(ns: seq<nat>): (ds: seq<string>)
    ensures |ds| == |ns|
  {
    seq(|ns|, k requires 0 <= k < |ns| => Decimal(ns[k]))
  }

  /** The numbers written out comma-separated, as in "1,3,5". */
  function NumbersText(ns: seq<nat>): string {
    Join(Decimals(ns), ',')
  }

  lemma {:induction false} JoinSelectionChars(parts: seq<string>, c: char)
    requires c == ',' || c == '-'
    requires forall k :: 0 <= k < |parts| ==> SelectionChars(parts[k])
    ensures SelectionChars(Join(parts, c))
    decreases |parts|
  {
    if |parts| > 1 {
      JoinSelectionChars(parts[1..], c);
      var j := Join(parts[1..], c);
      assert Join(parts, c) == parts[0] + [c] + j;
    }
  }

  /** The zero-based positions of the hosts numbered ns. */
  function Positions(ns: seq<nat>): (ps: seq<int>)
    ensures |ps| == |ns|
  {
    seq(|ns|, k requires 0 <= k < |ns| => ns[k] as int - 1)
  }

  lemma {:induction false} IndicesOfNumbers(ns: seq<nat>)
    ensures IndicesOf(Decimals(ns)) == Positions(ns)
    decreases |ns|
  {
    if ns != [] {
      var m := |ns| - 1;
      assert Decimals(ns) == Decimals(ns[..m]) + [Decimal(ns[m])];
      IndicesOfNumbers(ns[..m]);
      IndicesOfNumberSnoc(Decimals(ns[..m]), ns[m]);
      PositionsSnoc(ns);
    }
  }

  /** One more number token adds its position. */
  lemma IndicesOfNumberSnoc(ds: seq<string>, n: nat)
    ensures IndicesOf(ds + [Decimal(n)]) == IndicesOf(ds) + [n as int - 1]
  {
    var xs := ds + [Decimal(n)];
    assert xs[..|xs| - 1] == ds;
    TokenOfNumber(n);
  }

  lemma PositionsSnoc(ns: seq<nat>)
    requires ns != []
    ensures Positions(ns) == Positions(ns[..|ns| - 1]) + [ns[|ns| - 1] as int - 1]
  {
    var m := |ns| - 1;
    assert forall k :: 0 <= k < m ==> Positions(ns)[k] == Positions(ns[..m])[k];
  }

  /** Typing the numbers n1,...,nk of hosts on the menu picks exactly those hosts, in
      that order. */
  lemma SelectedNumbers<T>(ns: seq<nat>, hostList: seq<T>)
    requires ns != []
    requires forall k :: 0 <= k < |ns| ==> 1 <= ns[k] <= |hostList|
    ensures Selected(NumbersText(ns), hostList)
         == seq(|ns|, k requires 0 <= k < |ns| => hostList[ns[k] as int - 1])
  {
    var ps := Positions(ns);
    NumbersIndices(ns, |hostList|);
    assert Selected(NumbersText(ns), hostList) == Select(ps, hostList);
    assert InRange(ps, |hostList|);
    SelectInRange(ps, hostList);
    var picked := seq(|ns|, k requires 0 <= k < |ns| => hostList[ns[k] as int - 1]);
    forall k | 0 <= k < |ns|
      ensures Select(ps, hostList)[k] == picked[k]
    {
      assert ps[k] == ns[k] as int - 1;
    }
  }

  /** The indices the comma-separated numbers stand for. */
  lemma NumbersIndices(ns: seq<nat>, n: nat)
    requires ns != []
    ensures SelectedIndices(Lower(Strip(NumbersText(ns))), n) == Positions(ns)
  {
    NumbersTextParts(ns);
    SelectionCharsNormal(NumbersText(ns));
    IndicesOfNumbers(ns);
  }

  /** The comma-separated numbers split back into their renderings. */
  lemma NumbersTextParts(ns: seq<nat>)
    requires ns != []
    ensures SelectionChars(NumbersText(ns))
    ensures Split(NumbersText(ns), ',') == Decimals(ns)
  {
    var ds := Decimals(ns);
    forall k | 0 <= k < |ds|
      ensures ',' !in ds[k] && SelectionChars(ds[k])
    {
      DecimalHasNoSeparator(ns[k]);
    }
    JoinSelectionChars(ds, ',');
    JoinSplit(ds, ',');
  }

  /** Typing "a-b" with 1 <= a and b on the menu picks hosts a through b. */
  lemma SelectedRange<T>(a: nat, b: nat, hostList: seq<T>)
    requires 1 <= a <= b + 1 && b <= |hostList|
    ensures Selected(Decimal(a) + "-" + Decimal(b), hostList) == hostList[a - 1..b]
  {
    var t := Decimal(a) + "-" + Decimal(b);
    RangeTextChars(a, b);
    SelectionCharsNormal(t);
    SplitNoSeparator(t, ',', 0);
    IndicesOfOne(t);
    TokenOfRange(a, b);
    SelectRange(a - 1, b, hostList);
  }

  lemma RangeTextChars(a: nat, b: nat)
    ensures SelectionChars(Decimal(a) + "-" + Decimal(b)) && ',' !in Decimal(a) + "-" + Decimal(b)
  {
    DecimalHasNoSeparator(a);
    DecimalHasNoSeparator(b);
    JoinSelectionChars([Decimal(a), Decimal(b)], '-');
    assert Decimal(a) + "-" + Decimal(b) == Join([Decimal(a), Decimal(b)], '-');
  }

  lemma IndicesOfOne(t: string)
    ensures IndicesOf([t]) == TokenIndices(t)
  {
    assert [t][..0] == [];
  }

  /** The reply is rejected (and may be retried) exactly when none of the indices it
      names lies on the menu; in particular an empty menu rejects every reply. */
  lemma SelectedEmptyIff<T>(text: string, hostList: seq<T>)
    ensures Selected(text, hostList) == []
        <==> forall k :: 0 <= k < |SelectedIndices(Lower(Strip(text)), |hostList|)|
               ==> !(0 <= SelectedIndices(Lower(Strip(text)), |hostList|)[k] < |hostList|)
  {
    SelectEmptyIff(SelectedIndices(Lower(Strip(text)), |hostList|), hostList);
  }
}
