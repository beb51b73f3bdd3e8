/** The string operations the application relies on, on sequences of characters. */
module Text {
  import opened Basics

  // ---------- Decimal printing ----------

  function Digit(d: nat): char
    requires d < 10
  {
    ('0' as int + d) as char
  }

  /** `str(n)` for a non-negative integer. */
  function Decimal(n: nat): string {
    if n < 10 then [Digit(n)] else Decimal(n / 10) + [Digit(n % 10)]
  }

  lemma {:induction false} DecimalHasOnlyDigits(n: nat)
    ensures |Decimal(n)| > 0
    ensures forall i :: 0 <= i < |Decimal(n)| ==> '0' <= Decimal(n)[i] <= '9'
  {
    if n >= 10 {
      DecimalHasOnlyDigits(n / 10);
    }
  }

  lemma {:induction false} DecimalInjective(m: nat, n: nat)
    requires Decimal(m) == Decimal(n)
    ensures m == n
  {
    DecimalHasOnlyDigits(m / 10);
    DecimalHasOnlyDigits(n / 10);
    var s := Decimal(m);
    assert s[|s| - 1] == Digit(m % 10) == Digit(n % 10);
    if m >= 10 && n >= 10 {
      assert Decimal(m / 10) == s[..|s| - 1] == Decimal(n / 10);
      DecimalInjective(m / 10, n / 10);
    }
  }

  /** Two digit strings closed by the same non-digit agree when the texts they start agree. */
  lemma {:induction false} DecimalPrefixInjective(m: nat, n: nat, stop: char, rest: string, rest': string)
    requires !('0' <= stop <= '9')
    requires Decimal(m) + [stop] + rest == Decimal(n) + [stop] + rest'
    ensures m == n && rest == rest'
  {
    DecimalHasOnlyDigits(m);
    DecimalHasOnlyDigits(n);
    var s := Decimal(m) + [stop] + rest;
    var a, b := |Decimal(m)|, |Decimal(n)|;
    assert s[a] == stop && s[b] == stop;
    assert forall i :: 0 <= i < a ==> s[i] == Decimal(m)[i];
    assert forall i :: 0 <= i < b ==> s[i] == Decimal(n)[i];
    assert a == b;
    assert Decimal(m) == s[..a] == Decimal(n);
    DecimalInjective(m, n);
    assert rest == s[a + 1..] == rest';
  }

  // ---------- Joining ----------

  /** `sep.join(parts)`. */
  function Join(parts: seq<string>, sep: string): string {
    if |parts| == 0 then ""
    else if |parts| == 1 then parts[0]
    else parts[0] + sep + Join(parts[1..], sep)
  }

  /** Joining a list cut in two is joining the two halves around one separator. */
  lemma {:induction false} JoinConcat(a: seq<string>, b: seq<string>, sep: string)
    requires a != [] && b != []
    ensures Join(a + b, sep) == Join(a, sep) + sep + Join(b, sep)
  {
    assert (a + b)[1..] == a[1..] + b;
    if |a| > 1 {
      JoinConcat(a[1..], b, sep);
      assert Join(a + b, sep) == a[0] + sep + (Join(a[1..], sep) + sep + Join(b, sep));
    }
  }

  lemma {:induction false} JoinSnoc(a: seq<string>, last: string, sep: string)
    requires a != []
    ensures Join(a + [last], sep) == Join(a, sep) + sep + last
  {
    JoinConcat(a, [last], sep);
  }

  lemma {:induction false} PartLength(parts: seq<string>, part: string, sep: string)
    requires part in parts
    ensures |part| <= |Join(parts, sep)|
  {
    if parts[0] != part {
      PartLength(parts[1..], part, sep);
    }
  }

  // ---------- Whitespace ----------

  /** `str.isspace` of a one-character string. */
  predicate IsSpace(c: char) {
    || '\t' <= c <= '\r'
    || '\U{1C}' <= c <= ' '
    || c == '\U{85}' || c == '\U{A0}' || c == '\U{1680}'
    || '\U{2000}' <= c <= '\U{200A}'
    || c == '\U{2028}' || c == '\U{2029}' || c == '\U{202F}' || c == '\U{205F}' || c == '\U{3000}'
  }

  ghost predicate Blank(s: string) {
    forall i :: 0 <= i < |s| ==> IsSpace(s[i])
  }

  function StripLeft(s: string): string {
    if s != "" && IsSpace(s[0]) then StripLeft(s[1..]) else s
  }

  function StripRight(s: string): string {
    if s != "" && IsSpace(s[|s| - 1]) then StripRight(s[..|s| - 1]) else s
  }

  /** `s.strip()`. */
  function Strip(s: string): string {
    StripRight(StripLeft(s))
  }

  lemma {:induction false} StripLeftSpec(s: string)
    ensures var r := StripLeft(s);
      && |r| <= |s| && r == s[|s| - |r|..] && (r != "" ==> !IsSpace(r[0]))
    ensures forall i :: 0 <= i < |s| - |StripLeft(s)| ==> IsSpace(s[i])
  {
    if s != "" && IsSpace(s[0]) {
      StripLeftSpec(s[1..]);
      forall i | 1 <= i < |s| - |StripLeft(s)| ensures IsSpace(s[i]) {
        assert s[i] == s[1..][i - 1];
      }
    }
  }

  lemma {:induction false} StripRightSpec(s: string)
    ensures var r := StripRight(s);
      && r <= s && (r != "" ==> !IsSpace(r[|r| - 1]))
    ensures forall i :: |StripRight(s)| <= i < |s| ==> IsSpace(s[i])
  {
    if s != "" && IsSpace(s[|s| - 1]) {
      StripRightSpec(s[..|s| - 1]);
    }
  }

  /** Stripping keeps one contiguous slice, and everything outside it is white space. */
  lemma {:induction false} StripIsSlice(s: string) returns (lo: nat, hi: nat)
    ensures lo <= hi <= |s|
    ensures Strip(s) == s[lo..hi]
    ensures forall i :: (0 <= i < lo || hi <= i < |s|) ==> IsSpace(s[i])
    ensures lo < hi ==> !IsSpace(s[lo]) && !IsSpace(s[hi - 1])
  {
    var left := StripLeft(s);
    var r := StripRight(left);
    StripLeftSpec(s);
    StripRightSpec(left);
    lo := |s| - |left|;
    hi := lo + |r|;
    forall i | hi <= i < |s| ensures IsSpace(s[i]) {
      assert s[i] == left[i - lo];
    }
    assert s[lo..hi] == left[..|r|] == r;
  }

  /** A stripped text has no space at either end, and is empty just for a blank one. */
  lemma {:induction false} StripSpec(s: string)
    ensures |Strip(s)| <= |s|
    ensures Strip(s) != "" ==> !IsSpace(Strip(s)[0]) && !IsSpace(Strip(s)[|Strip(s)| - 1])
    ensures Strip(s) == "" <==> Blank(s)
  {
    var lo, hi := StripIsSlice(s);
    if lo < hi {
      assert !Blank(s);
    }
  }

  /** Nonempty, with no space at either end. */
  ghost predicate Clean(s: string) {
    s != "" && !IsSpace(s[0]) && !IsSpace(s[|s| - 1])
  }

  lemma {:induction false} StripClean(s: string)
    requires Clean(s)
    ensures Strip(s) == s
  {
  }

  /** `[part.strip() for part in parts if part.strip()]`. */
  function NonblankParts(parts: seq<string>): seq<string> {
    if parts == [] then []
    else if Strip(parts[0]) == "" then NonblankParts(parts[1..])
    else [Strip(parts[0])] + NonblankParts(parts[1..])
  }

  lemma {:induction false} NonblankPartsClean(parts: seq<string>)
    ensures forall part :: part in NonblankParts(parts) ==> Clean(part)
  {
    if parts != [] {
      StripSpec(parts[0]);
      NonblankPartsClean(parts[1..]);
    }
  }

  lemma {:induction false} NonblankSnoc(parts: seq<string>, last: string)
    ensures NonblankParts(parts + [last])
         == NonblankParts(parts) + if Strip(last) == "" then [] else [Strip(last)]
  {
    hide Strip;
    if parts == [] {
      assert parts + [last] == [last] && [last][1..] == [];
    } else {
      assert (parts + [last])[1..] == parts[1..] + [last];
      NonblankSnoc(parts[1..], last);
    }
  }

  /** Part `at[k]` strips to `kept[k]`, and the other parts are blank. */
  ghost predicate NonblankAt(parts: seq<string>, kept: seq<string>, at: seq<nat>) {
    && |at| == |kept|
    && (forall k :: 0 <= k < |at| ==> at[k] < |parts| && kept[k] == Strip(parts[at[k]]))
    && (forall k, l :: 0 <= k < l < |at| ==> at[k] < at[l])
    && (forall i :: 0 <= i < |parts| ==> (Strip(parts[i]) != "" <==> i in at))
  }

  /** Where the nonblank parts stand among all parts: each once, in order, and none is left out. */
  lemma {:induction false} NonblankPositions(parts: seq<string>) returns (at: seq<nat>)
    ensures NonblankAt(parts, NonblankParts(parts), at)
  {
    hide Strip;
    at := [];
    if parts != [] {
      var n := |parts| - 1;
      var before := parts[..n];
      assert parts == before + [parts[n]];
      at := NonblankPositions(before);
      NonblankSnoc(before, parts[n]);
      OneMorePosition(before, NonblankParts(before), at, parts[n]);
      if Strip(parts[n]) != "" {
        at := at + [n];
      }
    }
  }

  lemma {:induction false} OneMorePosition(parts: seq<string>, kept: seq<string>, at: seq<nat>, last: string)
    requires NonblankAt(parts, kept, at)
    ensures
      if Strip(last) == "" then NonblankAt(parts + [last], kept + [], at)
      else NonblankAt(parts + [last], kept + [Strip(last)], at + [|parts|])
  {
    hide Strip;
    var all := parts + [last];
    assert |parts| !in at;
    forall i | 0 <= i < |all| ensures i in at + [|parts|] <==> i in at || i == |parts| {
    }
    assert forall i :: 0 <= i < |parts| ==> all[i] == parts[i];
    assert kept + [] == kept;
  }

  // ---------- Splitting at a separator ----------

  /** `sep` occurs in `s` at position `i`. */
  predicate OccursAt(s: string, sep: string, i: nat) {
    i + |sep| <= |s| && s[i..i + |sep|] == sep
  }

  /** The first position at or after `from` where `sep` occurs, or `|s|`. */
  function FindFrom(s: string, sep: string, from: nat): (i: nat)
    requires from <= |s|
    ensures from <= i <= |s|
    ensures i < |s| ==> OccursAt(s, sep, i)
    ensures forall j :: from <= j < i ==> !OccursAt(s, sep, j)
    decreases |s| - from
  {
    if from == |s| || OccursAt(s, sep, from) then from else FindFrom(s, sep, from + 1)
  }

  /** `s.split(sep)`: cut at every leftmost non-overlapping occurrence. */
  function Split(s: string, sep: string): (parts: seq<string>)
    requires sep != ""
    ensures parts != []
    decreases |s|
  {
    var i := FindFrom(s, sep, 0);
    if i == |s| then [s] else [s[..i]] + Split(s[i + |sep|..], sep)
  }

  /** `sep` occurs nowhere in `s`. */
  ghost predicate FreeOf(s: string, sep: string) {
    forall i: nat :: !OccursAt(s, sep, i)
  }

  lemma {:induction false} OccursInSlice(s: string, sep: string, lo: nat, hi: nat, i: nat)
    requires lo <= hi <= |s| && i + |sep| <= hi - lo
    ensures OccursAt(s[lo..hi], sep, i) <==> OccursAt(s, sep, lo + i)
  {
    SliceOfSlice(s, lo, hi, i, i + |sep|);
  }

  lemma {:induction false} SliceFreeOf(s: string, sep: string, lo: nat, hi: nat)
    requires FreeOf(s, sep) && lo <= hi <= |s|
    ensures FreeOf(s[lo..hi], sep)
  {
    forall i: nat ensures !OccursAt(s[lo..hi], sep, i) {
      if i + |sep| <= hi - lo {
        OccursInSlice(s, sep, lo, hi, i);
      }
    }
  }

  lemma {:induction false} HeadFreeOf(s: string, sep: string)
    requires sep != ""
    ensures FreeOf(s[..FindFrom(s, sep, 0)], sep)
  {
    var found := FindFrom(s, sep, 0);
    assert s[0..found] == s[..found];
    forall i: nat ensures !OccursAt(s[..found], sep, i) {
      if i + |sep| <= found {
        OccursInSlice(s, sep, 0, found, i);
      }
    }
  }

  /** The parts of a split do not contain the separator. */
  lemma {:induction false} SplitPartsFree(s: string, sep: string)
    requires sep != ""
    ensures forall part :: part in Split(s, sep) ==> FreeOf(part, sep)
    decreases |s|
  {
    var i := FindFrom(s, sep, 0);
    HeadFreeOf(s, sep);
    if i == |s| {
      assert s[..i] == s;
    } else {
      SplitPartsFree(s[i + |sep|..], sep);
    }
  }

  lemma {:induction false} SplitHere(s: string, sep: string, i: nat)
    requires sep != "" && OccursAt(s, sep, i)
    ensures s == s[..i] + sep + s[i + |sep|..]
  {
    assert s == s[..i] + s[i..i + |sep|] + s[i + |sep|..];
  }

  /** `sep.join(s.split(sep)) == s`. */
  lemma {:induction false} JoinUndoesSplit(s: string, sep: string)
    requires sep != ""
    ensures Join(Split(s, sep), sep) == s
    decreases |s|
  {
    var i := FindFrom(s, sep, 0);
    if i < |s| {
      var rest := Split(s[i + |sep|..], sep);
      SplitHere(s, sep, i);
      JoinUndoesSplit(s[i + |sep|..], sep);
      assert ([s[..i]] + rest)[1..] == rest;
    }
  }

  // ---------- What is not white space ----------

  /** The characters of a text that are no white space, in order. */
  function Solid(s: string): string {
    if s == "" then ""
    else (if IsSpace(s[0]) then "" else [s[0]]) + Solid(s[1..])
  }

  /** The same for the texts of a list together. */
  function Solids(parts: seq<string>): string {
    if parts == [] then "" else Solid(parts[0]) + Solids(parts[1..])
  }

  lemma {:induction false} SolidConcat(a: string, b: string)
    ensures Solid(a + b) == Solid(a) + Solid(b)
  {
    if a == "" {
      assert a + b == b;
    } else {
      assert (a + b)[1..] == a[1..] + b;
      SolidConcat(a[1..], b);
    }
  }

  lemma {:induction false} SolidBlank(s: string)
    ensures Solid(s) == "" <==> Blank(s)
  {
    if s != "" {
      SolidBlank(s[1..]);
      assert Blank(s) <==> IsSpace(s[0]) && Blank(s[1..]);
    }
  }

  lemma {:induction false} SolidStrip(s: string)
    ensures Solid(Strip(s)) == Solid(s)
  {
    var lo, hi := StripIsSlice(s);
    assert s == s[..lo] + (s[lo..hi] + s[hi..]);
    SolidConcat(s[..lo], s[lo..hi] + s[hi..]);
    SolidConcat(s[lo..hi], s[hi..]);
    SolidBlank(s[..lo]);
    SolidBlank(s[hi..]);
  }

  lemma {:induction false} SolidsConcat(a: seq<string>, b: seq<string>)
    ensures Solids(a + b) == Solids(a) + Solids(b)
  {
    if a == [] {
      assert a + b == b;
    } else {
      assert (a + b)[1..] == a[1..] + b;
      SolidsConcat(a[1..], b);
    }
  }

  /** Joining with white space adds nothing solid. */
  lemma {:induction false} SolidJoin(parts: seq<string>, sep: string)
    requires Blank(sep)
    ensures Solid(Join(parts, sep)) == Solids(parts)
  {
    if |parts| > 1 {
      SolidJoin(parts[1..], sep);
      SolidConcat(parts[0] + sep, Join(parts[1..], sep));
      SolidConcat(parts[0], sep);
      SolidBlank(sep);
    }
  }

  /** Splitting at white space loses nothing solid. */
  lemma {:induction false} SolidSplit(s: string, sep: string)
    requires sep != "" && Blank(sep)
    ensures Solids(Split(s, sep)) == Solid(s)
  {
    JoinUndoesSplit(s, sep);
    SolidJoin(Split(s, sep), sep);
  }

  lemma {:induction false} SolidNonblank(parts: seq<string>)
    ensures Solids(NonblankParts(parts)) == Solids(parts)
  {
    if parts != [] {
      SolidNonblank(parts[1..]);
      SolidStrip(parts[0]);
    }
  }

  lemma {:induction false} SolidPrefix(a: string, b: string)
    requires a <= b
    ensures Solid(a) <= Solid(b)
  {
    assert b == a + b[|a|..];
    SolidConcat(a, b[|a|..]);
  }
}
