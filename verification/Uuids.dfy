/** UUIDs, their canonical text, and the ordering that text induces. */
module Uuids {

  /** A UUID is a 128-bit number. */
  type Uuid = n: nat | n < 0x1_0000_0000_0000_0000_0000_0000_0000_0000

  function HexDigit(d: nat): char
    requires d < 16
  {
    (if d < 10 then '0' as int + d else 'a' as int + d - 10) as char
  }

  /** The `width` low hexadecimal digits of `n`. */
  function Hex(n: nat, width: nat): (s: string)
    ensures |s| == width
  {
    if width == 0 then "" else Hex(n / 16, width - 1) + [HexDigit(n % 16)]
  }

  function Pow16(k: nat): nat {
    if k == 0 then 1 else 16 * Pow16(k - 1)
  }

  lemma {:induction false} HexInjective(m: nat, n: nat, width: nat)
    requires m < Pow16(width) && n < Pow16(width)
    requires Hex(m, width) == Hex(n, width)
    ensures m == n
  {
    if width > 0 {
      var s := Hex(m, width);
      assert s[width - 1] == HexDigit(m % 16) == HexDigit(n % 16);
      assert Hex(m / 16, width - 1) == s[..width - 1] == Hex(n / 16, width - 1);
      HexInjective(m / 16, n / 16, width - 1);
    }
  }

  /** `str(uuid)`: the canonical lower-case form, 8-4-4-4-12. */
  function ToText(u: Uuid): (s: string)
    ensures |s| == 36
  {
    var h := Hex(u, 32);
    h[..8] + "-" + h[8..12] + "-" + h[12..16] + "-" + h[16..20] + "-" + h[20..]
  }

  /** Different UUIDs print differently. */
  lemma {:induction false} ToTextInjective(u: Uuid, v: Uuid)
    requires ToText(u) == ToText(v)
    ensures u == v
  {
    var h, g := Hex(u, 32), Hex(v, 32);
    forall i | 0 <= i < 32 ensures h[i] == g[i] {
      DigitAt(u, i);
      DigitAt(v, i);
    }
    assert h == g;
    Pow16Of32();
    HexInjective(u, v, 32);
  }

  lemma {:induction false} Pow16Of32()
    ensures Pow16(32) == 0x1_0000_0000_0000_0000_0000_0000_0000_0000
  {
    assert Pow16(8) == 0x1_0000_0000;
    assert Pow16(16) == 0x1_0000_0000_0000_0000;
    assert Pow16(24) == 0x1_0000_0000_0000_0000_0000_0000;
  }

  // ---------- The order of the texts ----------

  /** The texts agree up to `i`, where `a` has the smaller character. */
  predicate SmallerAt(a: string, b: string, i: nat) {
    i < |a| && i < |b| && a[..i] == b[..i] && a[i] < b[i]
  }

  /** Python's `a < b` on strings. */
  ghost predicate TextLess(a: string, b: string) {
    a < b || exists i: nat :: SmallerAt(a, b, i)
  }

  lemma {:induction false} HexOrder(m: nat, n: nat, width: nat) returns (i: nat)
    requires m < n < Pow16(width)
    ensures SmallerAt(Hex(m, width), Hex(n, width), i)
  {
    if m / 16 < n / 16 {
      i := HexOrder(m / 16, n / 16, width - 1);
      assert Hex(m, width)[..i] == Hex(m / 16, width - 1)[..i] == Hex(n / 16, width - 1)[..i] == Hex(n, width)[..i];
    } else {
      i := width - 1;
      assert Hex(m, width)[..i] == Hex(m / 16, i) == Hex(n / 16, i) == Hex(n, width)[..i];
    }
  }

  /** How many dashes stand in front of the hexadecimal digit `i`. */
  function Dashes(i: nat): nat {
    if i < 8 then 0 else if i < 12 then 1 else if i < 16 then 2 else if i < 20 then 3 else 4
  }

  lemma {:induction false} DigitAt(u: Uuid, i: nat)
    requires i < 32
    ensures ToText(u)[i + Dashes(i)] == Hex(u, 32)[i]
  {
  }

  /** The texts of two ids agree in front of a digit when their digits in front of it do. */
  lemma {:induction false} SamePrefix(u: Uuid, v: Uuid, i: nat)
    requires i < 32 && Hex(u, 32)[..i] == Hex(v, 32)[..i]
    ensures ToText(u)[..i + Dashes(i)] == ToText(v)[..i + Dashes(i)]
  {
    forall k | 0 <= k < i + Dashes(i) ensures ToText(u)[k] == ToText(v)[k] {
      if k != 8 && k != 13 && k != 18 && k != 23 {
        var j := k - (if k < 8 then 0 else if k < 13 then 1 else if k < 18 then 2 else if k < 23 then 3 else 4);
        DigitAt(u, j);
        DigitAt(v, j);
        assert Hex(u, 32)[j] == Hex(u, 32)[..i][j];
      }
    }
  }

  /** The order of the texts is the order of the numbers. */
  lemma {:induction false} ToTextOrder(u: Uuid, v: Uuid)
    requires u < v
    ensures TextLess(ToText(u), ToText(v))
  {
    Pow16Of32();
    var i := HexOrder(u, v, 32);
    SamePrefix(u, v, i);
    DigitAt(u, i);
    DigitAt(v, i);
    assert SmallerAt(ToText(u), ToText(v), i + Dashes(i));
  }

  /** `uuid5(NAMESPACE_URL, name)`, taken as injective on names. */
  datatype NameUuid = Uuid5(name: string)

  // ---------- sorted(set(ids), key=str) ----------

  /** Insert into an ascending list, dropping a duplicate. */
  function Insert(u: Uuid, s: seq<Uuid>): seq<Uuid> {
    if s == [] || u < s[0] then [u] + s
    else if u == s[0] then s
    else [s[0]] + Insert(u, s[1..])
  }

  /**
   * The distinct ids in the order of their canonical text, which is the order of the numbers.
   */
  function SortedUnique(ids: seq<Uuid>): seq<Uuid> {
    if ids == [] then [] else Insert(ids[0], SortedUnique(ids[1..]))
  }

  lemma {:induction false} InsertMembers(u: Uuid, s: seq<Uuid>)
    ensures forall v :: v in Insert(u, s) <==> v == u || v in s
  {
    if s != [] && u > s[0] {
      InsertMembers(u, s[1..]);
    }
  }

  ghost predicate Ascending(s: seq<Uuid>) {
    forall i, j :: 0 <= i < j < |s| ==> s[i] < s[j]
  }

  ghost predicate TextsAscend(s: seq<Uuid>) {
    forall i, j :: 0 <= i < j < |s| ==> TextLess(ToText(s[i]), ToText(s[j]))
  }

  lemma {:induction false} InsertAscends(u: Uuid, s: seq<Uuid>)
    requires Ascending(s)
    ensures Ascending(Insert(u, s))
  {
    if s != [] && u > s[0] {
      InsertAscends(u, s[1..]);
      InsertMembers(u, s[1..]);
      var t := Insert(u, s[1..]);
      forall k | 0 <= k < |t| ensures s[0] < t[k] {
        assert t[k] in t;
      }
    }
  }

  lemma {:induction false} SortedUniqueAscends(ids: seq<Uuid>)
    ensures forall v :: v in SortedUnique(ids) <==> v in ids
    ensures Ascending(SortedUnique(ids))
  {
    if ids != [] {
      SortedUniqueAscends(ids[1..]);
      InsertMembers(ids[0], SortedUnique(ids[1..]));
      InsertAscends(ids[0], SortedUnique(ids[1..]));
    }
  }

  /** Sorting a set of ids by their text loses none, invents none and repeats none. */
  lemma {:induction false} SortedUniqueSpec(ids: seq<Uuid>)
    ensures forall v :: v in SortedUnique(ids) <==> v in ids
    ensures Ascending(SortedUnique(ids)) && TextsAscend(SortedUnique(ids))
  {
    var sorted := SortedUnique(ids);
    SortedUniqueAscends(ids);
    forall i, j | 0 <= i < j < |sorted| ensures TextLess(ToText(sorted[i]), ToText(sorted[j])) {
      ToTextOrder(sorted[i], sorted[j]);
    }
  }
}
