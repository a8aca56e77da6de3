/** The canonical byte encoding: what the encoder appends, and that it can be read back in one way only. */
module Encoder {
  import opened Basics
  import opened Blocks
  import opened ByteOrder

  const TWO_31 := 0x8000_0000
  const TWO_32 := 0x1_0000_0000
  const TWO_64 := 0x1_0000_0000_0000_0000

  // ----- The encoding -----

  function Int64Bytes(n: int): (s: Bytes)
    ensures |s| == 8
  {
    BigEndian(n % TWO_64, 8)
  }

  /** The low 32 bits, as of a number cast to 32 bits. */
  function Int32Bytes(n: int): (s: Bytes)
    ensures |s| == 4
  {
    BigEndian(n % TWO_32, 4)
  }

  function StringBytes(b: Bytes): Bytes {
    Int32Bytes(|b|) + b
  }

  function ManyBytes(p: seq<Bytes>): Bytes {
    if p == [] then [] else StringBytes(p[0]) + ManyBytes(p[1..])
  }

  function SliceBytes(p: seq<Bytes>): Bytes {
    Int32Bytes(|p|) + ManyBytes(p)
  }

  predicate Short(b: Bytes) {
    |b| < TWO_31
  }

  ghost predicate AllShort(p: seq<Bytes>) {
    |p| < TWO_31 && forall i :: 0 <= i < |p| ==> Short(p[i])
  }

  // ----- Unique decoding -----

  lemma SamePrefix(a: Bytes, b: Bytes, s: Bytes, t: Bytes)
    requires |a| == |b| && a + s == b + t
    ensures a == b && s == t
  {
    assert (a + s)[..|a|] == a && (b + t)[..|b|] == b;
    assert (a + s)[|a|..] == s && (b + t)[|b|..] == t;
  }

  lemma Associative(a: Bytes, b: Bytes, c: Bytes)
    ensures a + b + c == a + (b + c)
  {
  }

  lemma Pow256Of4()
    ensures Pow256(4) == TWO_32
  {
    assert Pow256(4) == 256 * (256 * (256 * (256 * Pow256(0))));
  }

  lemma BigEndianUnique(x: nat, y: nat, n: nat)
    requires x < Pow256(n) && y < Pow256(n) && BigEndian(x, n) == BigEndian(y, n)
    ensures x == y
  {
    BigEndianInverse(x, n);
    BigEndianInverse(y, n);
  }

  lemma SameModulo64(x: int, y: int)
    requires Int64(x) && Int64(y) && x % TWO_64 == y % TWO_64
    ensures x == y
  {
  }

  lemma SameModulo32(x: int, y: int)
    requires -TWO_31 <= x < TWO_31 && -TWO_31 <= y < TWO_31
    requires x % TWO_32 == y % TWO_32 || (x + TWO_31) % TWO_32 == (y + TWO_31) % TWO_32
    ensures x == y
  {
  }

  lemma Int64Injective(x: int, y: int)
    requires Int64(x) && Int64(y) && Int64Bytes(x) == Int64Bytes(y)
    ensures x == y
  {
    Pow256Of8();
    BigEndianUnique(x % TWO_64, y % TWO_64, 8);
    SameModulo64(x, y);
  }

  lemma Int32Injective(x: int, y: int)
    requires Int32Bytes(x) == Int32Bytes(y)
    ensures x % TWO_32 == y % TWO_32
  {
    Pow256Of4();
    BigEndianUnique(x % TWO_32, y % TWO_32, 4);
  }

  lemma Int64Unique(x: int, y: int, s: Bytes, t: Bytes)
    requires Int64(x) && Int64(y) && Int64Bytes(x) + s == Int64Bytes(y) + t
    ensures x == y && s == t
  {
    SamePrefix(Int64Bytes(x), Int64Bytes(y), s, t);
    Int64Injective(x, y);
  }

  lemma Int32Unique(x: int, y: int, s: Bytes, t: Bytes)
    requires Int32Bytes(x) + s == Int32Bytes(y) + t
    ensures x % TWO_32 == y % TWO_32 && s == t
  {
    SamePrefix(Int32Bytes(x), Int32Bytes(y), s, t);
    Int32Injective(x, y);
  }

  /** A length or count before what it counts. */
  lemma CountUnique(x: nat, y: nat, a: Bytes, b: Bytes, s: Bytes, t: Bytes)
    requires x < TWO_31 && y < TWO_31 && Int32Bytes(x) + a + s == Int32Bytes(y) + b + t
    ensures x == y && a + s == b + t
  {
    Associative(Int32Bytes(x), a, s);
    Associative(Int32Bytes(y), b, t);
    Int32Unique(x, y, a + s, b + t);
  }

  lemma StringUnique(a: Bytes, b: Bytes, s: Bytes, t: Bytes)
    requires Short(a) && Short(b) && StringBytes(a) + s == StringBytes(b) + t
    ensures a == b && s == t
  {
    CountUnique(|a|, |b|, a, b, s, t);
    SamePrefix(a, b, s, t);
  }

  lemma FirstUnique(k: Bytes, l: Bytes, a: Bytes, b: Bytes, s: Bytes, t: Bytes)
    requires Short(k) && Short(l) && StringBytes(k) + a + s == StringBytes(l) + b + t
    ensures k == l && a + s == b + t
  {
    Associative(StringBytes(k), a, s);
    Associative(StringBytes(l), b, t);
    StringUnique(k, l, a + s, b + t);
  }

  lemma {:induction false} ManyUnique(p: seq<Bytes>, q: seq<Bytes>, s: Bytes, t: Bytes)
    requires |p| == |q| && AllShort(p) && AllShort(q) && ManyBytes(p) + s == ManyBytes(q) + t
    ensures p == q && s == t
  {
    if p == [] {
      assert ManyBytes(p) + s == s && ManyBytes(q) + t == t;
    } else {
      FirstUnique(p[0], q[0], ManyBytes(p[1..]), ManyBytes(q[1..]), s, t);
      ManyUnique(p[1..], q[1..], s, t);
      assert p == [p[0]] + p[1..] && q == [q[0]] + q[1..];
    }
  }

  lemma SliceUnique(p: seq<Bytes>, q: seq<Bytes>, s: Bytes, t: Bytes)
    requires AllShort(p) && AllShort(q) && SliceBytes(p) + s == SliceBytes(q) + t
    ensures p == q && s == t
  {
    CountUnique(|p|, |q|, ManyBytes(p), ManyBytes(q), s, t);
    ManyUnique(p, q, s, t);
  }

  // ----- Maps -----

  predicate AtMost(a: Bytes, b: Bytes) {
    CompareBytes(a, b) <= 0
  }

  lemma AtMostTransitive(a: Bytes, b: Bytes, c: Bytes)
    requires AtMost(a, b) && AtMost(b, c)
    ensures AtMost(a, c)
  {
    CompareBytesAntisymmetric(a, b);
    CompareBytesAntisymmetric(b, c);
    if CompareBytes(a, b) < 0 && CompareBytes(b, c) < 0 {
      CompareBytesTransitive(a, b, c);
    }
  }

  ghost predicate Ascending(s: seq<Bytes>) {
    forall i, j :: 0 <= i < j < |s| ==> AtMost(s[i], s[j])
  }

  /** The keys in ascending order, each once. */
  ghost predicate Lists(s: seq<Bytes>, keys: set<Bytes>) {
    Ascending(s) && NoDuplicates(s) && Elements(s) == keys
  }

  /** There is only one such list. */
  lemma {:induction false} ListedOnce(s: seq<Bytes>, t: seq<Bytes>, keys: set<Bytes>)
    requires Lists(s, keys) && Lists(t, keys)
    ensures s == t
    decreases |s|
  {
    NoDuplicatesCount(s);
    NoDuplicatesCount(t);
    if s != [] {
      var k := s[0];
      assert k in Elements(s) && k in Elements(t);
      assert t[0] in Elements(t) && t[0] in Elements(s);
      FirstIsLeast(s, t[0]);
      FirstIsLeast(t, k);
      CompareBytesAntisymmetric(k, t[0]);
      Rest(s, keys);
      Rest(t, keys);
      ListedOnce(s[1..], t[1..], keys - {k});
      assert s == [k] + s[1..] && t == [t[0]] + t[1..];
    }
  }

  lemma FirstIsLeast(s: seq<Bytes>, k: Bytes)
    requires Ascending(s) && k in s
    ensures AtMost(s[0], k)
  {
    CompareBytesAntisymmetric(k, k);
  }

  lemma Rest(s: seq<Bytes>, keys: set<Bytes>)
    requires Lists(s, keys) && s != []
    ensures Lists(s[1..], keys - {s[0]})
  {
    forall k
      ensures k in s[1..] <==> k in keys && k != s[0]
    {
      assert k in s <==> k in Elements(s);
    }
    assert Elements(s[1..]) == keys - {s[0]};
  }

  function PairsBytes(m: map<Bytes, int>, keys: seq<Bytes>): Bytes
    requires forall i :: 0 <= i < |keys| ==> keys[i] in m
  {
    if keys == [] then [] else StringBytes(keys[0]) + Int64Bytes(m[keys[0]]) + PairsBytes(m, keys[1..])
  }

  function Insert(k: Bytes, s: seq<Bytes>): seq<Bytes> {
    if s == [] then [k] else if AtMost(k, s[0]) then [k] + s else [s[0]] + Insert(k, s[1..])
  }

  lemma {:induction false} InsertLists(k: Bytes, s: seq<Bytes>, keys: set<Bytes>)
    requires Lists(s, keys) && k !in keys
    ensures Lists(Insert(k, s), keys + {k})
    decreases |s|
  {
    if s != [] {
      var first := s[0];
      assert s == [first] + s[1..] && first in Elements(s);
      Rest(s, keys);
      CompareBytesAntisymmetric(k, first);
      if AtMost(k, first) {
        forall x | x in Elements(s)
          ensures AtMost(k, x)
        {
          FirstIsLeast(s, x);
          AtMostTransitive(k, first, x);
        }
        ListsCons(k, s, keys);
      } else {
        InsertLists(k, s[1..], keys - {first});
        forall x | x in keys - {first} + {k}
          ensures AtMost(first, x)
        {
          assert x == k || x in Elements(s);
          if x != k {
            FirstIsLeast(s, x);
          }
        }
        ListsCons(first, Insert(k, s[1..]), keys - {first} + {k});
        assert keys - {first} + {k} + {first} == keys + {k};
      }
    } else {
      assert Elements([k]) == {k} && Elements(s) == {};
    }
  }

  lemma ListsCons(k: Bytes, s: seq<Bytes>, keys: set<Bytes>)
    requires Lists(s, keys) && k !in keys && forall x :: x in keys ==> AtMost(k, x)
    ensures Lists([k] + s, keys + {k})
  {
    assert forall i :: 0 <= i < |s| ==> s[i] in Elements(s);
    assert forall x :: x in [k] + s <==> x == k || x in s;
  }

  /** The list of the keys. */
  ghost function Listing(keys: set<Bytes>): (s: seq<Bytes>)
    ensures Lists(s, keys)
    decreases |keys|
  {
    if keys == {} then [] else
      var k :| k in keys;
      InsertLists(k, Listing(keys - {k}), keys - {k});
      assert keys - {k} + {k} == keys;
      Insert(k, Listing(keys - {k}))
  }

  /** The encoding of a map: the pairs in ascending order of their keys. */
  ghost function MapBytes(m: map<Bytes, int>): Bytes {
    MapOf(m, Listing(m.Keys))
  }

  lemma MapBytesIs(m: map<Bytes, int>, keys: seq<Bytes>)
    requires Lists(keys, m.Keys)
    ensures MapBytes(m) == MapOf(m, keys)
  {
    ListedOnce(keys, Listing(m.Keys), m.Keys);
  }

  ghost function MapOf(m: map<Bytes, int>, keys: seq<Bytes>): Bytes
    requires Lists(keys, m.Keys)
  {
    Listed(m, keys);
    Int32Bytes(|keys|) + PairsBytes(m, keys)
  }

  lemma Listed(m: map<Bytes, int>, keys: seq<Bytes>)
    requires Lists(keys, m.Keys)
    ensures forall i :: 0 <= i < |keys| ==> keys[i] in m
    ensures |keys| == |m|
  {
    NoDuplicatesCount(keys);
    forall i | 0 <= i < |keys|
      ensures keys[i] in m
    {
      assert keys[i] in Elements(keys);
    }
  }

  ghost predicate MapFits(m: map<Bytes, int>) {
    |m| < TWO_31 && forall k :: k in m ==> Short(k) && Int64(m[k])
  }

  lemma PairUnique(k: Bytes, l: Bytes, v: int, w: int, a: Bytes, b: Bytes, s: Bytes, t: Bytes)
    requires Short(k) && Short(l) && Int64(v) && Int64(w)
    requires StringBytes(k) + Int64Bytes(v) + a + s == StringBytes(l) + Int64Bytes(w) + b + t
    ensures k == l && v == w && a + s == b + t
  {
    var x, y := Int64Bytes(v), Int64Bytes(w);
    Associative(StringBytes(k) + x, a, s);
    Associative(StringBytes(l) + y, b, t);
    FirstUnique(k, l, x, y, a + s, b + t);
    Int64Unique(v, w, a + s, b + t);
  }

  lemma {:induction false} PairsUnique(
    m: map<Bytes, int>, n: map<Bytes, int>, p: seq<Bytes>, q: seq<Bytes>, s: Bytes, t: Bytes)
    requires MapFits(m) && MapFits(n) && |p| == |q|
    requires (forall i :: 0 <= i < |p| ==> p[i] in m) && (forall i :: 0 <= i < |q| ==> q[i] in n)
    requires PairsBytes(m, p) + s == PairsBytes(n, q) + t
    ensures p == q && s == t && forall i :: 0 <= i < |p| ==> m[p[i]] == n[p[i]]
    decreases |p|
  {
    if p == [] {
      assert PairsBytes(m, p) + s == s && PairsBytes(n, q) + t == t;
    } else {
      PairUnique(p[0], q[0], m[p[0]], n[q[0]], PairsBytes(m, p[1..]), PairsBytes(n, q[1..]), s, t);
      PairsUnique(m, n, p[1..], q[1..], s, t);
      assert p == [p[0]] + p[1..] && q == [q[0]] + q[1..];
    }
  }

  lemma MapUnique(m: map<Bytes, int>, n: map<Bytes, int>, s: Bytes, t: Bytes)
    requires MapFits(m) && MapFits(n) && MapBytes(m) + s == MapBytes(n) + t
    ensures m == n && s == t
  {
    ListsUnique(m, n, Listing(m.Keys), Listing(n.Keys), s, t);
  }

  lemma ListsUnique(m: map<Bytes, int>, n: map<Bytes, int>, p: seq<Bytes>, q: seq<Bytes>, s: Bytes, t: Bytes)
    requires MapFits(m) && MapFits(n) && Lists(p, m.Keys) && Lists(q, n.Keys)
    requires MapOf(m, p) + s == MapOf(n, q) + t
    ensures m == n && s == t
  {
    Listed(m, p);
    Listed(n, q);
    CountUnique(|p|, |q|, PairsBytes(m, p), PairsBytes(n, q), s, t);
    PairsUnique(m, n, p, q, s, t);
    SamePairs(m, n, p);
  }

  lemma SamePairs(m: map<Bytes, int>, n: map<Bytes, int>, p: seq<Bytes>)
    requires m.Keys == n.Keys == Elements(p)
    requires forall i :: 0 <= i < |p| ==> p[i] in m && p[i] in n && m[p[i]] == n[p[i]]
    ensures m == n
  {
    forall k | k in m
      ensures m[k] == n[k]
    {
      assert k in Elements(p);
    }
  }

  // ----- Records -----

  datatype Field = ByteField(b: byte) | Int32Field(n: int) | Uint32Field(n: int) | Int64Field(n: int)
                 | TextField(text: Bytes) | SliceField(parts: seq<Bytes>) | MapField(m: map<Bytes, int>)

  ghost function FieldBytes(f: Field): Bytes {
    match f
    case ByteField(b) => [b]
    case Int32Field(n) => Int32Bytes(n)
    case Uint32Field(n) => Int32Bytes(n)
    case Int64Field(n) => Int64Bytes(n)
    case TextField(text) => StringBytes(text)
    case SliceField(parts) => SliceBytes(parts)
    case MapField(m) => MapBytes(m)
  }

  ghost function RecordBytes(fields: seq<Field>): Bytes {
    if fields == [] then [] else FieldBytes(fields[0]) + RecordBytes(fields[1..])
  }

  /** Numbers in their range, and everything counted shorter than 2^31. */
  ghost predicate FieldFits(f: Field) {
    match f
    case ByteField(_) => true
    case Int32Field(n) => -TWO_31 <= n < TWO_31
    case Uint32Field(n) => 0 <= n < TWO_32
    case Int64Field(n) => Int64(n)
    case TextField(text) => Short(text)
    case SliceField(parts) => AllShort(parts)
    case MapField(m) => MapFits(m)
  }

  predicate SameKind(f: Field, g: Field) {
    match f
    case ByteField(_) => g.ByteField?
    case Int32Field(_) => g.Int32Field?
    case Uint32Field(_) => g.Uint32Field?
    case Int64Field(_) => g.Int64Field?
    case TextField(_) => g.TextField?
    case SliceField(_) => g.SliceField?
    case MapField(_) => g.MapField?
  }

  ghost predicate RecordFits(fields: seq<Field>) {
    forall i :: 0 <= i < |fields| ==> FieldFits(fields[i])
  }

  ghost predicate SameShape(f: seq<Field>, g: seq<Field>) {
    |f| == |g| && forall i :: 0 <= i < |f| ==> SameKind(f[i], g[i])
  }

  lemma FieldUnique(f: Field, g: Field, s: Bytes, t: Bytes)
    requires SameKind(f, g) && FieldFits(f) && FieldFits(g) && FieldBytes(f) + s == FieldBytes(g) + t
    ensures f == g && s == t
  {
    match f
    case ByteField(b) => SamePrefix([b], [g.b], s, t);
    case Int32Field(n) =>
      Int32Unique(n, g.n, s, t);
      SameModulo32(n, g.n);
    case Uint32Field(n) =>
      Int32Unique(n, g.n, s, t);
      SameModulo32(n - TWO_31, g.n - TWO_31);
    case Int64Field(n) => Int64Unique(n, g.n, s, t);
    case TextField(text) => StringUnique(text, g.text, s, t);
    case SliceField(parts) => SliceUnique(parts, g.parts, s, t);
    case MapField(m) => MapUnique(m, g.m, s, t);
  }

  lemma FieldThenUnique(f: Field, g: Field, a: Bytes, b: Bytes, s: Bytes, t: Bytes)
    requires SameKind(f, g) && FieldFits(f) && FieldFits(g) && FieldBytes(f) + a + s == FieldBytes(g) + b + t
    ensures f == g && a + s == b + t
  {
    Associative(FieldBytes(f), a, s);
    Associative(FieldBytes(g), b, t);
    FieldUnique(f, g, a + s, b + t);
  }

  /** Records of one shape: an encoding, even with more bytes behind it, comes from one record only. */
  lemma {:induction false} RecordUnique(f: seq<Field>, g: seq<Field>, s: Bytes, t: Bytes)
    requires SameShape(f, g) && RecordFits(f) && RecordFits(g) && RecordBytes(f) + s == RecordBytes(g) + t
    ensures f == g && s == t
  {
    if f == [] {
      assert RecordBytes(f) + s == s && RecordBytes(g) + t == t;
    } else {
      FieldThenUnique(f[0], g[0], RecordBytes(f[1..]), RecordBytes(g[1..]), s, t);
      RecordUnique(f[1..], g[1..], s, t);
      assert f == [f[0]] + f[1..] && g == [g[0]] + g[1..];
    }
  }

  lemma {:induction false} RecordSnoc(fields: seq<Field>, f: Field)
    ensures RecordBytes(fields + [f]) == RecordBytes(fields) + FieldBytes(f)
  {
    if fields == [] {
      assert RecordBytes([f]) == FieldBytes(f) + RecordBytes([]);
    } else {
      assert (fields + [f])[1..] == fields[1..] + [f];
      RecordSnoc(fields[1..], f);
    }
  }
}
