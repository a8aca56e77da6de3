/** The encoder and decoder objects. */
module Serialize {
  import opened Basics
  import opened Blocks
  import opened ByteOrder
  import opened Encoder

  // ----- Sorting the keys -----

  /** From position `p` on, everything is at least what comes before it. */
  ghost predicate SortedFrom(s: seq<Bytes>, p: int) {
    forall i, j :: 0 <= i < j < |s| && p <= j ==> AtMost(s[i], s[j])
  }

  ghost predicate Swapped(s: seq<Bytes>, t: seq<Bytes>, j: nat) {
    j + 1 < |s| && t == s[j := s[j + 1]][j + 1 := s[j]]
  }

  lemma SwapKeeps(s: seq<Bytes>, t: seq<Bytes>, j: nat, p: int)
    requires Swapped(s, t, j) && SortedFrom(s, p) && j + 1 < p
    ensures multiset(t) == multiset(s) && SortedFrom(t, p)
  {
    assert s == s[..j] + [s[j]] + [s[j + 1]] + s[j + 2..];
    assert t == s[..j] + [s[j + 1]] + [s[j]] + s[j + 2..];
  }

  /** Position `j` holds the greatest of the keys so far. */
  ghost predicate Greatest(s: seq<Bytes>, j: nat) {
    j < |s| && forall i :: 0 <= i < j ==> AtMost(s[i], s[j])
  }

  lemma GreatestStays(s: seq<Bytes>, j: nat)
    requires Greatest(s, j) && j + 1 < |s| && AtMost(s[j], s[j + 1])
    ensures Greatest(s, j + 1)
  {
    forall i | 0 <= i < j + 1
      ensures AtMost(s[i], s[j + 1])
    {
      if i < j {
        AtMostTransitive(s[i], s[j], s[j + 1]);
      }
    }
  }

  lemma GreatestMoves(s: seq<Bytes>, t: seq<Bytes>, j: nat)
    requires Greatest(s, j) && Swapped(s, t, j) && !AtMost(s[j], s[j + 1])
    ensures Greatest(t, j + 1)
  {
    CompareBytesAntisymmetric(s[j], s[j + 1]);
  }

  lemma GreatestIsLast(s: seq<Bytes>, last: nat)
    requires Greatest(s, last) && SortedFrom(s, last + 1)
    ensures SortedFrom(s, last)
  {
  }

  /** One round: carries the greatest of the first `last` + 1 keys to position `last`. */
  method Bubble(key: array<Bytes>, last: nat)
    requires last < key.Length && SortedFrom(key[..], last + 1)
    modifies key
    ensures SortedFrom(key[..], last) && multiset(key[..]) == multiset(old(key[..]))
  {
    for j := 0 to last
      invariant SortedFrom(key[..], last + 1) && multiset(key[..]) == multiset(old(key[..]))
      invariant Greatest(key[..], j)
    {
      ghost var before := key[..];
      if CompareBytes(key[j], key[j + 1]) > 0 {
        key[j], key[j + 1] := key[j + 1], key[j];
        SwapKeeps(before, key[..], j, last + 1);
        GreatestMoves(before, key[..], j);
      } else {
        GreatestStays(before, j);
      }
    }
    GreatestIsLast(key[..], last);
  }

  method BubbleSort(key: array<Bytes>)
    modifies key
    ensures Ascending(key[..]) && multiset(key[..]) == multiset(old(key[..]))
  {
    var i := 1;
    while i < key.Length
      invariant 1 <= i && (i <= key.Length || key.Length == 0)
      invariant SortedFrom(key[..], key.Length - i + 1) && multiset(key[..]) == multiset(old(key[..]))
      decreases key.Length - i
    {
      Bubble(key, key.Length - i);
      i := i + 1;
    }
  }

  /** Rearranging keeps what is in a sequence, and that it is there once. */
  lemma RearrangedLists(s: seq<Bytes>, t: seq<Bytes>, keys: set<Bytes>)
    requires multiset(s) == multiset(t) && NoDuplicates(s) && Elements(s) == keys && Ascending(t)
    ensures Lists(t, keys)
  {
    forall k
      ensures k in t <==> k in keys
    {
      assert k in t <==> k in multiset(t);
      assert k in s <==> k in multiset(s);
      assert k in s <==> k in Elements(s);
    }
    assert Elements(t) == keys;
    NoDuplicatesCount(s);
    assert |t| == |multiset(t)| == |s|;
    CountedOnce(t);
  }

  /** A sequence with as many elements as positions repeats nothing. */
  lemma {:induction false} CountedOnce(t: seq<Bytes>)
    requires |Elements(t)| == |t|
    ensures NoDuplicates(t)
  {
    if t != [] {
      var last := |t| - 1;
      var front := Elements(t[..last]);
      assert Elements(t) == front + {t[last]};
      ElementsBound(t[..last]);
      CountedOnce(t[..last]);
      assert t[last] !in front;
    }
  }

  // ----- The encoder -----

  class SimpleEncoder {
    var buf: Bytes

    constructor ()
      ensures buf == []
    {
      buf := [];
    }

    method WriteByte(b: byte)
      modifies this
      ensures buf == old(buf) + [b]
    {
      buf := buf + [b];
    }

    method WriteInt32(n: int)
      modifies this
      ensures buf == old(buf) + Int32Bytes(n)
    {
      buf := buf + BigEndian(n % TWO_32, 4);
    }

    method WriteInt64(n: int)
      modifies this
      ensures buf == old(buf) + Int64Bytes(n)
    {
      buf := buf + BigEndian(n % TWO_64, 8);
    }

    method WriteBytes(b: Bytes)
      modifies this
      ensures buf == old(buf) + StringBytes(b)
    {
      WriteInt32(|b|);
      buf := buf + b;
    }

    /** For slices of byte strings and of strings alike. */
    method WriteSlice(p: seq<Bytes>)
      modifies this
      ensures buf == old(buf) + SliceBytes(p)
    {
      WriteInt32(|p|);
      ghost var start := buf;
      for i := 0 to |p|
        invariant buf + ManyBytes(p[i..]) == start + ManyBytes(p)
      {
        assert p[i..][1..] == p[i + 1..];
        assert buf + (StringBytes(p[i]) + ManyBytes(p[i + 1..])) == buf + StringBytes(p[i]) + ManyBytes(p[i + 1..]);
        WriteBytes(p[i]);
      }
      assert buf + ManyBytes([]) == buf;
      assert old(buf) + (Int32Bytes(|p|) + ManyBytes(p)) == old(buf) + Int32Bytes(|p|) + ManyBytes(p);
    }

    method KeysOf(m: map<Bytes, int>) returns (key: array<Bytes>)
      ensures fresh(key) && NoDuplicates(key[..]) && Elements(key[..]) == m.Keys
    {
      var todo, keys := m.Keys, [];
      while todo != {}
        invariant NoDuplicates(keys) && Elements(keys) + todo == m.Keys && Elements(keys) !! todo
        decreases todo
      {
        var k :| k in todo;
        assert k !in Elements(keys);
        assert Elements(keys + [k]) == Elements(keys) + {k};
        keys := keys + [k];
        todo := todo - {k};
      }
      key := new Bytes[|keys|](i requires 0 <= i < |keys| => keys[i]);
      assert key[..] == keys;
    }

    /** Whatever order the keys come in, the pairs are written in ascending order of the keys. */
    method WriteMap(m: map<Bytes, int>)
      modifies this
      ensures buf == old(buf) + MapBytes(m)
    {
      var keys := SortedKeys(m);
      WriteListed(m, keys);
      MapBytesIs(m, keys);
    }

    method WriteListed(m: map<Bytes, int>, keys: seq<Bytes>)
      requires Lists(keys, m.Keys)
      modifies this
      ensures buf == old(buf) + MapOf(m, keys)
    {
      Listed(m, keys);
      WriteInt32(|m|);
      WritePairs(m, keys);
      Associative(old(buf), Int32Bytes(|m|), PairsBytes(m, keys));
    }

    method SortedKeys(m: map<Bytes, int>) returns (keys: seq<Bytes>)
      ensures Lists(keys, m.Keys)
    {
      var key := KeysOf(m);
      ghost var s := key[..];
      BubbleSort(key);
      keys := key[..];
      RearrangedLists(s, keys, m.Keys);
    }

    method WritePairs(m: map<Bytes, int>, keys: seq<Bytes>)
      requires forall i :: 0 <= i < |keys| ==> keys[i] in m
      modifies this
      ensures buf == old(buf) + PairsBytes(m, keys)
    {
      ghost var start := buf;
      for i := 0 to |keys|
        invariant buf + PairsBytes(m, keys[i..]) == start + PairsBytes(m, keys)
      {
        assert keys[i..][1..] == keys[i + 1..];
        ghost var rest := PairsBytes(m, keys[i + 1..]);
        assert buf + (StringBytes(keys[i]) + Int64Bytes(m[keys[i]]) + rest) ==
               buf + StringBytes(keys[i]) + Int64Bytes(m[keys[i]]) + rest;
        WriteBytes(keys[i]);
        WriteInt64(m[keys[i]]);
      }
    }
  }

  // ----- The decoder -----

  /** A number of 32 bits with sign. */
  function ToInt32(n: nat): int
    requires n < TWO_32
  {
    if n < TWO_31 then n else n - TWO_32
  }

  lemma {:induction false} FromBigEndianBound(s: Bytes)
    ensures FromBigEndian(s) < Pow256(|s|)
  {
    if s != [] {
      FromBigEndianBound(s[..|s| - 1]);
    }
  }

  /** What reading a byte string comes to. */
  datatype Parsed = Got(value: Bytes) | Failed | BrokenOff

  predicate Encodes(input: Bytes, b: Bytes, rest: Bytes) {
    Short(b) && input == StringBytes(b) + rest
  }

  class SimpleDecoder {
    var input: Bytes

    constructor (input: Bytes)
      ensures this.input == input
    {
      this.input := input;
    }

    method ParseByte() returns (r: Option<byte>)
      modifies this
      ensures r.None? <==> old(input) == []
      ensures r.Some? ==> old(input) == [r.value] + input
      ensures r.None? ==> input == old(input)
    {
      if |input| < 1 {
        return None;
      }
      r := Some(input[0]);
      input := input[1..];
    }

    /** An encoded number comes back and the rest of the input is left. */
    method ParseInt32() returns (r: Option<int>)
      modifies this
      ensures r.None? <==> |old(input)| < 4
      ensures r.None? ==> input == old(input)
      ensures r.Some? ==> -TWO_31 <= r.value < TWO_31 && old(input) == Int32Bytes(r.value) + input
      ensures r.Some? ==> r.value == ToInt32Of(old(input)[..4])
    {
      if |input| < 4 {
        return None;
      }
      var four := input[..4];
      FromBigEndianBound(four);
      Pow256Of4();
      r := Some(ToInt32(FromBigEndian(four)));
      BackToBytes(four);
      input := input[4..];
    }

    /** An encoded byte string comes back and the rest of the input is left; a length that is missing or too large is
        an error, and on a negative one the program breaks off. */
    method ParseBytes() returns (r: Parsed)
      modifies this
      ensures r.Got? <==> exists b, rest :: Encodes(old(input), b, rest)
      ensures r.Got? ==> Encodes(old(input), r.value, input)
      ensures forall b, rest :: Encodes(old(input), b, rest) ==> r == Got(b) && input == rest
      ensures r.BrokenOff? <==> |old(input)| >= 4 && ToInt32Of(old(input)[..4]) < 0
    {
      ghost var all := input;
      var length := ParseInt32();
      if length.None? {
        NothingThere(all, input, length);
        return Failed;
      }
      if |input| < length.value {
        NothingThere(all, input, length);
        return Failed;
      }
      if length.value < 0 {
        NothingThere(all, input, length);
        return BrokenOff;
      }
      var result := input[..length.value];
      assert input == result + input[length.value..];
      input := input[length.value..];
      assert Encodes(all, result, input);
      forall b, rest | Encodes(all, b, rest)
        ensures b == result && rest == input
      {
        StringUnique(b, result, rest, input);
      }
      r := Got(result);
    }
  }

  lemma {:induction false} BackToBytes(s: Bytes)
    requires |s| == 4
    ensures Int32Bytes(ToInt32Of(s)) == s
  {
    FromBigEndianBound(s);
    Pow256Of4();
    BigEndianOf(s);
  }

  function ToInt32Of(s: Bytes): int
    requires |s| == 4
  {
    FromBigEndianBound(s);
    Pow256Of4();
    ToInt32(FromBigEndian(s))
  }

  lemma {:induction false} BigEndianOf(s: Bytes)
    ensures BigEndian(FromBigEndian(s), |s|) == s
  {
    if s != [] {
      BigEndianOf(s[..|s| - 1]);
    }
  }

  /** No byte string starts where the length cannot be read or does not fit. */
  lemma NothingThere(all: Bytes, left: Bytes, length: Option<int>)
    requires length.None? ==> |all| < 4
    requires length.Some? ==> -TWO_31 <= length.value < TWO_31 && all == Int32Bytes(length.value) + left
    requires length.None? || length.value < 0 || |left| < length.value
    ensures forall b, rest :: !Encodes(all, b, rest)
  {
    forall b, rest
      ensures !Encodes(all, b, rest)
    {
      if Encodes(all, b, rest) && length.Some? {
        LengthIs(length.value, left, b, rest);
      }
    }
  }

  /** The length read is that of the byte string encoded. */
  lemma LengthIs(n: int, left: Bytes, b: Bytes, rest: Bytes)
    requires -TWO_31 <= n < TWO_31 && Encodes(Int32Bytes(n) + left, b, rest)
    ensures n == |b| && left == b + rest
  {
    Associative(Int32Bytes(|b|), b, rest);
    Int32Unique(n, |b|, left, b + rest);
    SameModulo32(n, |b|);
  }
}
