/** FNV hashing of keys to bands, and the ordered reads of a sorted set. */
module Bands {
  import opened Redis

  const FNV_OFFSET: bv32 := 2166136261
  const FNV_PRIME: bv32 := 16777619

  function FnvStep(h: bv32, b: bv8): bv32 {
    (h ^ (b as bv32)) * FNV_PRIME
  }

  /** FNV-1a over the bytes of a key, in 32-bit arithmetic. */
  function Fnv32a(key: Key): bv32 {
    if key == [] then FNV_OFFSET
    else FnvStep(Fnv32a(key[..|key| - 1]), key[|key| - 1])
  }

  /** The published test vectors of 32-bit FNV-1a: the empty string, "a" and "fo". */
  lemma FnvVectors()
    ensures Fnv32a([]) == 0x811c9dc5
    ensures Fnv32a([0x61]) == 0xe40c292c
    ensures Fnv32a([0x66, 0x6f]) == 0x6222e842
    ensures BandForKey([0x61], 16) == 12
  {
    assert [0x61 as bv8][..0] == [];
    assert [0x66 as bv8, 0x6f][..1] == [0x66];
    assert [0x66 as bv8][..0] == [];
    assert Fnv32a([0x66]) == FnvStep(0x811c9dc5, 0x66);
  }

  /** Every key belongs to exactly one band. */
  function BandForKey(key: Key, bandCount: nat): (band: nat)
    requires bandCount > 0
    ensures band < bandCount
  {
    (Fnv32a(key) as nat) % bandCount
  }

  /** The part of a namespace-wide sorted set that lives in one band. */
  function OfBand(z: map<Key, int>, band: nat, bandCount: nat): (r: map<Key, int>)
    requires bandCount > 0
    ensures forall k :: k in r <==> k in z && BandForKey(k, bandCount) == band
    ensures forall k :: k in r ==> r[k] == z[k]
  {
    map k | k in z && BandForKey(k, bandCount) == band :: z[k]
  }

  /** Redis compares members of one score byte by byte. */
  predicate Less(a: Key, b: Key) {
    b != [] && (a == [] || a[0] < b[0] || (a[0] == b[0] && Less(a[1..], b[1..])))
  }

  /** Less is the order of strings: a proper prefix comes first, and otherwise the first different byte decides. */
  lemma {:induction false} LessIsBytewise(common: Bytes, a: Bytes, b: Bytes)
    ensures b != [] ==> Less(common, common + b) && !Less(common + b, common)
    ensures a != [] && b != [] && a[0] != b[0] ==> (Less(common + a, common + b) <==> a[0] < b[0])
  {
    if common == [] {
      assert common + a == a && common + b == b;
    } else {
      LessIsBytewise(common[1..], a, b);
      assert (common + a)[1..] == common[1..] + a && (common + b)[1..] == common[1..] + b;
    }
  }

  lemma {:induction false} LessIsTotal(a: Key, b: Key)
    ensures !Less(a, a)
    ensures a != b ==> (Less(a, b) <==> !Less(b, a))
  {
    if a != [] {
      LessIsTotal(a[1..], a[1..]);
    }
    if a != [] && b != [] {
      LessIsTotal(a[1..], b[1..]);
      assert a == [a[0]] + a[1..] && b == [b[0]] + b[1..];
    }
  }

  lemma {:induction false} LessIsTransitive(a: Key, b: Key, c: Key)
    requires Less(a, b) && Less(b, c)
    ensures Less(a, c)
  {
    if a != [] && a[0] == b[0] && b[0] == c[0] {
      LessIsTransitive(a[1..], b[1..], c[1..]);
    }
  }

  /** The order of a sorted set: by score, then by member. */
  predicate Before(z: map<Key, int>, a: Key, b: Key) {
    a in z && b in z && (z[a] < z[b] || (z[a] == z[b] && Less(a, b)))
  }

  /** members lists z from its lowest members up, leaving out only later ones. */
  predicate LowestFirst(z: map<Key, int>, members: seq<Key>) {
    && (forall i :: 0 <= i < |members| ==> members[i] in z)
    && (forall i, j :: 0 <= i < j < |members| ==> members[i] != members[j] && Before(z, members[i], members[j]))
    && (forall i, k :: 0 <= i < |members| && k in z && k !in members ==> Before(z, members[i], k))
  }

  lemma NextIsLowest(z: map<Key, int>, a: seq<Key>, n: nat, x: Key)
    requires LowestFirst(z, a) && n < |a| && x in z && x !in a[..n] && x != a[n]
    ensures Before(z, a[n], x)
  {
    if x in a {
      assert a == a[..n] + a[n..];
      var j :| 0 <= j < |a[n..]| && a[n..][j] == x;
      assert a[n + j] == x;
    }
  }

  /** The order is total, so a sorted set has one listing: a shorter one is the beginning of a longer one. */
  lemma {:induction false} ListingIsUnique(z: map<Key, int>, a: seq<Key>, b: seq<Key>)
    requires LowestFirst(z, a) && LowestFirst(z, b) && |a| <= |b|
    ensures a == b[..|a|]
  {
    if a != [] {
      var n := |a| - 1;
      assert a == a[..n] + [a[n]];
      ListingIsUnique(z, a[..n], b);
      if a[n] != b[n] {
        LessIsTotal(a[n], b[n]);
        NextIsLowest(z, a, n, b[n]);
        NextIsLowest(z, b, n, a[n]);
        assert false;
      }
      assert b[..|a|] == b[..n] + [b[n]];
    }
  }

  method Lowest(z: map<Key, int>) returns (k: Key)
    requires z != map[]
    ensures k in z && forall q :: q in z ==> q == k || Before(z, k, q)
  {
    var keys := z.Keys;
    k :| k in keys;
    keys := keys - {k};
    while keys != {}
      invariant keys <= z.Keys && k in z
      invariant forall q :: q in z && q !in keys ==> q == k || Before(z, k, q)
      decreases keys
    {
      var q :| q in keys;
      LessIsTotal(q, k);
      if Before(z, q, k) {
        forall p | p in z && p !in keys && p != k
          ensures Before(z, q, p)
        {
          BeforeIsTransitive(z, q, k, p);
        }
        k := q;
      }
      keys := keys - {q};
    }
  }

  lemma BeforeIsTransitive(z: map<Key, int>, a: Key, b: Key, c: Key)
    requires Before(z, a, b) && Before(z, b, c)
    ensures Before(z, a, c)
  {
    if z[a] == z[c] {
      LessIsTransitive(a, b, c);
    }
  }

  /** ZRANGEBYSCORE -inf +inf LIMIT 0 count. */
  method RangeByScore(z: map<Key, int>, count: nat) returns (members: seq<Key>)
    ensures LowestFirst(z, members)
    ensures forall i, j :: 0 <= i < j < |members| ==> z[members[i]] <= z[members[j]]
    ensures forall i, k :: 0 <= i < |members| && k in z && k !in members ==> z[members[i]] <= z[k]
    ensures |members| <= count
    ensures |members| < count ==> forall k :: k in z ==> k in members
  {
    members := [];
    var left := z;
    while left != map[] && |members| < count
      invariant |members| <= count
      invariant left.Keys <= z.Keys && forall k :: k in left ==> left[k] == z[k]
      invariant forall k :: k in z ==> (k in left <==> k !in members)
      invariant LowestFirst(z, members)
      decreases count - |members|
    {
      var k := Lowest(left);
      assert forall q :: q in left && q != k ==> Before(left, k, q);
      members := members + [k];
      left := left - {k};
    }
  }
}
