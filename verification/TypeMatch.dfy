/** Types, attributes and the bitmaps of attributes, and when the types of two data overlap. */
module TypeMatch {

  /** A type, or an attribute that stands for the types in its bitmap. Data with the same name are the same. */
  datatype Datum = Type(value: nat) | Attribute(name: nat)

  /** A node of a sparse bitmap: the set bits of the 64 that begin at `start`. */
  datatype Node = Node(start: nat, bits: set<nat>)

  type Bitmap = seq<Node>

  ghost predicate ValidBitmap(b: Bitmap) {
    && (forall k, i :: 0 <= k < |b| && i in b[k].bits ==> i < 64)
    && (forall k :: 0 <= k < |b| ==> b[k].start % 64 == 0)
    && (forall j, k :: 0 <= j < k < |b| ==> b[j].start < b[k].start)
  }

  predicate HasBit(n: Node, x: nat) {
    x >= n.start && x - n.start in n.bits
  }

  predicate Has(b: Bitmap, x: nat) {
    exists k :: 0 <= k < |b| && HasBit(b[k], x)
  }

  /** The bitmaps of the attributes, as the policy database has them. */
  ghost predicate ValidBitmaps(bitmaps: map<nat, Bitmap>) {
    forall a :: a in bitmaps ==> ValidBitmap(bitmaps[a])
  }

  predicate Known(d: Datum, bitmaps: map<nat, Bitmap>) {
    d.Attribute? ==> d.name in bitmaps
  }

  /** Type `x` is the datum or belongs to it. */
  predicate Covers(d: Datum, x: nat, bitmaps: map<nat, Bitmap>)
    requires Known(d, bitmaps)
  {
    match d
    case Type(v) => x == v
    case Attribute(a) => Has(bitmaps[a], x)
  }

  ghost predicate Overlap(d1: Datum, d2: Datum, bitmaps: map<nat, Bitmap>)
    requires Known(d1, bitmaps) && Known(d2, bitmaps)
  {
    exists x: nat :: Covers(d1, x, bitmaps) && Covers(d2, x, bitmaps)
  }

  /** Looks a bit up. */
  method GetBit(b: Bitmap, x: nat) returns (r: bool)
    ensures r == Has(b, x)
  {
    var k := 0;
    while k < |b|
      invariant 0 <= k <= |b|
      invariant forall j :: 0 <= j < k ==> !HasBit(b[j], x)
    {
      if HasBit(b[k], x) {
        return true;
      }
      k := k + 1;
    }
    return false;
  }

  lemma StartsApart(m: Node, n: Node, x: nat)
    requires m.start % 64 == 0 && n.start % 64 == 0 && m.start < n.start
    requires forall i :: i in m.bits ==> i < 64
    ensures !(HasBit(m, x) && HasBit(n, x))
  {
    assert m.start + 64 <= n.start;
  }

  /** Walks over two bitmaps side by side. True exactly when they have a bit in common. */
  method MergeWalk(b1: Bitmap, b2: Bitmap) returns (r: bool)
    requires ValidBitmap(b1) && ValidBitmap(b2)
    ensures r <==> exists x: nat :: Has(b1, x) && Has(b2, x)
  {
    var i, j := 0, 0;
    while i < |b1| && j < |b2|
      invariant 0 <= i <= |b1| && 0 <= j <= |b2|
      invariant forall k, l, x: nat :: 0 <= k < |b1| && 0 <= l < |b2| && (k < i || l < j) ==>
          !(HasBit(b1[k], x) && HasBit(b2[l], x))
      decreases |b1| - i + |b2| - j
    {
      if b1[i].start < b2[j].start {
        forall l, x: nat | j <= l < |b2|
          ensures !(HasBit(b1[i], x) && HasBit(b2[l], x))
        {
          StartsApart(b1[i], b2[l], x);
        }
        i := i + 1;
      } else if b2[j].start < b1[i].start {
        forall k, x: nat | i <= k < |b1|
          ensures !(HasBit(b1[k], x) && HasBit(b2[j], x))
        {
          StartsApart(b2[j], b1[k], x);
        }
        j := j + 1;
      } else {
        if b1[i].bits * b2[j].bits != {} {
          ghost var o :| o in b1[i].bits * b2[j].bits;
          assert HasBit(b1[i], b1[i].start + o) && HasBit(b2[j], b1[i].start + o);
          assert Has(b1, b1[i].start + o) && Has(b2, b1[i].start + o);
          return true;
        }
        SameStart(b1, b2, i, j);
        i, j := i + 1, j + 1;
      }
    }
    return false;
  }

  /** Nodes with the same start and no common bit: neither has a bit in common with the other bitmap from
      here on. */
  lemma SameStart(b1: Bitmap, b2: Bitmap, i: nat, j: nat)
    requires ValidBitmap(b1) && ValidBitmap(b2) && i < |b1| && j < |b2|
    requires b1[i].start == b2[j].start && b1[i].bits * b2[j].bits == {}
    ensures forall l, x: nat :: j <= l < |b2| ==> !(HasBit(b1[i], x) && HasBit(b2[l], x))
    ensures forall k, x: nat :: i <= k < |b1| ==> !(HasBit(b1[k], x) && HasBit(b2[j], x))
  {
    forall l, x: nat | j <= l < |b2|
      ensures !(HasBit(b1[i], x) && HasBit(b2[l], x))
    {
      if l == j {
        assert x - b1[i].start !in b1[i].bits * b2[j].bits;
      } else {
        StartsApart(b1[i], b2[l], x);
      }
    }
    forall k, x: nat | i <= k < |b1|
      ensures !(HasBit(b1[k], x) && HasBit(b2[j], x))
    {
      if k == i {
        assert x - b1[i].start !in b1[i].bits * b2[j].bits;
      } else {
        StartsApart(b2[j], b1[k], x);
      }
    }
  }

  /** Whether two data match: they are the same, or their types overlap. */
  method IsTypeMatch(t1: Datum, t2: Datum, bitmaps: map<nat, Bitmap>) returns (r: bool)
    requires ValidBitmaps(bitmaps) && Known(t1, bitmaps) && Known(t2, bitmaps)
    ensures r <==> t1 == t2 || Overlap(t1, t2, bitmaps)
  {
    if t1 == t2 {
      return true;
    }
    match (t1, t2)
    case (Attribute(a), Type(v)) =>
      r := GetBit(bitmaps[a], v);
      assert Covers(t2, v, bitmaps);
    case (Type(v), Attribute(a)) =>
      r := GetBit(bitmaps[a], v);
      assert Covers(t1, v, bitmaps);
    case (Attribute(a1), Attribute(a2)) =>
      r := MergeWalk(bitmaps[a2], bitmaps[a1]);
      assert forall x: nat ::
          (Has(bitmaps[a1], x) <==> Covers(t1, x, bitmaps)) && (Has(bitmaps[a2], x) <==> Covers(t2, x, bitmaps));
    case (Type(_), Type(_)) =>
      return false;
  }
}
