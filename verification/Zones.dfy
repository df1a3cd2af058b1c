/** Comparison of zone lists. Both packages compare two lists as sets with the same nested
    scan: equal lengths, and every element of the first found in the second. */
module Zones {

  ghost predicate NoDup(a: seq<string>) {
    forall i, j | 0 <= i < j < |a| :: a[i] != a[j]
  }

  function ToSet(a: seq<string>): set<string> {
    set z | z in a
  }

  predicate SameZones(a: seq<string>, b: seq<string>) {
    |a| == |b| && forall i | 0 <= i < |a| :: a[i] in b
  }

  method ZonesEqual(a: seq<string>, b: seq<string>) returns (equal: bool)
    ensures equal <==> SameZones(a, b)
  {
    if |a| != |b| {
      return false;
    }
    label outer:
    for i := 0 to |a|
      invariant forall k | 0 <= k < i :: a[k] in b
    {
      for j := 0 to |b|
        invariant a[i] !in b[..j]
      {
        if a[i] == b[j] {
          continue outer;
        }
      }
      assert b[..|b|] == b;
      return false;
    }
    return true;
  }

  lemma {:induction false} SubsetCard<T>(a: set<T>, b: set<T>)
    requires a <= b
    ensures |a| <= |b|
    ensures |a| == |b| ==> a == b
    decreases a
  {
    if a != {} {
      var x :| x in a;
      SubsetCard(a - {x}, b - {x});
    }
  }

  lemma {:induction false} CardOfList(a: seq<string>)
    ensures |ToSet(a)| <= |a|
    ensures |ToSet(a)| == |a| <==> NoDup(a)
  {
    if a != [] {
      var k := |a| - 1;
      var rest := a[..k];
      CardOfList(rest);
      assert a == rest + [a[k]];
      assert ToSet(a) == ToSet(rest) + {a[k]};
      if a[k] in rest {
        assert ToSet(a) == ToSet(rest);
      }
    }
  }

  /** The pigeonhole step: equal lengths and one-way containment give set equality as soon
      as the first list has no duplicates, and then the second has none either. */
  lemma SameZonesSound(a: seq<string>, b: seq<string>)
    requires NoDup(a) && SameZones(a, b)
    ensures ToSet(a) == ToSet(b) && NoDup(b)
  {
    CardOfList(a);
    CardOfList(b);
    assert ToSet(a) <= ToSet(b);
    SubsetCard(ToSet(a), ToSet(b));
  }

  lemma SameZonesDecides(a: seq<string>, b: seq<string>)
    requires NoDup(a) && NoDup(b)
    ensures SameZones(a, b) <==> ToSet(a) == ToSet(b)
  {
    if SameZones(a, b) {
      SameZonesSound(a, b);
    } else if ToSet(a) == ToSet(b) {
      CardOfList(a);
      CardOfList(b);
      forall i | 0 <= i < |a| ensures a[i] in b {
        assert a[i] in ToSet(a);
      }
    }
  }

  lemma SameZonesEquivalence(a: seq<string>, b: seq<string>, c: seq<string>)
    requires NoDup(a) && NoDup(b) && NoDup(c)
    ensures SameZones(a, a)
    ensures SameZones(a, b) ==> SameZones(b, a)
    ensures SameZones(a, b) && SameZones(b, c) ==> SameZones(a, c)
  {
    SameZonesDecides(a, b);
    SameZonesDecides(b, a);
    SameZonesDecides(b, c);
    SameZonesDecides(a, c);
  }

  function Longest(a: seq<string>): nat {
    if a == [] then 0
    else
      var rest := Longest(a[1..]);
      if |a[0]| > rest then |a[0]| else rest
  }

  lemma {:induction false} LongestBounds(a: seq<string>, z: string)
    requires z in a
    ensures |z| <= Longest(a)
  {
    if z != a[0] {
      assert z in a[1..];
      LongestBounds(a[1..], z);
    }
  }

  /** Two lists that the scan calls equal although they are different sets. */
  lemma DuplicateWitness(a: seq<string>) returns (b: seq<string>)
    requires !NoDup(a)
    ensures SameZones(a, b) && ToSet(a) != ToSet(b)
  {
    var i, j :| 0 <= i < j < |a| && a[i] == a[j];
    var fresh' := seq(Longest(a) + 1, _ => 'x');
    b := a[j := fresh'];
    forall k | 0 <= k < |a| ensures a[k] in b {
      assert a[k] == b[if k == j then i else k];
    }
    if fresh' in a {
      LongestBounds(a, fresh');
    }
    assert b[j] in ToSet(b);
  }

  /** The scan never calls different sets equal, whatever its second argument, exactly when
      its first argument has no duplicates. */
  lemma ScanSoundExactly(a: seq<string>)
    ensures NoDup(a) <==> forall b :: SameZones(a, b) ==> ToSet(a) == ToSet(b)
  {
    if NoDup(a) {
      forall b | SameZones(a, b) ensures ToSet(a) == ToSet(b) {
        SameZonesSound(a, b);
      }
    } else {
      var b := DuplicateWitness(a);
      assert !(SameZones(a, b) ==> ToSet(a) == ToSet(b));
    }
  }

  function Dedup(a: seq<string>): seq<string> {
    if a == [] then [] else
      var rest := Dedup(a[..|a| - 1]);
      if a[|a| - 1] in rest then rest else rest + [a[|a| - 1]]
  }

  lemma {:induction false} DedupSameSet(a: seq<string>)
    ensures NoDup(Dedup(a)) && ToSet(Dedup(a)) == ToSet(a)
  {
    if a != [] {
      var k := |a| - 1;
      var rest := Dedup(a[..k]);
      DedupSameSet(a[..k]);
      assert a == a[..k] + [a[k]];
      assert ToSet(a) == ToSet(rest) + {a[k]};
      assert a[k] in rest <==> a[k] in ToSet(rest);
      assert ToSet(rest + [a[k]]) == ToSet(rest) + {a[k]};
    }
  }

  /** The scan decides set equality against every duplicate-free list exactly when its first
      argument has no duplicates; against every list whatever, only when that is empty. */
  lemma ScanDecidesExactly(a: seq<string>)
    ensures NoDup(a) <==> forall b | NoDup(b) :: SameZones(a, b) <==> ToSet(a) == ToSet(b)
    ensures a == [] <==> forall b :: SameZones(a, b) <==> ToSet(a) == ToSet(b)
  {
    forall b | NoDup(a) && NoDup(b) ensures SameZones(a, b) <==> ToSet(a) == ToSet(b) {
      SameZonesDecides(a, b);
    }
    var b := Dedup(a);
    DedupSameSet(a);
    CardOfList(a);
    CardOfList(b);
    assert !NoDup(a) ==> !SameZones(a, b);
    if a == [] {
      forall b ensures SameZones(a, b) <==> ToSet(a) == ToSet(b) {
        assert b != [] ==> b[0] in ToSet(b);
      }
    } else {
      assert ToSet(a + [a[0]]) == ToSet(a) && !SameZones(a, a + [a[0]]);
    }
  }
}
