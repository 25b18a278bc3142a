/** Address prefixes and the normalisation of prefix lists before they are
    handed to nft (internal/localtun/policy.go, normalizeIngressPrefixes). */
module Prefixes {
  import opened Sequences

  datatype Family = V4 | V6

  function Width(f: Family): nat {
    match f
    case V4 => 32
    case V6 => 128
  }

  /** An address is its family and its bits, most significant first. */
  datatype RawAddr = Addr(family: Family, bits: seq<bool>)

  type Addr = a: RawAddr | |a.bits| == Width(a.family)
    witness Addr(V4, seq(32, _ => false))

  datatype RawPrefix = Prefix(addr: Addr, bits: nat)

  /** The parsers only build prefixes whose length fits their family. */
  type Prefix = p: RawPrefix | p.bits <= Width(p.addr.family)
    witness Prefix(Addr(V4, seq(32, _ => false)), 0)

  /** netip.Prefix.Contains: same family and the same leading bits. */
  predicate Contains(p: Prefix, a: Addr) {
    p.addr.family == a.family && p.addr.bits[..p.bits] == a.bits[..p.bits]
  }

  function Zeros(n: nat): (r: seq<bool>)
    ensures |r| == n && forall i :: 0 <= i < n ==> !r[i]
  {
    seq(n, _ => false)
  }

  /** netip.Prefix.Masked: the host bits are cleared. */
  function Masked(p: Prefix): (r: Prefix)
    ensures IsMasked(r) && r.bits == p.bits && r.addr.family == p.addr.family
    ensures forall a :: Contains(r, a) <==> Contains(p, a)
  {
    var kept := p.addr.bits[..p.bits];
    var a: Addr := Addr(p.addr.family, kept + Zeros(Width(p.addr.family) - p.bits));
    assert a.bits[..p.bits] == kept;
    Prefix(a, p.bits)
  }

  predicate IsMasked(p: Prefix) {
    forall i :: p.bits <= i < |p.addr.bits| ==> !p.addr.bits[i]
  }

  /** The test of the filter loop: a shorter or equal prefix of the same family
      that contains the candidate's address. */
  predicate Covers(prior: Prefix, candidate: Prefix) {
    && prior.addr.family == candidate.addr.family
    && prior.bits <= candidate.bits
    && Contains(prior, candidate.addr)
  }

  /** netip.Addr.Compare below zero, for addresses of one family: the first
      differing bit decides. */
  predicate BitsLess(a: seq<bool>, b: seq<bool>)
    requires |a| == |b|
  {
    exists k :: 0 <= k < |a| && DecidedAt(a, b, k)
  }

  predicate DecidedAt(a: seq<bool>, b: seq<bool>, k: nat)
    requires |a| == |b| && k < |a|
  {
    a[..k] == b[..k] && !a[k] && b[k]
  }

  /** The order handed to sort.Slice: family width, address, then length. */
  predicate Before(l: Prefix, r: Prefix) {
    if l.addr.family != r.addr.family then Width(l.addr.family) < Width(r.addr.family)
    else if l.addr.bits != r.addr.bits then BitsLess(l.addr.bits, r.addr.bits)
    else l.bits < r.bits
  }

  predicate Sorted(s: seq<Prefix>) {
    forall i, j :: 0 <= i < j < |s| ==> !Before(s[j], s[i])
  }

  predicate StrictlySorted(s: seq<Prefix>) {
    forall i, j :: 0 <= i < j < |s| ==> Before(s[i], s[j])
  }

  ghost predicate Disjoint(p: Prefix, q: Prefix) {
    forall a :: !(Contains(p, a) && Contains(q, a))
  }

  /** The addresses a prefix list stands for. */
  predicate Covered(s: seq<Prefix>, a: Addr) {
    exists i :: 0 <= i < |s| && Contains(s[i], a)
  }

  /** p is a masked input that no other masked input covers. */
  ghost predicate Maximal(values: seq<Prefix>, p: Prefix) {
    && p in MaskedAll(values)
    && forall q :: q in MaskedAll(values) && Covers(q, p) ==> q == p
  }

  function MaskedAll(values: seq<Prefix>): (r: seq<Prefix>)
    ensures |r| == |values|
    ensures forall i :: 0 <= i < |r| ==> r[i] == Masked(values[i])
  {
    seq(|values|, i requires 0 <= i < |values| => Masked(values[i]))
  }

  // ---- the order is a strict total order --------------------------------

  lemma FirstDifference(a: seq<bool>, b: seq<bool>) returns (k: nat)
    requires |a| == |b| && a != b
    ensures k < |a| && a[..k] == b[..k] && a[k] != b[k]
  {
    assert a == a[..|a|] && b == b[..|b|];
    k := 0;
    while a[k] == b[k]
      invariant k < |a| && a[..k] == b[..k]
      decreases |a| - k
    {
      assert a[..k + 1] == a[..k] + [a[k]] && b[..k + 1] == b[..k] + [b[k]];
      k := k + 1;
    }
  }

  lemma BeforeTotal(l: Prefix, r: Prefix)
    ensures l == r || Before(l, r) || Before(r, l)
  {
    if l.addr.family == r.addr.family && l.addr.bits != r.addr.bits {
      var k := FirstDifference(l.addr.bits, r.addr.bits);
      assert DecidedAt(l.addr.bits, r.addr.bits, k) || DecidedAt(r.addr.bits, l.addr.bits, k);
    }
  }

  lemma DecidedOnce(a: seq<bool>, b: seq<bool>, c: seq<bool>, j: nat, k: nat)
    requires |a| == |b| == |c| && j < |a| && k < |a|
    requires DecidedAt(a, b, j) && DecidedAt(b, c, k)
    ensures BitsLess(a, c)
  {
    var m := if j < k then j else k;
    assert a[..j][..m] == a[..m] && b[..j][..m] == b[..m];
    assert b[..k][..m] == b[..m] && c[..k][..m] == c[..m];
    if j < k {
      assert b[..k][j] == c[..k][j];
    } else if k < j {
      assert a[..j][k] == b[..j][k];
    }
    assert DecidedAt(a, c, m);
  }

  lemma BitsLessIrreflexive(a: seq<bool>)
    ensures !BitsLess(a, a)
  {}

  lemma BeforeTransitive(l: Prefix, m: Prefix, r: Prefix)
    requires Before(l, m) && Before(m, r)
    ensures Before(l, r)
  {
    if l.addr.family == m.addr.family == r.addr.family && l.addr.bits != m.addr.bits && m.addr.bits != r.addr.bits {
      var j: nat :| j < |l.addr.bits| && DecidedAt(l.addr.bits, m.addr.bits, j);
      var k: nat :| k < |l.addr.bits| && DecidedAt(m.addr.bits, r.addr.bits, k);
      DecidedOnce(l.addr.bits, m.addr.bits, r.addr.bits, j, k);
      BitsLessIrreflexive(l.addr.bits);
    }
  }

  // ---- covering is an order, and overlap implies covering ---------------

  lemma CoversContains(p: Prefix, q: Prefix, a: Addr)
    requires Covers(p, q) && Contains(q, a)
    ensures Contains(p, a)
  {}

  lemma CoversItself(p: Prefix)
    ensures Covers(p, p)
  {}

  lemma CoversTransitive(p: Prefix, q: Prefix, r: Prefix)
    requires Covers(p, q) && Covers(q, r)
    ensures Covers(p, r)
  {}

  lemma OverlapCovers(p: Prefix, q: Prefix, a: Addr)
    requires Contains(p, a) && Contains(q, a)
    ensures Covers(p, q) || Covers(q, p)
  {}

  /** A masked prefix sorts before everything else it covers. */
  lemma CoversBefore(p: Prefix, q: Prefix)
    requires IsMasked(p) && IsMasked(q) && Covers(p, q)
    ensures p == q || Before(p, q)
  {
    if p.addr.bits != q.addr.bits {
      var k := FirstDifference(p.addr.bits, q.addr.bits);
      assert forall i :: 0 <= i < p.bits ==>
          p.addr.bits[i] == p.addr.bits[..p.bits][i] == q.addr.bits[..p.bits][i] == q.addr.bits[i];
      assert DecidedAt(p.addr.bits, q.addr.bits, k);
    }
  }

  // ---- sorting ------------------------------------------------------------

  function Insert(p: Prefix, s: seq<Prefix>): (r: seq<Prefix>)
    ensures multiset(r) == multiset(s) + multiset{p}
  {
    if s == [] || Before(p, s[0]) then [p] + s
    else
      assert s == [s[0]] + s[1..];
      [s[0]] + Insert(p, s[1..])
  }

  lemma {:induction false} InsertSorted(p: Prefix, s: seq<Prefix>)
    requires Sorted(s)
    ensures Sorted(Insert(p, s))
  {
    if s == [] {
    } else if Before(p, s[0]) {
      forall j | 0 <= j < |s| ensures !Before(s[j], p) {
        if Before(s[j], p) {
          BeforeTransitive(s[j], p, s[0]);
          BitsLessIrreflexive(p.addr.bits);
          assert j == 0;
          BeforeTransitive(p, s[0], p);
        }
      }
    } else {
      InsertSorted(p, s[1..]);
      var t := Insert(p, s[1..]);
      forall x | x in t ensures !Before(x, s[0]) {
        assert x in multiset(t);
        assert x == p || x in s[1..];
      }
    }
  }

  /** sort.Slice with Before as its order; Before is total, so every sorting
      algorithm gives this sequence. */
  function SortedCopy(s: seq<Prefix>): (r: seq<Prefix>)
    ensures Sorted(r) && multiset(r) == multiset(s)
  {
    if s == [] then [] else
      assert s == [s[0]] + s[1..];
      InsertSorted(s[0], SortedCopy(s[1..]));
      Insert(s[0], SortedCopy(s[1..]))
  }

  method SortInPlace(a: array<Prefix>)
    modifies a
    ensures a[..] == SortedCopy(old(a[..]))
  {
    var s := SortedCopy(a[..]);
    assert |s| == |multiset(s)| == |multiset(a[..])| == a.Length;
    forall i | 0 <= i < a.Length {
      a[i] := s[i];
    }
  }

  // ---- the normalisation --------------------------------------------------

  predicate SomeCovers(kept: seq<Prefix>, candidate: Prefix) {
    exists j :: 0 <= j < |kept| && Covers(kept[j], candidate)
  }

  /** The inner loop of the filter, newest kept prefix first. */
  method IsCovered(a: array<Prefix>, n: nat, candidate: Prefix) returns (covered: bool)
    requires n <= a.Length
    ensures covered <==> SomeCovers(a[..n], candidate)
  {
    covered := false;
    var k := n;
    while k > 0
      invariant 0 <= k <= n
      invariant forall j :: k <= j < n ==> !Covers(a[j], candidate)
    {
      k := k - 1;
      var prior := a[k];
      if prior.addr.family != candidate.addr.family {
        continue;
      }
      if prior.bits <= candidate.bits && Contains(prior, candidate.addr) {
        assert Covers(a[..n][k], candidate);
        return true;
      }
    }
  }

  /** Keep each prefix that no earlier kept one covers. */
  function KeepUncovered(s: seq<Prefix>): seq<Prefix> {
    if s == [] then [] else
      var kept := KeepUncovered(s[..|s| - 1]);
      if SomeCovers(kept, s[|s| - 1]) then kept else kept + [s[|s| - 1]]
  }

  /** The normal form of a prefix list; one prefix is left as it came. */
  function NormalForm(values: seq<Prefix>): seq<Prefix> {
    if |values| < 2 then values else KeepUncovered(SortedCopy(MaskedAll(values)))
  }

  /** The filter writes its output over the front of the slice it is still
      reading. No unread element is ever overwritten. */
  method FilterInPlace(a: array<Prefix>) returns (n: nat)
    modifies a
    ensures n <= a.Length && a[..n] == KeepUncovered(old(a[..]))
  {
    n := 0;
    ghost var given := a[..];
    for i := 0 to a.Length
      invariant n <= i && a[..n] == KeepUncovered(given[..i])
      invariant forall k :: i <= k < a.Length ==> a[k] == given[k]
    {
      assert given[..i + 1][..i] == given[..i];
      var candidate := a[i];
      var covered := IsCovered(a, n, candidate);
      if !covered {
        a[n] := candidate;
        n := n + 1;
      }
    }
    assert given[..a.Length] == given;
  }

  method NormalizeIngressPrefixes(values: seq<Prefix>) returns (out: seq<Prefix>)
    ensures out == NormalForm(values)
  {
    if |values| < 2 {
      return values;
    }
    var a := new Prefix[|values|](i requires 0 <= i < |values| => values[i]);
    for i := 0 to a.Length
      invariant forall k :: 0 <= k < i ==> a[k] == Masked(values[k])
      invariant forall k :: i <= k < a.Length ==> a[k] == values[k]
    {
      a[i] := Masked(a[i]);
    }
    assert a[..] == MaskedAll(values);
    SortInPlace(a);
    var n := FilterInPlace(a);
    out := a[..n];
  }

  /** kept is what a run of the filter over the first i elements may leave. */
  ghost predicate Filtered(sorted: seq<Prefix>, i: nat, kept: seq<Prefix>)
    requires i <= |sorted|
  {
    && StrictlySorted(kept)
    && (forall p :: p in kept ==> p in sorted[..i])
    && (forall k :: 0 <= k < i ==> SomeCovers(kept, sorted[k]))
    && (forall j, k :: 0 <= j < |kept| && 0 <= k < i && Covers(sorted[k], kept[j]) ==> sorted[k] == kept[j])
  }

  /** One turn of the filter: keep the candidate at i unless a kept prefix
      already covers it. */
  lemma KeepStep(sorted: seq<Prefix>, i: nat, kept: seq<Prefix>)
    requires i < |sorted| && Sorted(sorted)
    requires forall k :: 0 <= k < |sorted| ==> IsMasked(sorted[k])
    requires Filtered(sorted, i, kept)
    ensures if SomeCovers(kept, sorted[i])
            then Filtered(sorted, i + 1, kept)
            else Filtered(sorted, i + 1, kept + [sorted[i]])
  {
    var c := sorted[i];
    assert sorted[..i + 1] == sorted[..i] + [c];
    forall j | 0 <= j < |kept| && Covers(c, kept[j]) ensures c == kept[j] {
      assert kept[j] in sorted[..i];
      CoversBefore(c, kept[j]);
    }
    if !SomeCovers(kept, c) {
      KeepCandidate(sorted, i, kept);
      var next := kept + [c];
      CoversItself(c);
      forall k | 0 <= k < i + 1 ensures SomeCovers(next, sorted[k]) {
        if k < i {
          var j :| 0 <= j < |kept| && Covers(kept[j], sorted[k]);
          assert Covers(next[j], sorted[k]);
        } else {
          assert Covers(next[|kept|], sorted[k]);
        }
      }
    }
  }

  lemma KeepCandidate(sorted: seq<Prefix>, i: nat, kept: seq<Prefix>)
    requires i < |sorted| && Sorted(sorted) && Filtered(sorted, i, kept)
    requires !SomeCovers(kept, sorted[i])
    ensures forall k :: 0 <= k < i && Covers(sorted[k], sorted[i]) ==> sorted[k] == sorted[i]
    ensures forall j :: 0 <= j < |kept| ==> Before(kept[j], sorted[i])
  {
    var c := sorted[i];
    forall k | 0 <= k < i ensures !Covers(sorted[k], c) {
      var j :| 0 <= j < |kept| && Covers(kept[j], sorted[k]);
      if Covers(sorted[k], c) {
        CoversTransitive(kept[j], sorted[k], c);
        assert false;
      }
    }
    forall j | 0 <= j < |kept| ensures Before(kept[j], c) {
      assert kept[j] in sorted[..i];
      BeforeTotal(kept[j], c);
      CoversItself(c);
    }
  }

  lemma KeptIsMaximal(values: seq<Prefix>, sorted: seq<Prefix>, kept: seq<Prefix>)
    requires forall p :: p in sorted <==> p in MaskedAll(values)
    requires Filtered(sorted, |sorted|, kept)
    ensures forall p :: p in kept <==> Maximal(values, p)
  {
    assert sorted[..|sorted|] == sorted;
    forall p | p in kept ensures Maximal(values, p) {
      var j :| 0 <= j < |kept| && kept[j] == p;
      forall q | q in MaskedAll(values) && Covers(q, p) ensures q == p {
        var k :| 0 <= k < |sorted| && sorted[k] == q;
      }
    }
    forall p | Maximal(values, p) ensures p in kept {
      var k :| 0 <= k < |sorted| && sorted[k] == p;
      var j :| 0 <= j < |kept| && Covers(kept[j], sorted[k]);
      assert kept[j] in MaskedAll(values);
    }
  }

  // ---- what the normal form means ----------------------------------------

  /** Every masked input lies under some maximal one. */
  lemma {:induction false} CoveredByMaximal(values: seq<Prefix>, p: Prefix) returns (m: Prefix)
    requires p in MaskedAll(values)
    ensures Maximal(values, m) && Covers(m, p)
    decreases p.bits
  {
    if Maximal(values, p) {
      m := p;
    } else {
      var q :| q in MaskedAll(values) && Covers(q, p) && q != p;
      if q.bits == p.bits {
        CoversBefore(q, p);
        CoversBefore(p, q);
        assert false;
      }
      m := CoveredByMaximal(values, q);
      CoversTransitive(m, q, p);
    }
  }

  lemma {:induction false} KeepUncoveredFilters(sorted: seq<Prefix>, i: nat)
    requires i <= |sorted| && Sorted(sorted)
    requires forall k :: 0 <= k < |sorted| ==> IsMasked(sorted[k])
    ensures Filtered(sorted, i, KeepUncovered(sorted[..i]))
  {
    if i > 0 {
      KeepUncoveredFilters(sorted, i - 1);
      assert sorted[..i][..i - 1] == sorted[..i - 1];
      KeepStep(sorted, i - 1, KeepUncovered(sorted[..i - 1]));
    }
  }

  /** Two or more inputs: the normal form lists, in strict order, exactly the
      masked inputs that no other masked input covers. */
  lemma NormalFormIsMaximal(values: seq<Prefix>)
    requires |values| >= 2
    ensures StrictlySorted(NormalForm(values))
    ensures forall p :: p in NormalForm(values) <==> Maximal(values, p)
  {
    var sorted := SortedCopy(MaskedAll(values));
    SameElements(sorted, MaskedAll(values));
    assert forall k :: 0 <= k < |sorted| ==> sorted[k] in sorted;
    KeepUncoveredFilters(sorted, |sorted|);
    assert sorted[..|sorted|] == sorted;
    KeptIsMaximal(values, sorted, NormalForm(values));
  }

  /** Normalising changes no address's membership. */
  lemma NormalFormCovers(values: seq<Prefix>, a: Addr)
    ensures Covered(NormalForm(values), a) <==> Covered(values, a)
  {
    if |values| >= 2 {
      var out := NormalForm(values);
      NormalFormIsMaximal(values);
      if Covered(out, a) {
        var i :| 0 <= i < |out| && Contains(out[i], a);
        assert Maximal(values, out[i]);
        var k :| 0 <= k < |values| && MaskedAll(values)[k] == out[i];
        assert Contains(values[k], a);
      }
      if Covered(values, a) {
        var k :| 0 <= k < |values| && Contains(values[k], a);
        var p := MaskedAll(values)[k];
        assert p == Masked(values[k]);
        var m := CoveredByMaximal(values, p);
        CoversContains(m, p, a);
        var i :| 0 <= i < |out| && out[i] == m;
        assert Contains(out[i], a);
      }
    }
  }

  /** No two prefixes of a normal form share an address, so nft accepts them
      as one interval set without auto-merge. */
  lemma NormalFormDisjoint(values: seq<Prefix>, i: nat, j: nat)
    requires i < j < |NormalForm(values)|
    ensures Disjoint(NormalForm(values)[i], NormalForm(values)[j])
  {
    NormalFormIsMaximal(values);
    var p, q := NormalForm(values)[i], NormalForm(values)[j];
    assert p in NormalForm(values) && q in NormalForm(values) && Before(p, q);
    BitsLessIrreflexive(p.addr.bits);
    forall a ensures !(Contains(p, a) && Contains(q, a)) {
      if Contains(p, a) && Contains(q, a) {
        OverlapCovers(p, q, a);
        assert false;
      }
    }
  }
}
