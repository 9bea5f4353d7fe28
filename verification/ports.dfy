/** Port ranges on unsigned 16-bit bounds: validation, canonical form, complement. */
module Ports {

  const MAX_PORT: int := 65535

  /** A uint16 port number. Arithmetic that the program widens to uint32 is done on int here. */
  type Port = p: int | 0 <= p <= 65535

  datatype PortRange = PortRange(from: Port, to: Port) {

    predicate Valid() {
      1 <= from <= to
    }

    predicate Contains(p: int) {
      from <= p <= to
    }
  }

  predicate AllValid(ranges: seq<PortRange>) {
    forall r | r in ranges :: r.Valid()
  }

  predicate RangesContain(ranges: seq<PortRange>, p: int) {
    exists r | r in ranges :: r.Contains(p)
  }

  /** Canonical: valid, ascending, and with at least one missing port between neighbours. */
  predicate Normal(ranges: seq<PortRange>) {
    && AllValid(ranges)
    && forall i, j | 0 <= i < j < |ranges| :: ranges[i].to + 1 < ranges[j].from
  }

  predicate Before(a: PortRange, b: PortRange) {
    a.from < b.from || (a.from == b.from && a.to <= b.to)
  }

  predicate SortedRanges(ranges: seq<PortRange>) {
    forall i, j | 0 <= i < j < |ranges| :: Before(ranges[i], ranges[j])
  }

  method InsertRange(sorted: seq<PortRange>, r: PortRange) returns (inserted: seq<PortRange>)
    requires SortedRanges(sorted)
    ensures SortedRanges(inserted)
    ensures multiset(inserted) == multiset(sorted) + multiset{r}
  {
    var k := |sorted|;
    while k > 0 && !Before(sorted[k - 1], r)
      invariant 0 <= k <= |sorted|
      invariant forall j | k <= j < |sorted| :: Before(r, sorted[j])
    {
      k := k - 1;
    }
    InsertionKeepsElements(sorted, k, r);
    inserted := sorted[..k] + [r] + sorted[k..];
  }

  lemma InsertionKeepsElements(s: seq<PortRange>, k: nat, r: PortRange)
    requires k <= |s|
    ensures multiset(s[..k] + [r] + s[k..]) == multiset(s) + multiset{r}
  {
    assert s == s[..k] + s[k..];
  }

  /** The library sort: any ascending rearrangement. */
  method SortRanges(input: seq<PortRange>) returns (sorted: seq<PortRange>)
    ensures SortedRanges(sorted)
    ensures multiset(sorted) == multiset(input)
  {
    sorted := [];
    for n := 0 to |input|
      invariant SortedRanges(sorted)
      invariant multiset(sorted) == multiset(input[..n])
    {
      assert input[..n + 1] == input[..n] + [input[n]];
      sorted := InsertRange(sorted, input[n]);
    }
    assert input[..|input|] == input;
  }

  /** `after` holds the ports of `before` and of `current`, and nothing else. */
  ghost predicate Covers(after: seq<PortRange>, before: seq<PortRange>, current: PortRange) {
    forall p: int :: RangesContain(after, p) <==> RangesContain(before, p) || current.Contains(p)
  }

  /** Widening the last range keeps the list canonical and adds exactly the new range's ports. */
  lemma WidenLast(before: seq<PortRange>, current: PortRange)
    requires Normal(before) && before != [] && current.Valid()
    requires before[|before| - 1].from <= current.from <= before[|before| - 1].to + 1
    ensures var last := |before| - 1;
      var wide := if current.to > before[last].to then before[last].(to := current.to) else before[last];
      Normal(before[last := wide]) && Covers(before[last := wide], before, current)
  {
    var last := |before| - 1;
    var wide := if current.to > before[last].to then before[last].(to := current.to) else before[last];
    assert before[last] in before;
    assert before == before[..last] + [before[last]];
    assert before[last := wide] == before[..last] + [wide];
    ContainsAppend(before[..last], before[last]);
    ContainsAppend(before[..last], wide);
    forall r | r in before[last := wide] ensures r.Valid() {
      assert r == wide || r in before;
    }
  }

  /** Sort, then merge overlapping and adjacent ranges by widening the last merged one in place. */
  method NormalizeRanges(input: seq<PortRange>) returns (merged: seq<PortRange>)
    requires AllValid(input)
    ensures Normal(merged)
    ensures forall p: int :: RangesContain(merged, p) <==> RangesContain(input, p)
    ensures input == [] <==> merged == []
  {
    var ranges := SortRanges(input);
    SameElements(input, ranges);
    merged := [];
    for n := 0 to |ranges|
      invariant Normal(merged)
      invariant merged == [] <==> n == 0
      invariant n > 0 ==> merged[|merged| - 1].from <= ranges[n - 1].from
      invariant forall p: int :: RangesContain(merged, p) <==> RangesContain(ranges[..n], p)
    {
      var current := ranges[n];
      assert current in ranges && current.Valid();
      assert n > 0 ==> Before(ranges[n - 1], current);
      ContainsAppend(ranges[..n], current);
      assert ranges[..n + 1] == ranges[..n] + [current];
      if |merged| == 0 || current.from > merged[|merged| - 1].to + 1 {
        ContainsAppend(merged, current);
        merged := merged + [current];
      } else {
        WidenLast(merged, current);
        if current.to > merged[|merged| - 1].to {
          merged := merged[|merged| - 1 := merged[|merged| - 1].(to := current.to)];
        } else {
          assert merged == merged[|merged| - 1 := merged[|merged| - 1]];
        }
      }
    }
    assert ranges[..|ranges|] == ranges;
  }

  lemma SameElements(a: seq<PortRange>, b: seq<PortRange>)
    requires multiset(a) == multiset(b)
    ensures forall r :: r in a <==> r in b
    ensures forall p: int :: RangesContain(a, p) <==> RangesContain(b, p)
  {
    forall r ensures r in a <==> r in b {
      assert r in a <==> r in multiset(a);
      assert r in b <==> r in multiset(b);
    }
  }

  lemma ContainsAppend(a: seq<PortRange>, r: PortRange)
    ensures forall p: int :: RangesContain(a + [r], p) <==> RangesContain(a, p) || r.Contains(p)
  {
    forall p: int ensures RangesContain(a + [r], p) <==> RangesContain(a, p) || r.Contains(p) {
      if r.Contains(p) {
        assert (a + [r])[|a|] == r;
      }
      if RangesContain(a, p) {
        var q :| q in a && q.Contains(p);
        assert q in a + [r];
      }
    }
  }

  lemma ContainsPrepend(r: PortRange, a: seq<PortRange>)
    ensures forall p: int :: RangesContain([r] + a, p) <==> r.Contains(p) || RangesContain(a, p)
  {
    forall p: int ensures RangesContain([r] + a, p) <==> r.Contains(p) || RangesContain(a, p) {
      if r.Contains(p) {
        assert ([r] + a)[0] == r;
      }
      if RangesContain(a, p) {
        var q :| q in a && q.Contains(p);
        assert q in [r] + a;
      }
    }
  }

  /** Canonical lists are equal as soon as they denote the same ports, so merging is a normal form. */
  lemma {:induction false} NormalIsCanonical(a: seq<PortRange>, b: seq<PortRange>)
    requires Normal(a) && Normal(b)
    requires forall p: int :: RangesContain(a, p) <==> RangesContain(b, p)
    ensures a == b
  {
    if a == [] || b == [] {
      if a != [] {
        assert RangesContain(a, a[0].from) by { assert a[0] in a; }
      }
      if b != [] {
        assert RangesContain(b, b[0].from) by { assert b[0] in b; }
      }
    } else {
      HeadReaches(a, b);
      HeadReaches(b, a);
      assert a == [a[0]] + a[1..] && b == [b[0]] + b[1..];
      ContainsPrepend(a[0], a[1..]);
      ContainsPrepend(b[0], b[1..]);
      forall p: int ensures RangesContain(a[1..], p) <==> RangesContain(b[1..], p) {
        assert a[0] == b[0];
        assert a[0].Contains(p) ==> !RangesContain(a[1..], p) && !RangesContain(b[1..], p);
      }
      NormalIsCanonical(a[1..], b[1..]);
    }
  }

  /** The first range of a canonical list starts and ends no later than any list of the same ports allows. */
  lemma HeadReaches(a: seq<PortRange>, b: seq<PortRange>)
    requires Normal(a) && Normal(b) && a != [] && b != []
    requires forall p: int :: RangesContain(a, p) <==> RangesContain(b, p)
    ensures b[0].from <= a[0].from && (b[0].from == a[0].from ==> a[0].to <= b[0].to)
  {
    assert a[0] in a && b[0] in b;
    assert RangesContain(a, a[0].from);
    if b[0].from == a[0].from && a[0].to > b[0].to {
      var p := b[0].to + 1;
      assert a[0].Contains(p);
      assert RangesContain(a, p);
    }
  }

  /** The gaps of `excluded` from `next` upward: what the all-ports mode still forwards. */
  function Complement(next: int, excluded: seq<PortRange>): seq<PortRange>
    requires 1 <= next
    decreases |excluded|
  {
    if excluded == [] then
      if next <= MAX_PORT then [PortRange(next, MAX_PORT)] else []
    else
      var rest := Complement(excluded[0].to + 1, excluded[1..]);
      if next < excluded[0].from then [PortRange(next, excluded[0].from - 1)] + rest else rest
  }

  lemma {:induction false} ComplementIsNormal(next: int, excluded: seq<PortRange>)
    requires 1 <= next && Normal(excluded) && (excluded != [] ==> next <= excluded[0].from)
    ensures Normal(Complement(next, excluded))
    ensures forall i | 0 <= i < |Complement(next, excluded)| :: next <= Complement(next, excluded)[i].from
    decreases |excluded|
  {
    if excluded != [] {
      assert excluded[0] in excluded && excluded[0].Valid();
      ComplementIsNormal(excluded[0].to + 1, excluded[1..]);
    }
  }

  lemma {:induction false} ComplementContains(next: int, excluded: seq<PortRange>, p: int)
    requires 1 <= next && Normal(excluded) && (excluded != [] ==> next <= excluded[0].from)
    ensures RangesContain(Complement(next, excluded), p) <==> next <= p <= MAX_PORT && !RangesContain(excluded, p)
    decreases |excluded|
  {
    if excluded == [] {
      if next <= MAX_PORT {
        assert PortRange(next, MAX_PORT) in [PortRange(next, MAX_PORT)];
      }
    } else {
      var head := excluded[0];
      assert head in excluded && head.Valid();
      assert excluded == [head] + excluded[1..];
      ComplementContains(head.to + 1, excluded[1..], p);
      ContainsPrepend(head, excluded[1..]);
      if next < head.from {
        ContainsPrepend(PortRange(next, head.from - 1), Complement(head.to + 1, excluded[1..]));
      }
      assert p <= head.to ==> !RangesContain(excluded[1..], p);
    }
  }

  /** The complement is canonical and holds exactly the ports from 1 that `excluded` leaves out. */
  lemma ComplementMeaning(excluded: seq<PortRange>)
    requires Normal(excluded)
    ensures Normal(Complement(1, excluded))
    ensures forall p: int :: RangesContain(Complement(1, excluded), p) <==> 1 <= p <= MAX_PORT && !RangesContain(excluded, p)
  {
    assert excluded != [] ==> excluded[0] in excluded;
    ComplementIsNormal(1, excluded);
    forall p: int ensures RangesContain(Complement(1, excluded), p) <==> 1 <= p <= MAX_PORT && !RangesContain(excluded, p) {
      ComplementContains(1, excluded, p);
    }
  }

  /** The loop that walks the excluded ranges with a running uint32 `next`. */
  method ComplementLoop(excluded: seq<PortRange>) returns (allowed: seq<PortRange>)
    ensures allowed == Complement(1, excluded)
  {
    allowed := [];
    var next := 1;
    for n := 0 to |excluded|
      invariant 1 <= next <= MAX_PORT + 1
      invariant Complement(1, excluded) == allowed + Complement(next, excluded[n..])
    {
      assert excluded[n..][1..] == excluded[n + 1..];
      if next < excluded[n].from {
        allowed := allowed + [PortRange(next, excluded[n].from - 1)];
      }
      next := excluded[n].to + 1;
    }
    if next <= MAX_PORT {
      allowed := allowed + [PortRange(next, MAX_PORT)];
    }
  }
}
