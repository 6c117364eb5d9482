/** Deduplication of extracted parts: one part per identifier, the most informative one. */
module Dedup {
  import opened Schemas

  /** `len(p.description) + len(p.category)`, the key `max` compares. */
  function Score(p: Part): nat
  {
    |p.description| + |p.category|
  }

  function Numbers(ps: seq<Part>): set<string>
  {
    set p | p in ps :: p.partNumber
  }

  lemma NumbersStep(ps: seq<Part>)
    requires ps != []
    ensures Numbers(ps) == Numbers(ps[..|ps| - 1]) + {ps[|ps| - 1].partNumber}
  {
    assert ps == ps[..|ps| - 1] + [ps[|ps| - 1]];
  }

  /** The identifiers in order of first occurrence: the key order of the grouping dict. */
  function FirstKeys(ps: seq<Part>): (ks: seq<string>)
    ensures forall k :: k in ks <==> k in Numbers(ps)
    ensures forall a, b :: 0 <= a < b < |ks| ==> ks[a] != ks[b]
    ensures |ks| <= |ps|
  {
    if ps == [] then []
    else
      var ks := FirstKeys(ps[..|ps| - 1]);
      var k := ps[|ps| - 1].partNumber;
      NumbersStep(ps);
      if k in ks then ks else ks + [k]
  }

  /** The parts with identifier k, in input order: the list the grouping dict holds for k. */
  function Group(ps: seq<Part>, k: string): (g: seq<Part>)
    ensures forall p :: p in g ==> p in ps && p.partNumber == k
    ensures g != [] <==> k in Numbers(ps)
  {
    if ps == [] then []
    else
      var g := Group(ps[..|ps| - 1], k);
      NumbersStep(ps);
      if ps[|ps| - 1].partNumber == k then g + [ps[|ps| - 1]] else g
  }

  /** Position of `max(g, key=Score)`: the first element of greatest score. */
  function BestIndex(g: seq<Part>): (i: nat)
    requires g != []
    ensures i < |g|
    ensures forall j :: 0 <= j < |g| ==> Score(g[j]) <= Score(g[i])
    ensures forall j :: 0 <= j < i ==> Score(g[j]) < Score(g[i])
  {
    if |g| == 1 then 0
    else
      var b := BestIndex(g[..|g| - 1]);
      if Score(g[|g| - 1]) > Score(g[b]) then |g| - 1 else b
  }

  function Best(g: seq<Part>): Part
    requires g != []
  {
    g[BestIndex(g)]
  }

  /** `_deduplicate_parts`: the best part of each group, groups in first-occurrence order. */
  function Dedup(ps: seq<Part>): (r: seq<Part>)
    ensures |r| == |FirstKeys(ps)| <= |ps|
    ensures forall i :: 0 <= i < |r| ==> r[i].partNumber == FirstKeys(ps)[i] && r[i] in ps
  {
    var ks := FirstKeys(ps);
    seq(|ks|, i requires 0 <= i < |ks| => Best(Group(ps, ks[i])))
  }

  /** Output identifiers are distinct and are exactly the input's. */
  lemma DedupKeys(ps: seq<Part>)
    ensures forall a, b :: 0 <= a < b < |Dedup(ps)| ==> Dedup(ps)[a].partNumber != Dedup(ps)[b].partNumber
    ensures Numbers(Dedup(ps)) == Numbers(ps)
  {
    var r := Dedup(ps);
    var ks := FirstKeys(ps);
    forall k | k in Numbers(ps)
      ensures k in Numbers(r)
    {
      var i :| 0 <= i < |ks| && ks[i] == k;
      assert r[i].partNumber == k;
    }
  }

  /** Output order is first-occurrence order: the keys met in any prefix of the input come first. */
  lemma {:induction false} FirstOccurrenceOrder(ps: seq<Part>, n: nat)
    requires n <= |ps|
    ensures FirstKeys(ps[..n]) <= FirstKeys(ps)
    decreases |ps|
  {
    if n < |ps| {
      assert ps[..|ps| - 1][..n] == ps[..n];
      FirstOccurrenceOrder(ps[..|ps| - 1], n);
    } else {
      assert ps[..n] == ps;
    }
  }

  /**
   * Position in the input of the part kept for k: the first part with
   * identifier k whose score no other part with identifier k exceeds.
   */
  function KeptPosition(ps: seq<Part>, k: string): (m: nat)
    requires k in Numbers(ps)
    ensures m < |ps| && ps[m].partNumber == k
    ensures forall j :: 0 <= j < |ps| && ps[j].partNumber == k ==> Score(ps[j]) <= Score(ps[m])
    ensures forall j :: 0 <= j < m && ps[j].partNumber == k ==> Score(ps[j]) < Score(ps[m])
  {
    var init := ps[..|ps| - 1];
    NumbersStep(ps);
    if ps[|ps| - 1].partNumber != k then KeptPosition(init, k)
    else if k !in Numbers(init) then
      assert forall j :: 0 <= j < |init| ==> init[j] in init;
      |ps| - 1
    else
      var b := KeptPosition(init, k);
      if Score(ps[|ps| - 1]) > Score(ps[b]) then |ps| - 1 else b
  }

  lemma {:induction false} BestOfGroup(ps: seq<Part>, k: string)
    requires k in Numbers(ps)
    ensures Best(Group(ps, k)) == ps[KeptPosition(ps, k)]
    decreases |ps|
  {
    var init := ps[..|ps| - 1];
    NumbersStep(ps);
    if ps[|ps| - 1].partNumber == k && k in Numbers(init) {
      BestOfGroup(init, k);
      var g := Group(ps, k);
      assert g[..|g| - 1] == Group(init, k);
    } else if ps[|ps| - 1].partNumber == k {
      assert Group(init, k) == [];
    } else {
      BestOfGroup(init, k);
    }
  }

  /** Each kept part is the first of its group with the greatest `len(description) + len(category)`. */
  lemma DedupKeepsFirstBest(ps: seq<Part>)
    ensures forall i :: 0 <= i < |Dedup(ps)| ==>
      (FirstKeys(ps)[i] in Numbers(ps) && Dedup(ps)[i] == ps[KeptPosition(ps, FirstKeys(ps)[i])])
  {
    var ks := FirstKeys(ps);
    forall i | 0 <= i < |ks|
      ensures Dedup(ps)[i] == ps[KeptPosition(ps, ks[i])]
    {
      BestOfGroup(ps, ks[i]);
    }
  }

  predicate DistinctNumbers(ps: seq<Part>)
  {
    forall a, b :: 0 <= a < b < |ps| ==> ps[a].partNumber != ps[b].partNumber
  }

  lemma {:induction false} DistinctFirstKeys(qs: seq<Part>)
    requires DistinctNumbers(qs)
    ensures FirstKeys(qs) == seq(|qs|, i requires 0 <= i < |qs| => qs[i].partNumber)
  {
    if qs != [] {
      var init := qs[..|qs| - 1];
      DistinctFirstKeys(init);
      assert qs[|qs| - 1].partNumber !in Numbers(init);
    }
  }

  lemma {:induction false} DistinctGroup(qs: seq<Part>, i: nat)
    requires DistinctNumbers(qs) && i < |qs|
    ensures Group(qs, qs[i].partNumber) == [qs[i]]
  {
    var init := qs[..|qs| - 1];
    if i < |qs| - 1 {
      DistinctGroup(init, i);
    } else {
      assert qs[i].partNumber !in Numbers(init);
    }
  }

  /** On parts with distinct identifiers deduplication changes nothing. */
  lemma DedupOfDistinct(qs: seq<Part>)
    requires DistinctNumbers(qs)
    ensures Dedup(qs) == qs
  {
    DistinctFirstKeys(qs);
    forall i | 0 <= i < |qs|
      ensures Dedup(qs)[i] == qs[i]
    {
      DistinctGroup(qs, i);
    }
  }

  /** Deduplicating twice is deduplicating once. */
  lemma DedupIdempotent(ps: seq<Part>)
    ensures Dedup(Dedup(ps)) == Dedup(ps)
  {
    DedupKeys(ps);
    DedupOfDistinct(Dedup(ps));
  }

  lemma FirstKeysStep(ps: seq<Part>, i: nat)
    requires i < |ps|
    ensures FirstKeys(ps[..i + 1]) ==
      if ps[i].partNumber in FirstKeys(ps[..i]) then FirstKeys(ps[..i]) else FirstKeys(ps[..i]) + [ps[i].partNumber]
  {
    assert ps[..i + 1][..i] == ps[..i];
  }

  lemma GroupStep(ps: seq<Part>, i: nat, k: string)
    requires i < |ps|
    ensures Group(ps[..i + 1], k) == if ps[i].partNumber == k then Group(ps[..i], k) + [ps[i]] else Group(ps[..i], k)
  {
    assert ps[..i + 1][..i] == ps[..i];
  }

  /** The grouping dict after the first n parts: its keys in first-occurrence order, each with its group. */
  ghost predicate Grouped(parts: seq<Part>, n: nat, groups: map<string, seq<Part>>, order: seq<string>)
    requires n <= |parts|
  {
    && order == FirstKeys(parts[..n])
    && (forall k :: k in groups <==> k in order)
    && (forall k :: k in groups ==> groups[k] == Group(parts[..n], k))
  }

  /** A part whose identifier is already grouped joins the end of its group. */
  lemma GroupedSeen(parts: seq<Part>, i: nat, groups: map<string, seq<Part>>, order: seq<string>)
    requires i < |parts| && Grouped(parts, i, groups, order) && parts[i].partNumber in groups
    ensures Grouped(parts, i + 1, groups[parts[i].partNumber := groups[parts[i].partNumber] + [parts[i]]], order)
  {
    FirstKeysStep(parts, i);
    var k := parts[i].partNumber;
    var groups' := groups[k := groups[k] + [parts[i]]];
    forall k' | k' in groups'
      ensures groups'[k'] == Group(parts[..i + 1], k')
    {
      GroupStep(parts, i, k');
    }
  }

  /** A part with a new identifier opens a group of its own, last in the key order. */
  lemma GroupedNew(parts: seq<Part>, i: nat, groups: map<string, seq<Part>>, order: seq<string>)
    requires i < |parts| && Grouped(parts, i, groups, order) && parts[i].partNumber !in groups
    ensures var k := parts[i].partNumber;
      Grouped(parts, i + 1, groups[k := []][k := [] + [parts[i]]], order + [k])
  {
    FirstKeysStep(parts, i);
    var k := parts[i].partNumber;
    assert Group(parts[..i], k) == [];
    var groups' := groups[k := []][k := [] + [parts[i]]];
    forall k' | k' in groups'
      ensures groups'[k'] == Group(parts[..i + 1], k')
    {
      GroupStep(parts, i, k');
    }
  }

  /** The grouping loop of `_deduplicate_parts`: the dict of groups and its key order. */
  method GroupByNumber(parts: seq<Part>) returns (groups: map<string, seq<Part>>, order: seq<string>)
    ensures Grouped(parts, |parts|, groups, order)
  {
    groups := map[];
    order := [];
    for i := 0 to |parts|
      invariant Grouped(parts, i, groups, order)
    {
      var p := parts[i];
      if p.partNumber !in groups {
        GroupedNew(parts, i, groups, order);
        groups := groups[p.partNumber := []];
        order := order + [p.partNumber];
      } else {
        GroupedSeen(parts, i, groups, order);
      }
      groups := groups[p.partNumber := groups[p.partNumber] + [p]];
    }
  }

  /** Grouping every part yields the key order and groups `Dedup` is defined by. */
  lemma GroupedAll(parts: seq<Part>, groups: map<string, seq<Part>>, order: seq<string>)
    requires Grouped(parts, |parts|, groups, order)
    ensures order == FirstKeys(parts) && |order| == |Dedup(parts)|
    ensures forall k :: k in order ==> k in groups && groups[k] == Group(parts, k)
  {
    assert parts[..|parts|] == parts;
  }

  /** The j-th part of `Dedup` is the best of the j-th key's group. */
  lemma DedupAt(parts: seq<Part>, j: nat)
    requires j < |FirstKeys(parts)|
    ensures Group(parts, FirstKeys(parts)[j]) != []
    ensures Dedup(parts)[j] == Best(Group(parts, FirstKeys(parts)[j]))
  {
    assert FirstKeys(parts)[j] in Numbers(parts);
  }

  /** The group of the j-th key extends the prefix of `Dedup` by one part. */
  lemma KeepStep(parts: seq<Part>, g: seq<Part>, j: nat)
    requires j < |FirstKeys(parts)| && g == Group(parts, FirstKeys(parts)[j])
    ensures g != []
    ensures Dedup(parts)[..j + 1] == Dedup(parts)[..j] + [Best(g)]
  {
    DedupAt(parts, j);
    PrefixStep(Dedup(parts), j);
  }

  lemma PrefixStep<T>(s: seq<T>, j: nat)
    requires j < |s|
    ensures s[..j + 1] == s[..j] + [s[j]]
  {
  }

  /** A group of one part: `max` picks that part. */
  lemma BestOfOne(g: seq<Part>)
    requires |g| == 1
    ensures Best(g) == g[0]
  {
  }

  /** `_deduplicate_parts` as the source runs it: group, then keep each group's best. */
  method DeduplicateParts(parts: seq<Part>) returns (result: seq<Part>)
    ensures result == Dedup(parts)
  {
    if parts == [] {
      return parts;
    }
    var groups, order := GroupByNumber(parts);
    GroupedAll(parts, groups, order);
    result := [];
    for j := 0 to |order|
      invariant result == Dedup(parts)[..j]
    {
      var g := groups[order[j]];
      KeepStep(parts, g, j);
      if |g| == 1 {
        BestOfOne(g);
        result := result + [g[0]];
      } else {
        result := result + [Best(g)];
      }
    }
    assert Dedup(parts)[..|order|] == Dedup(parts);
  }
}
