/**
 * `process_catalog` and `main`: extraction, the choice of the parts to price,
 * the price fetch, the merge of the fetched parts back by part number, the
 * output files and the exit status.
 */
module Orchestrator {
  import opened Optional
  import opened Strings
  import opened Time
  import opened Json
  import opened Settings
  import opened Utils
  import opened Schemas
  import opened Dedup
  import opened PdfDocument
  import opened CatalogInfo
  import PdfExtractor
  import PriceFetcher
  import DataManager

  // ------------------------------------------------------------- selection

  /** The test `process_catalog` prices a part by: every part under `force_refresh`, else the stale ones. */
  function Selection(forceRefresh: bool, now: Timestamp): Part -> bool
  {
    if forceRefresh then (p: Part) => true else DataManager.StaleTest(PRICE_STALE_DAYS, now)
  }

  /** `parts_to_price` */
  function PartsToPrice(parts: seq<Part>, forceRefresh: bool, now: Timestamp): seq<Part>
  {
    Filter(parts, Selection(forceRefresh, now))
  }

  /** Every part under `force_refresh`; otherwise exactly the stale ones, in order. */
  lemma PartsToPriceExact(parts: seq<Part>, forceRefresh: bool, now: Timestamp)
    ensures forceRefresh ==> PartsToPrice(parts, forceRefresh, now) == parts
    ensures !forceRefresh ==> PartsToPrice(parts, forceRefresh, now) == DataManager.StaleParts(parts, PRICE_STALE_DAYS, now)
    ensures forall p :: p in PartsToPrice(parts, forceRefresh, now) <==>
      p in parts && (forceRefresh || IsPriceStale(p, PRICE_STALE_DAYS, now))
  {
    FilterExact(parts, Selection(forceRefresh, now));
    if forceRefresh {
      FilterKeepsAll(parts, Selection(forceRefresh, now));
    }
  }

  // ------------------------------------------------------------ write-back

  /**
   * `parts` after the fetch. The fetch updates the selected part objects in
   * place, and those objects are the ones `parts` holds, so the j-th selected
   * part becomes the j-th part the fetch hands back.
   */
  function WriteBack(parts: seq<Part>, keep: Part -> bool, fetched: seq<Part>): (r: seq<Part>)
    requires |fetched| == |Filter(parts, keep)|
    ensures |r| == |parts|
  {
    if parts == [] then []
    else
      var n := |parts| - 1;
      if keep(parts[n]) then WriteBack(parts[..n], keep, fetched[..|fetched| - 1]) + [fetched[|fetched| - 1]]
      else WriteBack(parts[..n], keep, fetched) + [parts[n]]
  }

  /**
   * A part that was not selected is left as it was; a selected part becomes
   * the fetched part whose index is the number of selected parts before it.
   */
  lemma {:induction false} WriteBackPositions(parts: seq<Part>, keep: Part -> bool, fetched: seq<Part>)
    requires |fetched| == |Filter(parts, keep)|
    ensures forall i :: 0 <= i < |parts| && !keep(parts[i]) ==> WriteBack(parts, keep, fetched)[i] == parts[i]
    ensures forall i :: 0 <= i < |parts| && keep(parts[i]) ==>
      |Filter(parts[..i], keep)| < |fetched| && WriteBack(parts, keep, fetched)[i] == fetched[|Filter(parts[..i], keep)|]
  {
    if parts != [] {
      var n := |parts| - 1;
      var front := parts[..n];
      var rest := if keep(parts[n]) then fetched[..|fetched| - 1] else fetched;
      WriteBackPositions(front, keep, rest);
      var r := WriteBack(parts, keep, fetched);
      var r0 := WriteBack(front, keep, rest);
      assert r == r0 + [if keep(parts[n]) then fetched[|fetched| - 1] else parts[n]];
      forall i | 0 <= i < |parts|
        ensures !keep(parts[i]) ==> r[i] == parts[i]
        ensures keep(parts[i]) ==> |Filter(parts[..i], keep)| < |fetched| && r[i] == fetched[|Filter(parts[..i], keep)|]
      {
        if i < n {
          assert parts[..i] == front[..i];
          assert r[i] == r0[i] && parts[i] == front[i];
        } else {
          assert parts[..i] == front;
        }
      }
    }
  }

  /** Handing back the selected parts unchanged leaves the list as it was. */
  lemma {:induction false} WriteBackUnchanged(parts: seq<Part>, keep: Part -> bool)
    ensures WriteBack(parts, keep, Filter(parts, keep)) == parts
  {
    if parts != [] {
      var n := |parts| - 1;
      var selected := Filter(parts, keep);
      WriteBackUnchanged(parts[..n], keep);
      assert selected == Filter(parts[..n], keep) + (if keep(parts[n]) then [parts[n]] else []);
      if keep(parts[n]) {
        assert selected[..|selected| - 1] == Filter(parts[..n], keep);
        assert selected[|selected| - 1] == parts[n];
      } else {
        assert selected == Filter(parts[..n], keep);
      }
      assert WriteBack(parts, keep, selected) == WriteBack(parts[..n], keep, Filter(parts[..n], keep)) + [parts[n]];
      assert parts == parts[..n] + [parts[n]];
    }
  }

  /** Each fetched part ends up in the list. */
  lemma {:induction false} WriteBackHoldsFetched(parts: seq<Part>, keep: Part -> bool, fetched: seq<Part>)
    requires |fetched| == |Filter(parts, keep)|
    ensures forall x :: x in fetched ==> x in WriteBack(parts, keep, fetched)
  {
    if parts != [] {
      var n := |parts| - 1;
      if keep(parts[n]) {
        var rest := fetched[..|fetched| - 1];
        WriteBackHoldsFetched(parts[..n], keep, rest);
        assert fetched == rest + [fetched[|fetched| - 1]];
      } else {
        WriteBackHoldsFetched(parts[..n], keep, fetched);
      }
    }
  }

  /** When the fetch changes only prices, timestamps and statuses, so does the write-back, part by part. */
  lemma {:induction false} WriteBackSameParts(parts: seq<Part>, keep: Part -> bool, fetched: seq<Part>)
    requires |fetched| == |Filter(parts, keep)|
    requires forall j :: 0 <= j < |fetched| ==> PriceFetcher.SamePartOtherwise(Filter(parts, keep)[j], fetched[j])
    ensures forall i :: 0 <= i < |parts| ==> PriceFetcher.SamePartOtherwise(parts[i], WriteBack(parts, keep, fetched)[i])
  {
    if parts != [] {
      var n := |parts| - 1;
      var front := parts[..n];
      var rest := if keep(parts[n]) then fetched[..|fetched| - 1] else fetched;
      assert Filter(parts, keep) == Filter(front, keep) + (if keep(parts[n]) then [parts[n]] else []);
      forall j | 0 <= j < |rest|
        ensures PriceFetcher.SamePartOtherwise(Filter(front, keep)[j], rest[j])
      {
        assert Filter(front, keep)[j] == Filter(parts, keep)[j];
      }
      WriteBackSameParts(front, keep, rest);
      var r := WriteBack(parts, keep, fetched);
      assert r == WriteBack(front, keep, rest) + [if keep(parts[n]) then fetched[|fetched| - 1] else parts[n]];
      forall i | 0 <= i < |parts|
        ensures PriceFetcher.SamePartOtherwise(parts[i], r[i])
      {
        if i < n {
          assert parts[i] == front[i];
        }
      }
    }
  }

  // ----------------------------------------------------------------- merge

  /** `part_dict`: part numbers with their parts, in insertion order. */
  type PartTable = seq<(string, Part)>

  /** Where key k sits in the table. */
  function TableIndexOf(t: PartTable, k: string): (r: Option<nat>)
    ensures r.Some? ==> r.value < |t| && t[r.value].0 == k
    ensures r.Some? ==> forall j :: 0 <= j < r.value ==> t[j].0 != k
    ensures r.None? ==> forall j :: 0 <= j < |t| ==> t[j].0 != k
  {
    if t == [] then None
    else if t[0].0 == k then Some(0)
    else
      match TableIndexOf(t[1..], k)
      case Some(j) => Some(j + 1)
      case None => None
  }

  /** `part_dict.get(k)` */
  function Find(t: PartTable, k: string): Option<Part>
  {
    match TableIndexOf(t, k)
    case Some(i) => Some(t[i].1)
    case None => None
  }

  /** `part_dict[k] = v`: a key already present keeps its place and takes the new part; a new key goes last. */
  function Put(t: PartTable, k: string, v: Part): PartTable
  {
    match TableIndexOf(t, k)
    case Some(i) => t[i := (k, v)]
    case None => t + [(k, v)]
  }

  /** `part_dict.keys()` */
  function TableKeys(t: PartTable): (ks: seq<string>)
    ensures |ks| == |t| && forall i :: 0 <= i < |t| ==> ks[i] == t[i].0
  {
    seq(|t|, i requires 0 <= i < |t| => t[i].0)
  }

  /** `list(part_dict.values())` */
  function TableValues(t: PartTable): (vs: seq<Part>)
    ensures |vs| == |t| && forall i :: 0 <= i < |t| ==> vs[i] == t[i].1
  {
    seq(|t|, i requires 0 <= i < |t| => t[i].1)
  }

  /** The keys are the part numbers of their parts. */
  predicate Keyed(t: PartTable)
  {
    forall i :: 0 <= i < |t| ==> t[i].1.partNumber == t[i].0
  }

  predicate DistinctKeys(t: PartTable)
  {
    forall i, j :: 0 <= i < j < |t| ==> t[i].0 != t[j].0
  }

  lemma KeyIndexed(t: PartTable, k: string)
    ensures k in TableKeys(t) <==> TableIndexOf(t, k).Some?
  {
    if TableIndexOf(t, k).Some? {
      assert TableKeys(t)[TableIndexOf(t, k).value] == k;
    }
  }

  /** Storing under k leaves what every other key finds. */
  lemma PutKeepsOthers(t: PartTable, k: string, v: Part)
    ensures forall k' :: k' != k ==> Find(Put(t, k, v), k') == Find(t, k')
  {
    var r := Put(t, k, v);
    forall k' | k' != k
      ensures TableIndexOf(r, k') == TableIndexOf(t, k')
    {
      assert forall j :: 0 <= j < |t| ==> (r[j].0 == k' <==> t[j].0 == k');
    }
  }

  /** Storing under a present key replaces its part in place. */
  lemma PutPresent(t: PartTable, k: string, v: Part)
    requires TableIndexOf(t, k).Some?
    ensures TableKeys(Put(t, k, v)) == TableKeys(t)
    ensures Find(Put(t, k, v), k) == Some(v)
    ensures DistinctKeys(t) ==> DistinctKeys(Put(t, k, v))
    ensures Keyed(t) && v.partNumber == k ==> Keyed(Put(t, k, v))
  {
    var i := TableIndexOf(t, k).value;
    var r := Put(t, k, v);
    assert r == t[i := (k, v)];
    assert forall j :: 0 <= j < |t| ==> r[j].0 == t[j].0;
    assert TableIndexOf(r, k) == Some(i);
  }

  /** Storing under a new key appends it. */
  lemma PutAbsent(t: PartTable, k: string, v: Part)
    requires TableIndexOf(t, k).None?
    ensures TableKeys(Put(t, k, v)) == TableKeys(t) + [k]
    ensures Find(Put(t, k, v), k) == Some(v)
    ensures DistinctKeys(t) ==> DistinctKeys(Put(t, k, v))
    ensures Keyed(t) && v.partNumber == k ==> Keyed(Put(t, k, v))
  {
    var r := Put(t, k, v);
    assert r[|t|].0 == k;
    assert TableIndexOf(r, k) == Some(|t|);
  }

  /**
   * Storing under a key leaves the order of the keys alone when the key is
   * present and appends it otherwise; the key then finds the stored part and
   * every other key finds what it found before.
   */
  lemma PutProperties(t: PartTable, k: string, v: Part)
    ensures TableKeys(Put(t, k, v)) == if k in TableKeys(t) then TableKeys(t) else TableKeys(t) + [k]
    ensures Find(Put(t, k, v), k) == Some(v)
    ensures forall k' :: k' != k ==> Find(Put(t, k, v), k') == Find(t, k')
    ensures DistinctKeys(t) ==> DistinctKeys(Put(t, k, v))
    ensures Keyed(t) && v.partNumber == k ==> Keyed(Put(t, k, v))
  {
    KeyIndexed(t, k);
    PutKeepsOthers(t, k, v);
    if TableIndexOf(t, k).Some? {
      PutPresent(t, k, v);
    } else {
      PutAbsent(t, k, v);
    }
  }

  /** Storing each part of ps in turn under its part number. */
  function PutAll(t: PartTable, ps: seq<Part>): PartTable
  {
    if ps == [] then t
    else
      var p := ps[|ps| - 1];
      Put(PutAll(t, ps[..|ps| - 1]), p.partNumber, p)
  }

  /** `{p.part_number: p for p in parts}` */
  function TableOf(ps: seq<Part>): PartTable
  {
    PutAll([], ps)
  }

  /** The last part of ps numbered k. */
  function LastWith(ps: seq<Part>, k: string): (r: Option<Part>)
    ensures r.Some? ==> r.value in ps && r.value.partNumber == k
    ensures r.None? ==> forall p :: p in ps ==> p.partNumber != k
  {
    if ps == [] then None
    else if ps[|ps| - 1].partNumber == k then Some(ps[|ps| - 1])
    else
      var r := LastWith(ps[..|ps| - 1], k);
      assert ps == ps[..|ps| - 1] + [ps[|ps| - 1]];
      r
  }

  /**
   * After storing ps, a key finds the last part of ps with that number, and
   * what it found before when ps has none; the keys stay distinct and keyed.
   */
  lemma {:induction false} PutAllFind(t: PartTable, ps: seq<Part>, k: string)
    ensures Find(PutAll(t, ps), k) == if LastWith(ps, k).Some? then LastWith(ps, k) else Find(t, k)
    ensures DistinctKeys(t) ==> DistinctKeys(PutAll(t, ps))
    ensures Keyed(t) ==> Keyed(PutAll(t, ps))
  {
    if ps != [] {
      var front := ps[..|ps| - 1];
      var p := ps[|ps| - 1];
      PutAllFind(t, front, k);
      PutProperties(PutAll(t, front), p.partNumber, p);
    }
  }

  /** The dict comprehension's keys are the part numbers in order of first occurrence. */
  lemma {:induction false} TableOfKeys(ps: seq<Part>)
    ensures TableKeys(TableOf(ps)) == FirstKeys(ps)
  {
    if ps != [] {
      var front := ps[..|ps| - 1];
      var p := ps[|ps| - 1];
      TableOfKeys(front);
      PutProperties(TableOf(front), p.partNumber, p);
    }
  }

  /** Storing parts whose numbers are already keys leaves the keys as they are. */
  lemma {:induction false} PutAllKeepsKeys(t: PartTable, ps: seq<Part>)
    requires forall p :: p in ps ==> p.partNumber in TableKeys(t)
    ensures TableKeys(PutAll(t, ps)) == TableKeys(t)
  {
    if ps != [] {
      var front := ps[..|ps| - 1];
      var p := ps[|ps| - 1];
      assert forall q :: q in front ==> q in ps;
      PutAllKeepsKeys(t, front);
      PutProperties(PutAll(t, front), p.partNumber, p);
    }
  }

  /** With distinct keys, the key at position i finds the part at position i. */
  lemma FindDistinct(t: PartTable, i: nat)
    requires DistinctKeys(t) && i < |t|
    ensures Find(t, t[i].0) == Some(t[i].1)
  {
  }

  /** The parts after the merge loop: `list(part_dict.values())`. */
  function Merge(parts: seq<Part>, updated: seq<Part>): seq<Part>
  {
    TableValues(PutAll(TableOf(parts), updated))
  }

  /** The part the merge keeps for number k: the last updated one, or else the last of `parts`. */
  function Kept(parts: seq<Part>, updated: seq<Part>, k: string): Option<Part>
  {
    if LastWith(updated, k).Some? then LastWith(updated, k) else LastWith(parts, k)
  }

  /** The merged table's keys are the part numbers of `parts` in order of first occurrence. */
  lemma MergedTable(parts: seq<Part>, updated: seq<Part>)
    requires forall u :: u in updated ==> u.partNumber in Numbers(parts)
    ensures var t := PutAll(TableOf(parts), updated);
      TableKeys(t) == FirstKeys(parts) && DistinctKeys(t) && Keyed(t)
  {
    var t0 := TableOf(parts);
    TableOfKeys(parts);
    PutAllFind([], parts, "");
    PutAllFind(t0, updated, "");
    PutAllKeepsKeys(t0, updated);
  }

  /**
   * The merge has one part per distinct part number of `parts`, in order of
   * first occurrence, and the part it has for a number is the one kept for it.
   */
  lemma MergeProperties(parts: seq<Part>, updated: seq<Part>)
    requires forall u :: u in updated ==> u.partNumber in Numbers(parts)
    ensures var m := Merge(parts, updated);
      && |m| == |FirstKeys(parts)|
      && (forall i :: 0 <= i < |m| ==> m[i].partNumber == FirstKeys(parts)[i])
      && (forall i :: 0 <= i < |m| ==> Some(m[i]) == Kept(parts, updated, FirstKeys(parts)[i]))
  {
    var t0 := TableOf(parts);
    var t := PutAll(t0, updated);
    MergedTable(parts, updated);
    var m := Merge(parts, updated);
    forall i | 0 <= i < |m|
      ensures Some(m[i]) == Kept(parts, updated, FirstKeys(parts)[i])
    {
      var k := t[i].0;
      PutAllFind(t0, updated, k);
      KeptFromParts(parts, k);
      FindDistinct(t, i);
    }
  }

  /** The comprehension's table finds, for a number, the last part with it. */
  lemma KeptFromParts(parts: seq<Part>, k: string)
    ensures Find(TableOf(parts), k) == LastWith(parts, k)
  {
    PutAllFind([], parts, k);
  }

  /**
   * When the part numbers are distinct and every updated part is one of the
   * parts, the merge gives the parts back unchanged, in the same order.
   */
  lemma MergeOfDistinct(parts: seq<Part>, updated: seq<Part>)
    requires DistinctNumbers(parts)
    requires forall u :: u in updated ==> u in parts
    ensures Merge(parts, updated) == parts
  {
    assert forall u :: u in updated ==> u.partNumber in Numbers(parts);
    MergeProperties(parts, updated);
    DistinctFirstKeys(parts);
    var m := Merge(parts, updated);
    forall i | 0 <= i < |parts|
      ensures m[i] == parts[i]
    {
      var k := parts[i].partNumber;
      assert FirstKeys(parts)[i] == k;
      assert parts[i] in parts;
      var last := LastWith(parts, k).value;
      var j :| 0 <= j < |parts| && parts[j] == last;
      if LastWith(updated, k).Some? {
        var u := LastWith(updated, k).value;
        var l :| 0 <= l < |parts| && parts[l] == u;
      }
    }
  }

  /** `part_dict` filled by the comprehension and then by the loop over the updated parts. */
  method MergeParts(parts: seq<Part>, updated: seq<Part>) returns (merged: seq<Part>)
    ensures merged == Merge(parts, updated)
  {
    var table: PartTable := [];
    for i := 0 to |parts|
      invariant table == PutAll([], parts[..i])
    {
      assert parts[..i + 1][..i] == parts[..i];
      table := Put(table, parts[i].partNumber, parts[i]);
    }
    assert parts[..|parts|] == parts;
    ghost var byNumber := table;
    for j := 0 to |updated|
      invariant table == PutAll(byNumber, updated[..j])
    {
      assert updated[..j + 1][..j] == updated[..j];
      table := Put(table, updated[j].partNumber, updated[j]);
    }
    assert updated[..|updated|] == updated;
    merged := TableValues(table);
  }

  // ------------------------------------------------------------- the run

  /** What `process_catalog` meets outside its own code. */
  datatype Environment = Environment(
    doc: Document,                  // the catalog as the PDF reader sees it
    clock: nat -> Timestamp,        // the clock readings of the extraction
    extractionSaved: bool,          // whether the extraction's own files can be written
    credentials: Dict,              // what `load_credentials` returns
    portal: PriceFetcher.Portal,    // the dealer site
    now: Timestamp,                 // the clock reading `is_price_stale` compares against
    outputsWritten: bool,           // whether the output files can be written
    csvFile: string)                // the path `generate_lou_csv` returns

  /** The parts `extract_parts` returns for the catalog at `path`. */
  function Extracted(path: string, env: Environment): seq<Part>
  {
    if !env.doc.opens || !env.extractionSaved then [] else Stamped(PdfExtractor.CatalogParts(env.doc), path, env.clock)
  }

  /** The found parts stamped by `_enrich_parts_metadata`, the i-th at clock reading 1 + i. */
  function Stamped(found: seq<Part>, path: string, clock: nat -> Timestamp): (r: seq<Part>)
    ensures |r| == |found|
    ensures forall i :: 0 <= i < |found| ==> r[i] == PdfExtractor.EnrichPart(found[i], Stem(PathName(path)), path, clock(1 + i))
  {
    seq(|found|, i requires 0 <= i < |found| => PdfExtractor.EnrichPart(found[i], Stem(PathName(path)), path, clock(1 + i)))
  }

  /** The metadata `extract_parts` returns for the catalog at `path`. */
  function ExtractionMetadata(path: string, env: Environment): CatalogMetadata
  {
    var n := if env.doc.opens then |PdfExtractor.CatalogParts(env.doc)| else 0;
    CatalogMetadata(PathName(path), if env.doc.opens then |env.doc.pages| else 0, env.clock(0), n, n, 0,
                    ExtractCatalogVersion(Stem(PathName(path)), env.doc), ExtractCatalogDate(env.doc))
  }

  /** The extracted parts have distinct numbers, so the merge has one entry per part. */
  lemma ExtractedDistinct(path: string, env: Environment)
    ensures DistinctNumbers(Extracted(path, env))
  {
    if env.doc.opens && env.extractionSaved {
      StampedDistinct(PdfExtractor.CatalogParts(env.doc), path, env.clock);
    }
  }

  /** Stamping keeps every part number, so distinct numbers stay distinct. */
  lemma StampedDistinct(found: seq<Part>, path: string, clock: nat -> Timestamp)
    requires DistinctNumbers(found)
    ensures DistinctNumbers(Stamped(found, path, clock))
  {
    var r := Stamped(found, path, clock);
    forall a, b | 0 <= a < b < |r|
      ensures r[a].partNumber != r[b].partNumber
    {
      assert r[a].partNumber == found[a].partNumber;
      assert r[b].partNumber == found[b].partNumber;
    }
  }

  /** The fetch `process_catalog` runs on the extracted parts. */
  function Fetch(parts: seq<Part>, forceRefresh: bool, env: Environment): PriceFetcher.FetchResult
  {
    PriceFetcher.FetchRun(env.credentials, PartsToPrice(parts, forceRefresh, env.now), env.portal)
  }

  /** `parts` once the fetch has updated the selected part objects. */
  function WrittenBack(parts: seq<Part>, forceRefresh: bool, env: Environment): seq<Part>
  {
    PriceFetcher.FetchRunKeepsParts(env.credentials, PartsToPrice(parts, forceRefresh, env.now), env.portal);
    WriteBack(parts, Selection(forceRefresh, env.now), Fetch(parts, forceRefresh, env).parts)
  }

  /** The parts `process_catalog` writes out. */
  function FinalParts(parts: seq<Part>, updatePrices: bool, forceRefresh: bool, env: Environment): seq<Part>
  {
    if !updatePrices then parts
    else Merge(WrittenBack(parts, forceRefresh, env), Fetch(parts, forceRefresh, env).updated)
  }

  /**
   * With distinct part numbers the merge changes nothing: the output is the
   * list with each selected part replaced by its fetched form, and every part
   * keeps all but its price, timestamp and status.
   */
  lemma FinalPartsAreWrittenBack(parts: seq<Part>, updatePrices: bool, forceRefresh: bool, env: Environment)
    requires DistinctNumbers(parts)
    ensures var r := FinalParts(parts, updatePrices, forceRefresh, env);
      && |r| == |parts|
      && (forall i :: 0 <= i < |parts| ==> PriceFetcher.SamePartOtherwise(parts[i], r[i]))
      && (!updatePrices ==> r == parts)
      && (updatePrices ==> r == WrittenBack(parts, forceRefresh, env))
  {
    if updatePrices {
      var keep := Selection(forceRefresh, env.now);
      var toPrice := PartsToPrice(parts, forceRefresh, env.now);
      var f := Fetch(parts, forceRefresh, env);
      PriceFetcher.FetchRunKeepsParts(env.credentials, toPrice, env.portal);
      var written := WriteBack(parts, keep, f.parts);
      WriteBackSameParts(parts, keep, f.parts);
      WriteBackHoldsFetched(parts, keep, f.parts);
      assert DistinctNumbers(written) by {
        forall a, b | 0 <= a < b < |written|
          ensures written[a].partNumber != written[b].partNumber
        {
          assert written[a].partNumber == parts[a].partNumber;
          assert written[b].partNumber == parts[b].partNumber;
        }
      }
      MergeOfDistinct(written, f.updated);
    }
  }

  /**
   * The counters: without a whole-run failure, one price or one error per
   * part priced; a whole-run failure is a single error and no price.
   */
  lemma CountersAccount(parts: seq<Part>, forceRefresh: bool, env: Environment)
    ensures var f := Fetch(parts, forceRefresh, env);
      var toPrice := PartsToPrice(parts, forceRefresh, env.now);
      && ((!env.portal.setupFails && PriceFetcher.LoginSucceeds(env.credentials, env.portal.login)
           && env.portal.navigationOk) ==> |f.updated| + |f.errors| == |toPrice|)
      && ((env.portal.setupFails || !PriceFetcher.LoginSucceeds(env.credentials, env.portal.login)
           || !env.portal.navigationOk) ==> |f.updated| == 0 && |f.errors| == 1)
  {
    var toPrice := PartsToPrice(parts, forceRefresh, env.now);
    PriceFetcher.LookupAllAccounts(toPrice, PriceFetcher.PriceReader(env.portal), env.portal.clock);
  }

  /**
   * `process_catalog`. No parts extracted: False, and nothing else happens.
   * Otherwise the session records the metadata and the part count; with
   * `update_prices` the selected parts are fetched, the counters set and the
   * fetched parts merged back; errors are exported only when there are any;
   * and the run succeeds exactly when the output files can be written and at
   * least one part is ready for the dashboard export (otherwise the export's
   * validation raises and `output_file` is never set).
   */
  method ProcessCatalog(session: ProcessingSession, path: string, env: Environment, updatePrices: bool, forceRefresh: bool)
    returns (ok: bool, parts: seq<Part>, savedErrors: Option<seq<ProcessingError>>, louRows: seq<Dict>)
    modifies session
    ensures ok == (Extracted(path, env) != [] && env.outputsWritten
                   && DataManager.ReadyParts(FinalParts(Extracted(path, env), updatePrices, forceRefresh, env)) != [])
    ensures Extracted(path, env) == [] ==> unchanged(session) && parts == [] && savedErrors == None && louRows == []
    ensures Extracted(path, env) != [] ==>
      && session.catalogMetadata == Some(ExtractionMetadata(path, env))
      && session.partsProcessed == |Extracted(path, env)|
      && parts == FinalParts(Extracted(path, env), updatePrices, forceRefresh, env)
      && session.endTime == old(session.endTime)
    ensures Extracted(path, env) != [] && updatePrices ==>
      && session.pricesUpdated == |Fetch(Extracted(path, env), forceRefresh, env).updated|
      && session.errorsCount == |Fetch(Extracted(path, env), forceRefresh, env).errors|
    ensures !updatePrices ==> session.pricesUpdated == old(session.pricesUpdated) && session.errorsCount == old(session.errorsCount)
    ensures savedErrors ==
      if Extracted(path, env) != [] && updatePrices && env.outputsWritten && Fetch(Extracted(path, env), forceRefresh, env).errors != []
      then Some(Fetch(Extracted(path, env), forceRefresh, env).errors) else None
    ensures ok ==> |louRows| == |DataManager.ReadyParts(parts)|
                   && (forall i :: 0 <= i < |louRows| ==> louRows[i] == DataManager.LouCsvRow(DataManager.ReadyParts(parts)[i]))
                   && session.outputFile == env.csvFile
    ensures !ok ==> louRows == [] && session.outputFile == old(session.outputFile)
  {
    var extracted, metadata := Extract(path, env);
    if extracted == [] {
      return false, [], None, [];
    }
    ok, parts, savedErrors, louRows := ProcessExtracted(session, extracted, metadata, env, updatePrices, forceRefresh);
  }

  /** `process_catalog` from the point where parts were extracted. */
  method ProcessExtracted(session: ProcessingSession, extracted: seq<Part>, metadata: CatalogMetadata, env: Environment,
                          updatePrices: bool, forceRefresh: bool)
    returns (ok: bool, parts: seq<Part>, savedErrors: Option<seq<ProcessingError>>, louRows: seq<Dict>)
    modifies session
    ensures ok == (env.outputsWritten && DataManager.ReadyParts(FinalParts(extracted, updatePrices, forceRefresh, env)) != [])
    ensures session.catalogMetadata == Some(metadata) && session.partsProcessed == |extracted|
    ensures parts == FinalParts(extracted, updatePrices, forceRefresh, env) && session.endTime == old(session.endTime)
    ensures updatePrices ==>
      && session.pricesUpdated == |Fetch(extracted, forceRefresh, env).updated|
      && session.errorsCount == |Fetch(extracted, forceRefresh, env).errors|
    ensures !updatePrices ==> session.pricesUpdated == old(session.pricesUpdated) && session.errorsCount == old(session.errorsCount)
    ensures savedErrors ==
      if updatePrices && env.outputsWritten && Fetch(extracted, forceRefresh, env).errors != []
      then Some(Fetch(extracted, forceRefresh, env).errors) else None
    ensures ok ==> |louRows| == |DataManager.ReadyParts(parts)|
                   && (forall i :: 0 <= i < |louRows| ==> louRows[i] == DataManager.LouCsvRow(DataManager.ReadyParts(parts)[i]))
                   && session.outputFile == env.csvFile
    ensures !ok ==> louRows == [] && session.outputFile == old(session.outputFile)
  {
    session.catalogMetadata := Some(metadata);
    session.partsProcessed := |extracted|;
    parts := extracted;
    var errors: seq<ProcessingError> := [];
    if updatePrices {
      parts, errors := UpdatePrices(session, extracted, env, forceRefresh);
    }
    if !env.outputsWritten {
      return false, parts, None, [];
    }
    savedErrors := if errors != [] then Some(errors) else None;
    var rows, validated := DataManager.GenerateLouCsv(parts);
    if !validated {
      return false, parts, savedErrors, [];
    }
    louRows := rows;
    session.outputFile := env.csvFile;
    ok := true;
  }


  /**
   * Every extracted part has status extracted, so without pricing no part is
   * ready for the export: `--no-prices` never succeeds.
   */
  lemma NoPricesExportsNothing(path: string, env: Environment, forceRefresh: bool)
    ensures DataManager.ReadyParts(FinalParts(Extracted(path, env), false, forceRefresh, env)) == []
  {
    ExtractedAreExtracted(path, env);
    DataManager.NoneReady(Extracted(path, env));
  }

  /** `extract_parts` returns parts with the initial status only. */
  lemma ExtractedAreExtracted(path: string, env: Environment)
    ensures forall q :: q in Extracted(path, env) ==> q.status == PartStatus.Extracted
  {
    if env.doc.opens && env.extractionSaved {
      StampedKeepsStatus(PdfExtractor.CatalogParts(env.doc), path, env.clock);
    }
  }

  lemma StampedKeepsStatus(found: seq<Part>, path: string, clock: nat -> Timestamp)
    requires forall q :: q in found ==> q.status == PartStatus.Extracted
    ensures forall q :: q in Stamped(found, path, clock) ==> q.status == PartStatus.Extracted
  {
    var r := Stamped(found, path, clock);
    forall i | 0 <= i < |r|
      ensures r[i].status == PartStatus.Extracted
    {
      assert found[i] in found;
    }
  }

  /** Phase 1 of `process_catalog`: `extract_parts` on the catalog. */
  method Extract(path: string, env: Environment) returns (parts: seq<Part>, metadata: CatalogMetadata)
    ensures parts == Extracted(path, env) && metadata == ExtractionMetadata(path, env)
  {
    parts, metadata := PdfExtractor.ExtractParts(path, env.doc, env.clock, env.extractionSaved);
    if env.doc.opens && env.extractionSaved {
      var expected := Stamped(PdfExtractor.CatalogParts(env.doc), path, env.clock);
      assert |parts| == |expected|;
      assert forall i :: 0 <= i < |parts| ==> parts[i] == expected[i];
    }
  }

  /**
   * Phase 2 of `process_catalog`: fetch the selected parts, count the prices
   * and the errors into the session, and merge the fetched parts back.
   */
  method UpdatePrices(session: ProcessingSession, parts: seq<Part>, env: Environment, forceRefresh: bool)
    returns (merged: seq<Part>, errors: seq<ProcessingError>)
    modifies session
    ensures merged == FinalParts(parts, true, forceRefresh, env)
    ensures errors == Fetch(parts, forceRefresh, env).errors
    ensures session.pricesUpdated == |Fetch(parts, forceRefresh, env).updated|
    ensures session.errorsCount == |errors|
    ensures session.catalogMetadata == old(session.catalogMetadata) && session.partsProcessed == old(session.partsProcessed)
    ensures session.endTime == old(session.endTime) && session.outputFile == old(session.outputFile)
  {
    var fetcher := new PriceFetcher.PriceFetcher(env.credentials);
    var toPrice := PartsToPrice(parts, forceRefresh, env.now);
    var updated, fetchErrors, fetched := fetcher.FetchPrices(toPrice, env.portal);
    session.pricesUpdated := |updated|;
    session.errorsCount := |fetchErrors|;
    PriceFetcher.FetchRunKeepsParts(env.credentials, toPrice, env.portal);
    var written := WriteBack(parts, Selection(forceRefresh, env.now), fetched);
    merged := MergeParts(written, updated);
    errors := fetchErrors;
  }

  // ------------------------------------------------------------ exit code

  /** `Path(p).suffix.lower() == '.pdf'` */
  predicate IsPdfPath(path: string)
  {
    LowerStr(Suffix(PathName(path))) == ".pdf"
  }

  /** A name joined under a directory ending in '/' is the path's name. */
  lemma NameOfJoined(dir: string, name: string)
    requires dir != [] && dir[|dir| - 1] == '/' && '/' !in name
    ensures PathName(dir + name) == name
  {
    var path := dir + name;
    var i := LastIndexOf(path, '/');
    assert path[|dir| - 1] == '/';
    assert forall j :: |dir| <= j < |path| ==> path[j] == name[j - |dir|];
    assert path[|dir|..] == name;
  }

  /** A stem joined to a suffix of its own, with no dot in the suffix's tail, keeps that suffix. */
  lemma SuffixOfJoined(stem: string, ext: string)
    requires stem != [] && |ext| >= 2 && ext[0] == '.' && '.' !in ext[1..]
    ensures Suffix(stem + ext) == ext
  {
    var name := stem + ext;
    var i := LastIndexOf(name, '.');
    assert name[|stem|] == '.';
    assert forall j :: |stem| < j < |name| ==> name[j] == ext[1..][j - |stem| - 1];
    assert name[|stem|..] == ext;
  }

  /** A name whose only dot is its first character has no suffix. */
  lemma NoSuffixOfDotName(name: string)
    requires name != [] && name[0] == '.' && '.' !in name[1..]
    ensures Suffix(name) == []
  {
    var i := LastIndexOf(name, '.');
    assert forall j :: 0 < j < |name| ==> name[j] == name[1..][j - 1];
  }

  /** The suffix of a file stem + ext directly under dir is ext. */
  lemma JoinedSuffix(dir: string, stem: string, ext: string)
    requires dir != [] && dir[|dir| - 1] == '/' && '/' !in stem && '/' !in ext
    requires stem != [] && |ext| >= 2 && ext[0] == '.' && '.' !in ext[1..]
    ensures Suffix(PathName(dir + (stem + ext))) == ext
  {
    NameOfJoined(dir, stem + ext);
    SuffixOfJoined(stem, ext);
  }

  lemma LowerPdf()
    ensures LowerStr(".PDF") == ".pdf"
  {
  }

  /** The suffix test ignores case. */
  lemma UpperCasePdfAccepted()
    ensures IsPdfPath("catalogs/" + ("Jacuzzi_2024" + ".PDF"))
  {
    JoinedSuffix("catalogs/", "Jacuzzi_2024", ".PDF");
    LowerPdf();
  }

  /** Only the last suffix counts. */
  lemma BackupOfPdfRejected()
    ensures !IsPdfPath("catalogs/" + ("Jacuzzi_2024.pdf" + ".bak"))
  {
    JoinedSuffix("catalogs/", "Jacuzzi_2024.pdf", ".bak");
    assert LowerStr(".bak")[1] == 'b';
  }

  /** A name that is only ".pdf" has no suffix at all. */
  lemma BarePdfNameRejected()
    ensures !IsPdfPath("catalogs/" + ".pdf")
  {
    NameOfJoined("catalogs/", ".pdf");
    NoSuffixOfDotName(".pdf");
  }

  /**
   * `main`: exit status 1 for a missing file or a file without a `.pdf`
   * suffix; otherwise a fresh session runs `process_catalog`, is closed at
   * `endTime`, and the status is 0 exactly when the run succeeded: parts were
   * extracted, the outputs could be written and some part is ready for export.
   */
  method Run(fileExists: bool, path: string, env: Environment, noPrices: bool, forceRefresh: bool,
             sessionId: string, startTime: Timestamp, endTime: Timestamp) returns (code: int)
    ensures code == 0 || code == 1
    ensures code == 0 <==> fileExists && IsPdfPath(path) && Extracted(path, env) != [] && env.outputsWritten
                           && DataManager.ReadyParts(FinalParts(Extracted(path, env), !noPrices, forceRefresh, env)) != []
  {
    if !fileExists || !IsPdfPath(path) {
      return 1;
    }
    var session := new ProcessingSession(sessionId, startTime);
    var ok, parts, savedErrors, louRows := ProcessCatalog(session, path, env, !noPrices, forceRefresh);
    session.endTime := Some(endTime);
    code := if ok then 0 else 1;
  }
}
