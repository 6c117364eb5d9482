/**
 * The dealer-portal session: set up the browser, log in, open the price
 * lookup, look every part up in chunks of ten with pauses between lookups,
 * and close the browser whatever happened. The browser and the portal are an
 * oracle (`Portal`); the pauses are recorded in a ghost trace.
 */
module PriceFetcher {
  import opened Optional
  import opened Strings
  import opened Time
  import opened Json
  import opened Settings
  import opened Utils
  import opened Schemas
  import opened PriceParse

  /** What the login page does once it is requested. */
  datatype LoginPage =
    | LoginPageFails                 // the form never appears, a field is missing or the browser errs
    | Submitted(pageSource: string)  // the form was filled in and sent; the page that came back

  /** What one price lookup shows: the results table, or nothing usable (a timeout, a missing element). */
  datatype Lookup = LookupFails | ResultsTable(rows: seq<HtmlRow>)

  /**
   * The browser and the portal as seen by one run. `setupFails` says the browser
   * cannot be started (with `crashMessage` as the error's text); `clock(k)` is
   * the k-th reading of the wall clock during the run.
   */
  datatype Portal = Portal(
    setupFails: bool,
    crashMessage: string,
    login: LoginPage,
    navigationOk: bool,
    lookup: string -> Lookup,
    clock: nat -> Timestamp)

  const CHUNK_SIZE: int := 10
  const LOGIN_WAIT: real := 3.0
  const NOT_FOUND_MESSAGE: string := "Part not found in Jacuzzi system"
  const LOGIN_FAILED_MESSAGE: string := "Failed to login to Jacuzzi dealer website"
  const NAVIGATION_FAILED_MESSAGE: string := "Failed to navigate to price lookup page"
  const CRITICAL_PREFIX: string := "Critical error: "

  /**
   * The dealer entry of the credential store is an object holding a URL, a user
   * name and a password; anything else ends the login before the form is sent.
   */
  predicate CredentialsComplete(credentials: Dict)
  {
    match Get(credentials, JACUZZI_SITE_NAME)
    case Some(JObj(entry)) => "url" in Keys(entry) && "username" in Keys(entry) && "password" in Keys(entry)
    case _ => false
  }

  /** The login form is filled in and sent (and the 3-second wait follows). */
  predicate LoginSubmits(credentials: Dict, page: LoginPage)
  {
    CredentialsComplete(credentials) && page.Submitted?
  }

  /** `_login` reports success: the page after the form mentions "logout" or "welcome", in any case. */
  predicate LoginSucceeds(credentials: Dict, page: LoginPage)
  {
    && LoginSubmits(credentials, page)
    && (Contains(LowerStr(page.pageSource), "logout") || Contains(LowerStr(page.pageSource), "welcome"))
  }

  /** `_fetch_part_price`: every failure of the lookup itself reads as "no price". */
  function FetchPartPrice(outcome: Lookup): (r: Option<real>)
    ensures r.Some? ==> outcome.ResultsTable? && r == ParsePriceFromTable(outcome.rows)
  {
    match outcome
    case LookupFails => None
    case ResultsTable(rows) => ParsePriceFromTable(rows)
  }

  /** What the lookup of each part number reads as: the portal's price reader. */
  function PriceReader(portal: Portal): string -> Option<real>
  {
    (partNumber: string) => FetchPartPrice(portal.lookup(partNumber))
  }

  /** The parts whose lookup succeeded, as returned, and the errors; `parts` is every part after the run. */
  datatype FetchResult = FetchResult(updated: seq<Part>, errors: seq<ProcessingError>, parts: seq<Part>)

  /** Only price, timestamp and status may differ between a part before and after its lookup. */
  predicate SamePartOtherwise(before: Part, after: Part)
  {
    after == before.(price := after.price, lastPriceUpdate := after.lastPriceUpdate, status := after.status)
  }

  /** A part after its lookup, which read `found` at time t. */
  function AfterLookup(q: Part, found: Option<real>, t: Timestamp): Part
  {
    match found
    case Some(v) => q.(price := Some(v), lastPriceUpdate := Some(t), status := Priced)
    case None => q.(status := PriceFailed)
  }

  /**
   * A lookup changes only the price, its time and the status: the part ends
   * priced exactly when a price was read, with that price and that time, and
   * failed otherwise with its old price kept.
   */
  lemma AfterLookupChanges(q: Part, found: Option<real>, t: Timestamp)
    ensures var p := AfterLookup(q, found, t);
      && SamePartOtherwise(q, p)
      && (p.status == Priced || p.status == PriceFailed)
      && (p.status == Priced <==> found.Some?)
      && (p.status == Priced ==> p.price == found && p.lastPriceUpdate == Some(t))
      && (p.status == PriceFailed ==> p.price == q.price && p.lastPriceUpdate == q.lastPriceUpdate)
  {
  }

  /** The error for a part whose lookup found no price. */
  function NotFoundError(q: Part, t: Timestamp): ProcessingError
  {
    NewError(q.partNumber, PartNotFound, NOT_FOUND_MESSAGE, t, q.pageReference)
  }

  /** The parts of ps whose status is `Priced`, in order. */
  function PricedOnly(ps: seq<Part>): (r: seq<Part>)
    ensures |r| <= |ps|
    ensures forall q :: q in r <==> q in ps && q.status == Priced
  {
    if ps == [] then []
    else PricedOnly(ps[..|ps| - 1]) + (if ps[|ps| - 1].status == Priced then [ps[|ps| - 1]] else [])
  }

  /** The result after looking up one more part, q, which read `found` at time t. */
  function LookupStep(r: FetchResult, q: Part, found: Option<real>, t: Timestamp): FetchResult
  {
    var p := AfterLookup(q, found, t);
    if found.Some? then FetchResult(r.updated + [p], r.errors, r.parts + [p])
    else FetchResult(r.updated, r.errors + [NotFoundError(q, t)], r.parts + [p])
  }

  /** The lookups of all of ps through `read`, the i-th at clock reading i. */
  function LookupAll(ps: seq<Part>, read: string -> Option<real>, clock: nat -> Timestamp): FetchResult
  {
    if ps == [] then FetchResult([], [], [])
    else
      var i := |ps| - 1;
      LookupStep(LookupAll(ps[..i], read, clock), ps[i], read(ps[i].partNumber), clock(i))
  }

  /** Every part is looked up once, in place: the i-th part after the run is the i-th part after its own lookup. */
  lemma {:induction false} LookupAllParts(ps: seq<Part>, read: string -> Option<real>, clock: nat -> Timestamp)
    ensures |LookupAll(ps, read, clock).parts| == |ps|
    ensures forall i :: 0 <= i < |ps| ==>
      LookupAll(ps, read, clock).parts[i] == AfterLookup(ps[i], read(ps[i].partNumber), clock(i))
  {
    if ps != [] {
      var i := |ps| - 1;
      var front := ps[..i];
      LookupAllParts(front, read, clock);
      var parts0 := LookupAll(front, read, clock).parts;
      var parts := LookupAll(ps, read, clock).parts;
      assert parts == parts0 + [AfterLookup(ps[i], read(ps[i].partNumber), clock(i))];
      forall j | 0 <= j < |ps|
        ensures parts[j] == AfterLookup(ps[j], read(ps[j].partNumber), clock(j))
      {
        if j < i {
          assert parts[j] == parts0[j];
          assert ps[j] == front[j];
        }
      }
    }
  }

  /**
   * The updated list is the parts that ended priced, in order, and there is
   * one error for each part left unpriced.
   */
  lemma {:induction false} LookupAllAccounts(ps: seq<Part>, read: string -> Option<real>, clock: nat -> Timestamp)
    ensures var r := LookupAll(ps, read, clock);
      && r.updated == PricedOnly(r.parts)
      && |r.updated| + |r.errors| == |ps|
  {
    if ps != [] {
      var i := |ps| - 1;
      LookupAllAccounts(ps[..i], read, clock);
      LookupAllParts(ps[..i], read, clock);
      LookupAllParts(ps, read, clock);
      var r := LookupAll(ps, read, clock);
      var r0 := LookupAll(ps[..i], read, clock);
      AfterLookupChanges(ps[i], read(ps[i].partNumber), clock(i));
      assert r.parts[..i] == r0.parts;
    }
  }

  /** Every error is a not-found error for one looked-up part that showed no price. */
  lemma {:induction false} LookupErrorsAreNotFound(ps: seq<Part>, read: string -> Option<real>, clock: nat -> Timestamp)
    ensures forall e :: e in LookupAll(ps, read, clock).errors ==>
      (exists i :: 0 <= i < |ps| && e == NotFoundError(ps[i], clock(i)) && read(ps[i].partNumber).None?)
  {
    if ps != [] {
      var front := ps[..|ps| - 1];
      LookupErrorsAreNotFound(front, read, clock);
      forall e | e in LookupAll(ps, read, clock).errors
        ensures exists i :: 0 <= i < |ps| && e == NotFoundError(ps[i], clock(i)) && read(ps[i].partNumber).None?
      {
        if e in LookupAll(front, read, clock).errors {
          var i :| 0 <= i < |front| && e == NotFoundError(front[i], clock(i)) && read(front[i].partNumber).None?;
          assert ps[i] == front[i];
        }
      }
    }
  }

  /** `fetch_prices` as a whole, on the oracle's outcomes. */
  function FetchRun(credentials: Dict, parts: seq<Part>, portal: Portal): FetchResult
  {
    if portal.setupFails then
      FetchResult([], [NewError(WHOLE_RUN, Unexpected, CRITICAL_PREFIX + portal.crashMessage, portal.clock(0), 0)], parts)
    else if !LoginSucceeds(credentials, portal.login) then
      FetchResult([], [NewError(WHOLE_RUN, LoginFailed, LOGIN_FAILED_MESSAGE, portal.clock(0), 0)], parts)
    else if !portal.navigationOk then
      FetchResult([], [NewError(WHOLE_RUN, NetworkError, NAVIGATION_FAILED_MESSAGE, portal.clock(0), 0)], parts)
    else LookupAll(parts, PriceReader(portal), portal.clock)
  }

  /**
   * Whatever happens, the run hands back one part per part given, each the same
   * part apart from its price, timestamp and status, and every part it reports
   * as updated is one of them.
   */
  lemma FetchRunKeepsParts(credentials: Dict, parts: seq<Part>, portal: Portal)
    ensures var r := FetchRun(credentials, parts, portal);
      && |r.parts| == |parts|
      && (forall i :: 0 <= i < |parts| ==> SamePartOtherwise(parts[i], r.parts[i]))
      && (forall u :: u in r.updated ==> u in r.parts)
  {
    if !portal.setupFails && LoginSucceeds(credentials, portal.login) && portal.navigationOk {
      var read := PriceReader(portal);
      LookupAllParts(parts, read, portal.clock);
      LookupAllAccounts(parts, read, portal.clock);
      forall i | 0 <= i < |parts|
        ensures SamePartOtherwise(parts[i], LookupAll(parts, read, portal.clock).parts[i])
      {
        AfterLookupChanges(parts[i], read(parts[i].partNumber), portal.clock(i));
      }
    }
  }

  /**
   * A failed login or a failed navigation ends the run with nothing updated, one
   * whole-run error of the matching type, and every part as it was.
   */
  lemma EarlyFailureLeavesParts(credentials: Dict, parts: seq<Part>, portal: Portal)
    requires !portal.setupFails
    ensures var r := FetchRun(credentials, parts, portal);
      && (!LoginSucceeds(credentials, portal.login) ==>
            r.updated == [] && r.parts == parts && |r.errors| == 1
            && r.errors[0].partNumber == WHOLE_RUN && r.errors[0].errorType == LoginFailed)
      && (LoginSucceeds(credentials, portal.login) && !portal.navigationOk ==>
            r.updated == [] && r.parts == parts && |r.errors| == 1
            && r.errors[0].partNumber == WHOLE_RUN && r.errors[0].errorType == NetworkError)
  {
  }

  /** Without credentials for the dealer portal the login fails, whatever the portal shows. */
  lemma MissingCredentialsFailLogin(credentials: Dict, page: LoginPage)
    requires Get(credentials, JACUZZI_SITE_NAME).None?
    ensures !LoginSucceeds(credentials, page) && !LoginSubmits(credentials, page)
  {
  }

  /** `[x] * n` */
  function Repeat(x: real, n: nat): (r: seq<real>)
    ensures |r| == n
  {
    if n == 0 then [] else Repeat(x, n - 1) + [x]
  }

  /** The pauses of chunk c follow those of the chunks before it. */
  lemma NextChunkPauses(s0: seq<real>, chunks: seq<seq<Part>>, c: nat)
    requires c < |chunks|
    ensures s0 + LookupSleeps(chunks, c) + Repeat(REQUEST_DELAY, |chunks[c]|)
              + (if c + 1 < |chunks| then [2.0 * REQUEST_DELAY] else [])
            == s0 + LookupSleeps(chunks, c + 1)
  {
    var rep := Repeat(REQUEST_DELAY, |chunks[c]|);
    var tail: seq<real> := if c + 1 < |chunks| then [2.0 * REQUEST_DELAY] else [];
    AppendAssoc(s0, LookupSleeps(chunks, c), rep);
    AppendAssoc(s0, LookupSleeps(chunks, c) + rep, tail);
  }

  lemma {:induction false} RepeatHoldsOnly(x: real, n: nat, y: real)
    requires y != x
    ensures y !in Repeat(x, n)
  {
    if n > 0 {
      RepeatHoldsOnly(x, n - 1, y);
    }
  }

  /**
   * The pauses of the first c chunks: one per lookup, and a double pause after
   * each chunk that is not the last.
   */
  function LookupSleeps(chunks: seq<seq<Part>>, c: nat): seq<real>
    requires c <= |chunks|
  {
    if c == 0 then []
    else LookupSleeps(chunks, c - 1) + Repeat(REQUEST_DELAY, |chunks[c - 1]|)
         + (if c < |chunks| then [2.0 * REQUEST_DELAY] else [])
  }

  /** The pauses of a whole run. */
  function SleepTrace(credentials: Dict, parts: seq<Part>, portal: Portal): seq<real>
  {
    if portal.setupFails then []
    else
      (if LoginSubmits(credentials, portal.login) then [LOGIN_WAIT] else [])
      + (if LoginSucceeds(credentials, portal.login) && portal.navigationOk then ChunkedPauses(parts) else [])
  }

  /** The pauses of the chunk loop over all of parts. */
  function ChunkedPauses(parts: seq<Part>): seq<real>
  {
    LookupSleeps(ChunkList(parts, CHUNK_SIZE), |ChunkList(parts, CHUNK_SIZE)|)
  }

  /** Where chunk c starts: c chunks of ten in, or the end of the list. */
  function ChunkStart(n: nat, c: nat): (k: nat)
    ensures k <= n
    ensures k == n || k == c * CHUNK_SIZE
  {
    if c * CHUNK_SIZE < n then c * CHUNK_SIZE else n
  }

  /** Chunk c covers the parts from where it starts to where the next one starts. */
  lemma ChunkBounds(parts: seq<Part>, c: nat)
    requires c < |ChunkList(parts, CHUNK_SIZE)|
    ensures ChunkStart(|parts|, c) + |ChunkList(parts, CHUNK_SIZE)[c]| == ChunkStart(|parts|, c + 1)
  {
    ChunkListSlice(parts, CHUNK_SIZE, c);
    ChunkStartStep(|parts|, c);
  }

  /** The chunks end at the end of the list. */
  lemma ChunksEnd(parts: seq<Part>)
    ensures ChunkStart(|parts|, |ChunkList(parts, CHUNK_SIZE)|) == |parts|
  {
    ChunkListCount(parts, CHUNK_SIZE);
  }

  lemma ChunkStartStep(n: nat, c: nat)
    requires c * CHUNK_SIZE < n
    ensures ChunkStart(n, c) == c * CHUNK_SIZE
    ensures ChunkStart(n, c + 1) == if c * CHUNK_SIZE + CHUNK_SIZE < n then c * CHUNK_SIZE + CHUNK_SIZE else n
  {
    assert (c + 1) * CHUNK_SIZE == c * CHUNK_SIZE + CHUNK_SIZE;
  }

  lemma {:induction false} LookupSleepsCount(chunks: seq<seq<Part>>, c: nat)
    requires 0 < c <= |chunks|
    ensures multiset(LookupSleeps(chunks, c))[2.0 * REQUEST_DELAY] == if c < |chunks| then c else c - 1
    ensures multiset(LookupSleeps(chunks, c))[REQUEST_DELAY] == |Flatten(chunks[..c])|
  {
    var rep := Repeat(REQUEST_DELAY, |chunks[c - 1]|);
    assert multiset(rep)[2.0 * REQUEST_DELAY] == 0 by {
      RepeatHoldsOnly(REQUEST_DELAY, |chunks[c - 1]|, 2.0 * REQUEST_DELAY);
    }
    RepeatCount(REQUEST_DELAY, |chunks[c - 1]|);
    FlattenSnoc(chunks[..c - 1], chunks[c - 1]);
    assert chunks[..c] == chunks[..c - 1] + [chunks[c - 1]];
    if c > 1 {
      LookupSleepsCount(chunks, c - 1);
    }
  }

  lemma {:induction false} RepeatCount(x: real, n: nat)
    ensures multiset(Repeat(x, n))[x] == n
  {
    if n > 0 {
      RepeatCount(x, n - 1);
    }
  }

  lemma {:induction false} FlattenSnoc<T>(ss: seq<seq<T>>, s: seq<T>)
    ensures Flatten(ss + [s]) == Flatten(ss) + s
  {
    if ss != [] {
      assert (ss + [s])[1..] == ss[1..] + [s];
      FlattenSnoc(ss[1..], s);
    }
  }

  /**
   * Rate limiting: one pause per lookup, a double pause between consecutive
   * chunks of ten, none after the last chunk (the last pause is a single one).
   */
  lemma LookupPauses(parts: seq<Part>)
    requires parts != []
    ensures var chunks := ChunkList(parts, CHUNK_SIZE);
      var trace := LookupSleeps(chunks, |chunks|);
      && multiset(trace)[REQUEST_DELAY] == |parts|
      && multiset(trace)[2.0 * REQUEST_DELAY] == |chunks| - 1
      && trace[|trace| - 1] == REQUEST_DELAY
  {
    var chunks := ChunkList(parts, CHUNK_SIZE);
    ChunkListPartition(parts, CHUNK_SIZE);
    ChunkListCount(parts, CHUNK_SIZE);
    assert chunks[..|chunks|] == chunks;
    LookupSleepsCount(chunks, |chunks|);
  }

  lemma AppendAssoc<T>(a: seq<T>, b: seq<T>, c: seq<T>)
    ensures (a + b) + c == a + (b + c)
  {
  }

  /** The state of the lookups after the first k parts. */
  ghost predicate LookedUp(parts: seq<Part>, read: string -> Option<real>, clock: nat -> Timestamp, k: nat,
                           updated: seq<Part>, errors: seq<ProcessingError>, post: seq<Part>)
  {
    && k <= |parts| && |post| == |parts|
    && FetchResult(updated, errors, post[..k]) == LookupAll(parts[..k], read, clock)
    && post[k..] == parts[k..]
  }

  lemma LookedUpStep(parts: seq<Part>, read: string -> Option<real>, clock: nat -> Timestamp, k: nat,
                     updated: seq<Part>, errors: seq<ProcessingError>, post: seq<Part>)
    requires k < |parts| && LookedUp(parts, read, clock, k, updated, errors, post)
    ensures var found := read(parts[k].partNumber);
      var r := LookupStep(FetchResult(updated, errors, post[..k]), parts[k], found, clock(k));
      LookedUp(parts, read, clock, k + 1, r.updated, r.errors, post[k := AfterLookup(parts[k], found, clock(k))])
  {
    assert parts[..k + 1][..k] == parts[..k];
    var p := AfterLookup(parts[k], read(parts[k].partNumber), clock(k));
    var post' := post[k := p];
    assert post'[..k + 1] == post[..k] + [p];
    assert post'[k + 1..] == post[k + 1..] == parts[k + 1..] by {
      assert post[k + 1..] == post[k..][1..];
      assert parts[k + 1..] == parts[k..][1..];
    }
  }

  /** Once every part is looked up, the state is the whole run's. */
  lemma LookedUpAll(parts: seq<Part>, read: string -> Option<real>, clock: nat -> Timestamp,
                    updated: seq<Part>, errors: seq<ProcessingError>, post: seq<Part>)
    requires LookedUp(parts, read, clock, |parts|, updated, errors, post)
    ensures FetchResult(updated, errors, post) == LookupAll(parts, read, clock)
  {
    assert post[..|parts|] == post && parts[..|parts|] == parts;
  }

  class PriceFetcher {
    const credentials: Dict
    /** `self.driver is not None` */
    var driverOpen: bool
    var isLoggedIn: bool
    /** The `time.sleep` calls of the session, in seconds, in order. */
    ghost var sleeps: seq<real>

    constructor (credentials: Dict)
      ensures this.credentials == credentials
      ensures !driverOpen && !isLoggedIn && sleeps == []
    {
      this.credentials := credentials;
      driverOpen := false;
      isLoggedIn := false;
      sleeps := [];
    }

    /** `_login`: fills in and sends the form, waits, and checks the page that comes back. */
    method Login(portal: Portal) returns (ok: bool)
      modifies this
      ensures ok == LoginSucceeds(credentials, portal.login)
      ensures isLoggedIn == (old(isLoggedIn) || ok)
      ensures sleeps == old(sleeps) + (if LoginSubmits(credentials, portal.login) then [LOGIN_WAIT] else [])
      ensures driverOpen == old(driverOpen)
    {
      if !CredentialsComplete(credentials) {
        return false;
      }
      match portal.login
      case LoginPageFails =>
        ok := false;
      case Submitted(pageSource) =>
        sleeps := sleeps + [LOGIN_WAIT];
        var page := LowerStr(pageSource);
        if Contains(page, "logout") || Contains(page, "welcome") {
          isLoggedIn := true;
          ok := true;
        } else {
          ok := false;
        }
    }

    /** `_cleanup_driver`: whatever state the browser is in, the driver is gone afterwards. */
    method CleanupDriver()
      modifies this
      ensures !driverOpen
      ensures isLoggedIn == old(isLoggedIn) && sleeps == old(sleeps)
    {
      if driverOpen {
        driverOpen := false;
      }
    }

    /** One lookup of the chunk loop: the part at index k is priced or failed. */
    method LookupPart(parts: seq<Part>, portal: Portal, k: nat,
                      updated: seq<Part>, errors: seq<ProcessingError>, post: seq<Part>)
      returns (updated': seq<Part>, errors': seq<ProcessingError>, post': seq<Part>)
      requires k < |parts| && LookedUp(parts, PriceReader(portal), portal.clock, k, updated, errors, post)
      ensures LookedUp(parts, PriceReader(portal), portal.clock, k + 1, updated', errors', post')
    {
      LookedUpStep(parts, PriceReader(portal), portal.clock, k, updated, errors, post);
      var part := parts[k];
      var price := FetchPartPrice(portal.lookup(part.partNumber));
      if price.Some? {
        part := part.(price := price, lastPriceUpdate := Some(portal.clock(k)), status := Priced);
        updated', errors' := updated + [part], errors;
      } else {
        part := part.(status := PriceFailed);
        updated', errors' := updated, errors + [NotFoundError(parts[k], portal.clock(k))];
      }
      post' := post[k := part];
    }

    /**
     * The lookups of one chunk: the n parts from index k0 on. The pause that
     * follows each lookup is recorded by the caller, one per lookup.
     */
    method LookupChunk(parts: seq<Part>, portal: Portal, k0: nat, n: nat,
                       updated: seq<Part>, errors: seq<ProcessingError>, post: seq<Part>)
      returns (updated': seq<Part>, errors': seq<ProcessingError>, post': seq<Part>)
      requires k0 + n <= |parts| && LookedUp(parts, PriceReader(portal), portal.clock, k0, updated, errors, post)
      ensures LookedUp(parts, PriceReader(portal), portal.clock, k0 + n, updated', errors', post')
    {
      updated', errors', post' := updated, errors, post;
      for k := k0 to k0 + n
        invariant LookedUp(parts, PriceReader(portal), portal.clock, k, updated', errors', post')
      {
        updated', errors', post' := LookupPart(parts, portal, k, updated', errors', post');
      }
    }

    /** The chunk loop of `fetch_prices`: chunks of ten, a double pause between chunks. */
    method LookupChunks(parts: seq<Part>, portal: Portal)
      returns (updated: seq<Part>, errors: seq<ProcessingError>, post: seq<Part>)
      modifies this
      ensures FetchResult(updated, errors, post) == LookupAll(parts, PriceReader(portal), portal.clock)
      ensures sleeps == old(sleeps) + ChunkedPauses(parts)
      ensures driverOpen == old(driverOpen) && isLoggedIn == old(isLoggedIn)
    {
      var chunks := ChunkList(parts, CHUNK_SIZE);
      updated, errors, post := [], [], parts;
      var k := 0;
      for c := 0 to |chunks|
        invariant k == ChunkStart(|parts|, c)
        invariant LookedUp(parts, PriceReader(portal), portal.clock, k, updated, errors, post)
        invariant sleeps == old(sleeps) + LookupSleeps(chunks, c)
        invariant driverOpen == old(driverOpen) && isLoggedIn == old(isLoggedIn)
      {
        k, updated, errors, post := LookupNextChunk(parts, portal, chunks, c, k, updated, errors, post);
        ChunkPauses(chunks, c, old(sleeps));
      }
      ChunksEnd(parts);
      LookedUpAll(parts, PriceReader(portal), portal.clock, updated, errors, post);
    }

    /** The lookups of one round of the chunk loop: chunk c, which starts at index k. */
    method LookupNextChunk(parts: seq<Part>, portal: Portal, chunks: seq<seq<Part>>, c: nat, k: nat,
                           updated: seq<Part>, errors: seq<ProcessingError>, post: seq<Part>)
      returns (k': nat, updated': seq<Part>, errors': seq<ProcessingError>, post': seq<Part>)
      requires chunks == ChunkList(parts, CHUNK_SIZE) && c < |chunks| && k == ChunkStart(|parts|, c)
      requires LookedUp(parts, PriceReader(portal), portal.clock, k, updated, errors, post)
      ensures k' == ChunkStart(|parts|, c + 1)
      ensures LookedUp(parts, PriceReader(portal), portal.clock, k', updated', errors', post')
    {
      ChunkBounds(parts, c);
      var n := |chunks[c]|;
      updated', errors', post' := LookupChunk(parts, portal, k, n, updated, errors, post);
      k' := k + n;
    }

    /** The pauses of chunk c: one after each of its lookups, then the double pause unless it is the last. */
    method ChunkPauses(chunks: seq<seq<Part>>, c: nat, ghost s0: seq<real>)
      requires c < |chunks| && sleeps == s0 + LookupSleeps(chunks, c)
      modifies this
      ensures sleeps == s0 + LookupSleeps(chunks, c + 1)
      ensures driverOpen == old(driverOpen) && isLoggedIn == old(isLoggedIn)
    {
      sleeps := sleeps + Repeat(REQUEST_DELAY, |chunks[c]|);
      if c + 1 < |chunks| {
        sleeps := sleeps + [2.0 * REQUEST_DELAY];
      }
      NextChunkPauses(s0, chunks, c);
    }

    /**
     * The body of `fetch_prices` once the browser is up: log in, open the
     * lookup page, and look every part up.
     */
    method LoggedInRun(parts: seq<Part>, portal: Portal)
      returns (updated: seq<Part>, errors: seq<ProcessingError>, post: seq<Part>)
      requires !portal.setupFails
      modifies this
      ensures FetchResult(updated, errors, post) == FetchRun(credentials, parts, portal)
      ensures sleeps == old(sleeps) + SleepTrace(credentials, parts, portal)
      ensures driverOpen == old(driverOpen)
      ensures isLoggedIn == (old(isLoggedIn) || LoginSucceeds(credentials, portal.login))
    {
      updated, errors, post := [], [], parts;
      ghost var s0 := sleeps;
      var loggedIn := Login(portal);
      ghost var s1 := sleeps;
      if !loggedIn {
        errors := [NewError(WHOLE_RUN, LoginFailed, LOGIN_FAILED_MESSAGE, portal.clock(0), 0)];
      } else if !portal.navigationOk {
        errors := [NewError(WHOLE_RUN, NetworkError, NAVIGATION_FAILED_MESSAGE, portal.clock(0), 0)];
      } else {
        updated, errors, post := LookupChunks(parts, portal);
        AppendAssoc(s0, [LOGIN_WAIT], ChunkedPauses(parts));
      }
    }

    /**
     * `fetch_prices`: the browser is always closed at the end. A browser that
     * cannot be started is the one critical error; `_login`, the navigation and
     * each lookup absorb their own failures.
     */
    method FetchPrices(parts: seq<Part>, portal: Portal)
      returns (updated: seq<Part>, errors: seq<ProcessingError>, post: seq<Part>)
      modifies this
      ensures FetchResult(updated, errors, post) == FetchRun(credentials, parts, portal)
      ensures sleeps == old(sleeps) + SleepTrace(credentials, parts, portal)
      ensures !driverOpen
      ensures isLoggedIn == (old(isLoggedIn) || (!portal.setupFails && LoginSucceeds(credentials, portal.login)))
    {
      if portal.setupFails {
        updated, errors, post := [], [NewError(WHOLE_RUN, Unexpected, CRITICAL_PREFIX + portal.crashMessage, portal.clock(0), 0)], parts;
      } else {
        driverOpen := true;
        updated, errors, post := LoggedInRun(parts, portal);
      }
      CleanupDriver();
    }
  }
}
