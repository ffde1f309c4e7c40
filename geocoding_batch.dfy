/** The batch geocoding controller of src/services/geocodingBatch.ts: a
    single-run state machine that takes a page of records needing
    geocoding, resolves each record's owner address and then its holder
    address, writes the outcome back, counts successes and failures and
    reports progress, stopping between records once `isRunning` is cleared.

    The record store is modelled by what it answers: the rows the page
    query returns (`PageReply`) and, per record, the reply to the update.
    The environment of the i-th record of the page (`env(i)`) also holds the
    clock readings and HTTP replies of its two lookups, and whether
    `stopBatchGeocoding` was called while that record was in flight. */
module GeocodingBatch {
  import opened Wrappers
  import opened Geocoding
  import opened Sequences

  /** A progress snapshot as the observer receives it. */
  datatype Progress = Progress(total: nat, processed: nat, successful: nat, failed: nat, isRunning: bool)

  /** The final geocoding status a run writes for a record. */
  datatype Status = Completed | Failed

  /** The text stored in the `geocoding_status` column. */
  function StatusText(s: Status): string {
    match s
    case Completed => "completed"
    case Failed => "failed"
  }

  /** The update sent for a record: status, `geocoded_at`, and the
      coordinates of each side that resolved (`None`: the column is not part
      of the update). */
  datatype Payload = Payload(
    status: Status,
    geocodedAt: int,
    ownerCoords: Option<(Coordinate, Coordinate)>,
    holderCoords: Option<(Coordinate, Coordinate)>)

  datatype StoreWrite = StoreWrite(id: string, payload: Payload)

  /** The store's reply to a record's update: stored, an error returned, or
      the call raised; in the last case the "mark as failed" update that
      follows may itself raise. */
  datatype UpdateReply = Stored | ErrorReturned | Raised(markFailedRaises: bool)

  /** Everything the outside world contributes while one record is processed. */
  datatype RecordEnv = RecordEnv(
    startedAt: int,
    owner: Exchange,
    holder: Exchange,
    update: UpdateReply,
    failedAt: int,
    stopRequested: bool)

  /** The store's answer to the page query: an error, or the table's rows in
      the store's order. */
  datatype PageReply = QueryError | Rows(table: seq<PropertyRecord>)

  datatype RunError = AlreadyRunning | PageQueryFailed | MarkFailedRaised

  datatype RunOutcome = Finished | Threw(error: RunError)

  /** The status filter of the page query: null, "pending" or "failed". */
  predicate NeedsGeocoding(p: PropertyRecord) {
    p.status == None || p.status == Some("pending") || p.status == Some("failed")
  }

  function CountNeedingGeocoding(table: seq<PropertyRecord>): nat {
    if table == [] then 0
    else (if NeedsGeocoding(table[0]) then 1 else 0) + CountNeedingGeocoding(table[1..])
  }

  function Min(a: nat, b: nat): nat {
    if a <= b then a else b
  }

  /** The page query: the first `limit` rows, in store order, whose status
      makes them eligible. */
  function SelectPage(table: seq<PropertyRecord>, limit: nat): (page: seq<PropertyRecord>)
    ensures |page| == Min(limit, CountNeedingGeocoding(table))
    ensures forall i :: 0 <= i < |page| ==> NeedsGeocoding(page[i]) && page[i] in table
  {
    if limit == 0 || table == [] then []
    else if NeedsGeocoding(table[0]) then [table[0]] + SelectPage(table[1..], limit - 1)
    else SelectPage(table[1..], limit)
  }

  /** A table whose rows are all "completed" yields an empty page: running
      the batch again changes nothing. */
  lemma {:induction false} CompletedTableYieldsEmptyPage(table: seq<PropertyRecord>, limit: nat)
    requires forall i :: 0 <= i < |table| ==> table[i].status == Some("completed")
    ensures SelectPage(table, limit) == []
  {
    if table != [] && limit != 0 {
      assert !NeedsGeocoding(table[0]);
      CompletedTableYieldsEmptyPage(table[1..], limit);
    }
  }

  function Coords(r: Option<GeocodeResult>): Option<(Coordinate, Coordinate)> {
    match r
    case Some(g) => Some((g.latitude, g.longitude))
    case None => None
  }

  /** The update for a record: "completed" exactly when some coordinates are
      written, and coordinates only for the side that resolved. */
  function MainPayload(startedAt: int, owner: Option<GeocodeResult>, holder: Option<GeocodeResult>): (u: Payload)
    ensures u.status == Completed <==> u.ownerCoords.Some? || u.holderCoords.Some?
    ensures u.ownerCoords.Some? <==> owner.Some?
    ensures u.holderCoords.Some? <==> holder.Some?
    ensures owner.Some? ==> u.ownerCoords.value == (owner.value.latitude, owner.value.longitude)
    ensures holder.Some? ==> u.holderCoords.value == (holder.value.latitude, holder.value.longitude)
  {
    Payload(if owner.Some? || holder.Some? then Completed else Failed, startedAt, Coords(owner), Coords(holder))
  }

  /** The update of the error path: "failed", no coordinates. */
  function MarkFailedPayload(at: int): Payload {
    Payload(Failed, at, None, None)
  }

  /** A record's update raised and so did the update that marks it failed:
      the exception leaves the loop. */
  predicate AbortsRun(e: RecordEnv) {
    e.update == Raised(true)
  }

  /** What happened to one record: the record, its environment, the two
      lookup results and the requests the lookups sent. The counters, the
      updates and the snapshots of a run depend on a record only through
      its step. */
  datatype Step = Step(
    record: PropertyRecord,
    env: RecordEnv,
    owner: Option<GeocodeResult>,
    holder: Option<GeocodeResult>,
    requests: seq<SearchRequest>)

  /** The step the controller takes for record `p`: the owner lookup, then
      the holder lookup, each sending a request only for an address of two
      or more parts. */
  function StepOf(p: PropertyRecord, e: RecordEnv): Step {
    Step(p, e, Geocode(OwnerAddress(p), e.owner.reply), Geocode(HolderAddress(p), e.holder.reply),
         RequestsFor(OwnerAddress(p), e.owner) + RequestsFor(HolderAddress(p), e.holder))
  }

  /** The steps for the first `k` records of the page, in page order,
      each taken by `take` (the controller's own is `StepOf`). */
  function Steps(page: seq<PropertyRecord>, env: nat -> RecordEnv, k: nat,
                 take: (PropertyRecord, RecordEnv) -> Step): (steps: seq<Step>)
    requires k <= |page|
  {
    seq(k, j requires 0 <= j < k => take(page[j], env(j)))
  }

  /** `take` agrees with `StepOf`. The loop is verified against such a
      `take`, so that its proof does not look inside the lookups. */
  ghost predicate TakesStepOf(take: (PropertyRecord, RecordEnv) -> Step) {
    forall p, e {:trigger StepOf(p, e)} :: take(p, e) == StepOf(p, e)
  }

  /** Steps are taken record by record: a shorter run's steps are a prefix
      of a longer one's. */
  lemma StepsPrefix(page: seq<PropertyRecord>, env: nat -> RecordEnv, j: nat, k: nat,
                    take: (PropertyRecord, RecordEnv) -> Step)
    requires j <= k <= |page|
    ensures Steps(page, env, j, take) == Steps(page, env, k, take)[..j]
  {
  }

  /** One more record adds its own step at the end. */
  lemma StepsSnoc(page: seq<PropertyRecord>, env: nat -> RecordEnv, k: nat,
                  take: (PropertyRecord, RecordEnv) -> Step)
    requires k < |page|
    ensures Steps(page, env, k + 1, take) == Steps(page, env, k, take) + [take(page[k], env(k))]
  {
  }

  predicate Resolved(s: Step) {
    s.owner.Some? || s.holder.Some?
  }

  /** The updates sent for one step: the main update, and the "mark as
      failed" update after the main one raised. */
  function StepWrites(s: Step): seq<StoreWrite> {
    [StoreWrite(s.record.id, MainPayload(s.env.startedAt, s.owner, s.holder))]
    + (if s.env.update.Raised? then [StoreWrite(s.record.id, MarkFailedPayload(s.env.failedAt))] else [])
  }

  /** How much one step adds to `successful` and to `failed`: the decision
      counts one; an update that returns an error, or raises before the
      record is marked failed, counts one more failure. */
  function SuccessDelta(s: Step): nat {
    if Resolved(s) then 1 else 0
  }

  function FailureDelta(s: Step): nat {
    (if Resolved(s) then 0 else 1)
    + (if s.env.update == ErrorReturned || s.env.update == Raised(false) then 1 else 0)
  }

  /** The running totals, updates and requests of a sequence of steps. */
  function Successes(steps: seq<Step>): nat {
    if steps == [] then 0 else Successes(steps[..|steps| - 1]) + SuccessDelta(steps[|steps| - 1])
  }

  function Failures(steps: seq<Step>): nat {
    if steps == [] then 0 else Failures(steps[..|steps| - 1]) + FailureDelta(steps[|steps| - 1])
  }

  function Writes(steps: seq<Step>): seq<StoreWrite> {
    if steps == [] then [] else Writes(steps[..|steps| - 1]) + StepWrites(steps[|steps| - 1])
  }

  function Requests(steps: seq<Step>): seq<SearchRequest> {
    if steps == [] then [] else Requests(steps[..|steps| - 1]) + steps[|steps| - 1].requests
  }

  /** The snapshots emitted after each step; the flag is the one read at
      emit time, cleared if a stop arrived during the record. */
  function Snapshots(total: nat, steps: seq<Step>): (r: seq<Progress>) {
    seq(|steps|, j requires 0 <= j < |steps| => Snapshot(total, steps, j))
  }

  /** The snapshot after step `j`: the totals of the steps up to it. */
  function Snapshot(total: nat, steps: seq<Step>, j: nat): Progress
    requires j < |steps|
  {
    Progress(total, j + 1, Successes(steps[..j + 1]), Failures(steps[..j + 1]), !steps[j].env.stopRequested)
  }

  /** Appending a step adds its own share to every total, and one
      snapshot. */
  lemma StepsExtend(steps: seq<Step>, s: Step)
    ensures var steps' := steps + [s];
      && Successes(steps') == Successes(steps) + SuccessDelta(s)
      && Failures(steps') == Failures(steps) + FailureDelta(s)
      && Writes(steps') == Writes(steps) + StepWrites(s)
      && Requests(steps') == Requests(steps) + s.requests
  {
    assert (steps + [s])[..|steps|] == steps;
  }

  /** A later step does not change an earlier snapshot; the snapshot of
      the last step carries the totals of all steps. */
  lemma SnapshotsExtend(steps: seq<Step>, s: Step, total: nat)
    ensures var steps' := steps + [s];
      && (forall j :: 0 <= j < |steps| ==> Snapshot(total, steps', j) == Snapshot(total, steps, j))
      && Snapshot(total, steps', |steps|) ==
           Progress(total, |steps'|, Successes(steps'), Failures(steps'), !s.env.stopRequested)
  {
    var steps' := steps + [s];
    forall j | 0 <= j < |steps|
      ensures Snapshot(total, steps', j) == Snapshot(total, steps, j)
    {
      assert steps'[..j + 1] == steps[..j + 1];
    }
    assert steps'[..|steps'|] == steps';
  }

  /** One more step adds one snapshot at the end. */
  lemma SnapshotsSnoc(total: nat, steps: seq<Step>, s: Step)
    ensures var steps' := steps + [s];
      Snapshots(total, steps') ==
        Snapshots(total, steps) + [Progress(total, |steps'|, Successes(steps'), Failures(steps'), !s.env.stopRequested)]
  {
    SnapshotsExtend(steps, s, total);
  }

  /** The last request of two batches is the second's, if it has one. */
  lemma LastAtAppend(last: int, a: seq<SearchRequest>, b: seq<SearchRequest>)
    ensures LastAt(last, a + b) == LastAt(LastAt(last, a), b)
  {
  }

  /** Scanning from record `i`, the number of records the loop enters: it
      stops after a record during which a stop was requested or whose
      failure handling raised, or at the end of the page. */
  function EnteredFrom(page: seq<PropertyRecord>, env: nat -> RecordEnv, i: nat): (m: nat)
    requires i <= |page|
    ensures i <= m <= |page|
    decreases |page| - i
  {
    if i == |page| then i
    else if AbortsRun(env(i)) || env(i).stopRequested then i + 1
    else EnteredFrom(page, env, i + 1)
  }

  /** The number of records a run enters; none when a stop arrived during
      the page query. */
  function Entered(page: seq<PropertyRecord>, env: nat -> RecordEnv, stopDuringQuery: bool): nat {
    if stopDuringQuery then 0 else EnteredFrom(page, env, 0)
  }

  /** Whether the run ends by the exception of its last entered record. */
  predicate RunAborts(page: seq<PropertyRecord>, env: nat -> RecordEnv, stopDuringQuery: bool) {
    var m := Entered(page, env, stopDuringQuery);
    m > 0 && AbortsRun(env(m - 1))
  }

  /** The `processed` counter at the end of a run. */
  function ProcessedCount(page: seq<PropertyRecord>, env: nat -> RecordEnv, stopDuringQuery: bool): nat {
    Entered(page, env, stopDuringQuery) - (if RunAborts(page, env, stopDuringQuery) then 1 else 0)
  }

  /** Entered from record `i` on, a run whose record `i` raises ends there. */
  lemma AbortedAt(page: seq<PropertyRecord>, env: nat -> RecordEnv, i: nat)
    requires i < |page| && AbortsRun(env(i))
    requires Entered(page, env, false) == EnteredFrom(page, env, i)
    ensures Entered(page, env, false) == i + 1
    ensures RunAborts(page, env, false) && ProcessedCount(page, env, false) == i
  {
  }

  /** When the loop leaves without an exception, the records it entered are
      the `i` it went through, and the run did not abort. */
  lemma FinishedAt(page: seq<PropertyRecord>, env: nat -> RecordEnv, stopped: bool, i: nat)
    requires i <= |page| && (stopped ==> i == 0) && (i > 0 ==> !AbortsRun(env(i - 1)))
    requires !stopped ==>
      Entered(page, env, false) == (if i > 0 && env(i - 1).stopRequested then i else EnteredFrom(page, env, i))
    requires i == |page| || stopped || (i > 0 && env(i - 1).stopRequested)
    ensures Entered(page, env, stopped) == i
    ensures !RunAborts(page, env, stopped) && ProcessedCount(page, env, stopped) == i
  {
  }

  /** Each step raises `successful + failed` by one or two. */
  lemma {:induction false} TallyBounds(steps: seq<Step>)
    ensures |steps| <= Successes(steps) + Failures(steps) <= 2 * |steps|
  {
    if steps != [] {
      TallyBounds(steps[..|steps| - 1]);
    }
  }

  /** Every update a run sends is for a record it visited, and each visited
      record gets at least one. */
  lemma {:induction false} WritesFollowSteps(steps: seq<Step>)
    ensures |Writes(steps)| >= |steps|
    ensures forall w :: w in Writes(steps) ==> exists j :: 0 <= j < |steps| && w.id == steps[j].record.id
  {
    if steps != [] {
      var init := steps[..|steps| - 1];
      WritesFollowSteps(init);
      forall w | w in Writes(steps)
        ensures exists j :: 0 <= j < |steps| && w.id == steps[j].record.id
      {
        if w in Writes(init) {
          var j :| 0 <= j < |init| && w.id == init[j].record.id;
          assert steps[j] == init[j];
        } else {
          assert w in StepWrites(steps[|steps| - 1]);
        }
      }
    }
  }

  /** The records the loop enters are exactly those up to the first stop or
      abort: every earlier record neither stops nor aborts, and the last
      entered one does, unless the page ran out. */
  lemma {:induction false} EnteredIsFirstStop(page: seq<PropertyRecord>, env: nat -> RecordEnv, i: nat)
    requires i <= |page|
    ensures forall j :: i <= j < EnteredFrom(page, env, i) - 1 ==> !env(j).stopRequested && !AbortsRun(env(j))
    ensures EnteredFrom(page, env, i) == |page| ||
            (EnteredFrom(page, env, i) > i && (env(EnteredFrom(page, env, i) - 1).stopRequested || AbortsRun(env(EnteredFrom(page, env, i) - 1))))
    decreases |page| - i
  {
    if i < |page| && !(AbortsRun(env(i)) || env(i).stopRequested) {
      EnteredIsFirstStop(page, env, i + 1);
    }
  }

  /** A run that finishes (no abort) processed at most the page, and its
      tallies satisfy processed <= successful + failed <= 2 * processed; the
      two are not always equal, as a failed update counts a second failure. */
  lemma FinishedRunBounds(page: seq<PropertyRecord>, env: nat -> RecordEnv, stopDuringQuery: bool)
    requires !RunAborts(page, env, stopDuringQuery)
    ensures var k := ProcessedCount(page, env, stopDuringQuery);
      var steps := Steps(page, env, k, StepOf);
      && k <= |page|
      && k <= Successes(steps) + Failures(steps) <= 2 * k
  {
    var k := ProcessedCount(page, env, stopDuringQuery);
    TallyBounds(Steps(page, env, k, StepOf));
  }

  /** Without stop requests or aborting updates the run visits the whole
      page; a stop requested during record `j` (the first) ends it right
      after that record, so no later record is looked up or written. */
  lemma EnteredCases(page: seq<PropertyRecord>, env: nat -> RecordEnv)
    ensures (forall j :: 0 <= j < |page| ==> !env(j).stopRequested && !AbortsRun(env(j))) ==>
      Entered(page, env, false) == |page|
    ensures forall j ::
      (0 <= j < |page| && env(j).stopRequested &&
       (forall i :: 0 <= i < j ==> !env(i).stopRequested && !AbortsRun(env(i))))
      ==> Entered(page, env, false) == j + 1
  {
    EnteredIsFirstStop(page, env, 0);
  }

  /** Statuses classified as the statistics panel does; other strings are
      ignored. */
  datatype StatusTally = StatusTally(geocoded: nat, pending: nat, failed: nat)

  function Classify(statuses: seq<string>): StatusTally {
    if statuses == [] then StatusTally(0, 0, 0)
    else
      var t := Classify(statuses[..|statuses| - 1]);
      match statuses[|statuses| - 1]
      case "completed" => t.(geocoded := t.geocoded + 1)
      case "pending" => t.(pending := t.pending + 1)
      case "processing" => t.(pending := t.pending + 1)
      case "failed" => t.(failed := t.failed + 1)
      case _ => t
  }

  /** Each bucket counts the occurrences of its status strings. */
  lemma {:induction false} ClassifyCounts(statuses: seq<string>)
    ensures Classify(statuses).geocoded == multiset(statuses)["completed"]
    ensures Classify(statuses).pending == multiset(statuses)["pending"] + multiset(statuses)["processing"]
    ensures Classify(statuses).failed == multiset(statuses)["failed"]
  {
    if statuses != [] {
      var init := statuses[..|statuses| - 1];
      ClassifyCounts(init);
      assert statuses == init + [statuses[|statuses| - 1]];
    }
  }

  /** The three buckets together never exceed the statuses classified. */
  lemma ClassifyBound(statuses: seq<string>)
    ensures Classify(statuses).geocoded + Classify(statuses).pending + Classify(statuses).failed <= |statuses|
  {
    ClassifyCounts(statuses);
    var m := multiset(statuses);
    assert m["completed"] + m["pending"] + m["processing"] + m["failed"] <= |m| by {
      var known := multiset{};
      known := known[("completed") := m["completed"]][("pending") := m["pending"]];
      known := known[("processing") := m["processing"]][("failed") := m["failed"]];
      assert known <= m;
    }
  }

  /** The non-null statuses of a table (the rows the statistics query
      returns). */
  function NonNull(table: seq<Option<string>>): (r: seq<string>)
    ensures |r| <= |table|
    ensures |r| + multiset(table)[None] == |table|
    ensures forall s :: s in r <==> Some(s) in table
    ensures forall s :: multiset(r)[s] == multiset(table)[Some(s)]
  {
    if table == [] then []
    else
      var init, last := table[..|table| - 1], table[|table| - 1];
      assert table == init + [last];
      NonNull(init) + (if last.Some? then [last.value] else [])
  }

  /** The statistics in terms of the table's rows: geocoded counts the rows
      whose status is "completed", pending those whose status is "pending"
      or "processing", failed those whose status is "failed". */
  lemma StatsCountRows(table: seq<Option<string>>)
    ensures var t := Classify(NonNull(table));
      && t.geocoded == multiset(table)[Some("completed")]
      && t.pending == multiset(table)[Some("pending")] + multiset(table)[Some("processing")]
      && t.failed == multiset(table)[Some("failed")]
  {
    ClassifyCounts(NonNull(table));
  }

  /** The status a run writes decides what happens to the record next: one
      marked failed is selected again by the next run and one marked
      completed is not, and the statistics count it in the matching bucket. */
  lemma WrittenStatusFeedsBack(p: PropertyRecord, s: Status)
    ensures NeedsGeocoding(p.(status := Some(StatusText(s)))) <==> s == Failed
    ensures Classify([StatusText(s)]) ==
      (if s == Completed then StatusTally(1, 0, 0) else StatusTally(0, 0, 1))
  {
    assert [StatusText(s)][..0] == [];
  }

  /** The rows whose status is null fall in no bucket: the three buckets
      together stay within the rows with a status, so the total and the
      buckets need not add up. */
  lemma NullStatusesInNoBucket(table: seq<Option<string>>)
    ensures var t := Classify(NonNull(table));
      t.geocoded + t.pending + t.failed <= |table| - multiset(table)[None]
  {
    ClassifyBound(NonNull(table));
  }

  /** A resolver that has sent `reqs` since it held `sent0` and `last0` is
      consistent again when it was consistent then and `reqs` were paced. */
  lemma KeepsSpacing(sent0: seq<SearchRequest>, last0: int, reqs: seq<SearchRequest>, resolver: GeocodingService)
    requires resolver.sent == sent0 + reqs && resolver.lastRequestTime == LastAt(last0, reqs)
    ensures Consistent(sent0, last0) && Paced(last0, reqs) ==> resolver.Valid()
  {
    if Consistent(sent0, last0) && Paced(last0, reqs) {
      PacedKeepsSpacing(sent0, last0, reqs);
    }
  }

  datatype Stats = Stats(total: nat, geocoded: nat, pending: nat, failed: nat)

  /** The controller's process-wide state: the running flag, whether an
      observer is registered, every snapshot delivered to it, and every
      update sent to the store. */
  class BatchGeocodingService {
    var isRunning: bool
    var hasObserver: bool
    var emitted: seq<Progress>
    var writes: seq<StoreWrite>

    constructor ()
      ensures !isRunning && !hasObserver && emitted == [] && writes == []
    {
      isRunning := false;
      hasObserver := false;
      emitted := [];
      writes := [];
    }

    /** `setProgressCallback`. */
    method SetProgressCallback()
      modifies this
      ensures hasObserver
      ensures isRunning == old(isRunning) && emitted == old(emitted) && writes == old(writes)
    {
      hasObserver := true;
    }

    /** `stopBatchGeocoding`: request cooperative cancellation. */
    method StopBatchGeocoding()
      modifies this
      ensures !isRunning
      ensures hasObserver == old(hasObserver) && emitted == old(emitted) && writes == old(writes)
    {
      isRunning := false;
    }

    /** `isGeocodingRunning`. */
    method IsGeocodingRunning() returns (running: bool)
      ensures running == isRunning
    {
      running := isRunning;
    }

    /** `updateProgress`: deliver a snapshot carrying the flag as it is now. */
    method UpdateProgress(total: nat, processed: nat, successful: nat, failed: nat)
      modifies this
      ensures emitted == old(emitted) + (if hasObserver then [Progress(total, processed, successful, failed, isRunning)] else [])
      ensures isRunning == old(isRunning) && hasObserver == old(hasObserver) && writes == old(writes)
    {
      if hasObserver {
        emitted := emitted + [Progress(total, processed, successful, failed, isRunning)];
      }
    }

    /** The two lookups of a record: the owner address, then the holder
        address, through the shared resolver. */
    method LookUp(p: PropertyRecord, e: RecordEnv, resolver: GeocodingService,
                  ghost take: (PropertyRecord, RecordEnv) -> Step)
      returns (ownerResult: Option<GeocodeResult>, holderResult: Option<GeocodeResult>)
      requires TakesStepOf(take)
      modifies resolver
      ensures var s := take(p, e);
        && s.record == p && s.env == e && s.owner == ownerResult && s.holder == holderResult
        && resolver.sent == old(resolver.sent) + s.requests
        && resolver.lastRequestTime == LastAt(old(resolver.lastRequestTime), s.requests)
    {
      assert take(p, e) == StepOf(p, e);
      ghost var sent0, last0 := resolver.sent, resolver.lastRequestTime;
      ghost var ownerRequests := RequestsFor(OwnerAddress(p), e.owner);
      ghost var holderRequests := RequestsFor(HolderAddress(p), e.holder);
      ownerResult := resolver.GeocodeOwnerAddress(p, e.owner);
      holderResult := resolver.GeocodeHolderAddress(p, e.holder);
      assert resolver.sent == sent0 + (ownerRequests + holderRequests);
    }

    /** The counters, the updates sent and the requests sent since the run
        began are those of `steps`. */
    ghost predicate Accounted(resolver: GeocodingService, steps: seq<Step>, successful: nat, failed: nat,
                              writes0: seq<StoreWrite>, sent0: seq<SearchRequest>, last0: int)
      reads this, resolver
    {
      && successful == Successes(steps) && failed == Failures(steps)
      && writes == writes0 + Writes(steps)
      && resolver.sent == sent0 + Requests(steps)
      && resolver.lastRequestTime == LastAt(last0, Requests(steps))
    }

    /** The snapshots delivered since the run began are `snaps`. */
    ghost predicate Reported(snaps: seq<Progress>, emitted0: seq<Progress>)
      reads this
    {
      emitted == emitted0 + (if hasObserver then snaps else [])
    }

    /** The totals, updates, requests and snapshots of the first `i` records
        of the page. */
    ghost predicate Tracked(page: seq<PropertyRecord>, env: nat -> RecordEnv, take: (PropertyRecord, RecordEnv) -> Step,
                            resolver: GeocodingService, i: nat, successful: nat, failed: nat,
                            writes0: seq<StoreWrite>, sent0: seq<SearchRequest>, last0: int, emitted0: seq<Progress>)
      requires i <= |page|
      reads this, resolver
    {
      && Accounted(resolver, Steps(page, env, i, take), successful, failed, writes0, sent0, last0)
      && Reported(Snapshots(|page|, Steps(page, env, i, take)), emitted0)
    }

    /** The body of the loop for one record up to its snapshot: the lookups,
        the decision, the update, and a failed update counted once more
        (when the update raised and so did the "mark as failed" update, that
        last count is never reached). The totals so far are those of
        `steps`; afterwards they are those of `steps` and this record's step. */
    method VisitRecord(p: PropertyRecord, e: RecordEnv, resolver: GeocodingService, successful: nat, failed: nat,
                       ghost take: (PropertyRecord, RecordEnv) -> Step, ghost steps: seq<Step>,
                       ghost writes0: seq<StoreWrite>, ghost sent0: seq<SearchRequest>, ghost last0: int)
      returns (successful': nat, failed': nat)
      requires TakesStepOf(take)
      requires Accounted(resolver, steps, successful, failed, writes0, sent0, last0)
      modifies this, resolver
      ensures var s := take(p, e);
        && s.record == p && s.env == e
        && Accounted(resolver, steps + [s], successful', failed', writes0, sent0, last0)
      ensures isRunning == old(isRunning) && hasObserver == old(hasObserver) && emitted == old(emitted)
    {
      ghost var s := take(p, e);
      StepsExtend(steps, s);
      AppendAssoc(writes0, Writes(steps), StepWrites(s));
      AppendAssoc(sent0, Requests(steps), s.requests);
      LastAtAppend(last0, Requests(steps), s.requests);
      successful', failed' := successful, failed;
      var ownerResult, holderResult := LookUp(p, e, resolver, take);
      if ownerResult.Some? || holderResult.Some? {
        successful' := successful' + 1;
      } else {
        failed' := failed' + 1;
      }
      writes := writes + [StoreWrite(p.id, MainPayload(e.startedAt, ownerResult, holderResult))];
      if e.update == ErrorReturned {
        failed' := failed' + 1;
      } else if e.update.Raised? {
        writes := writes + [StoreWrite(p.id, MarkFailedPayload(e.failedAt))];
        if !e.update.markFailedRaises {
          failed' := failed' + 1;
        }
      }
    }

    /** One pass of the loop body for record `i` while the run is on: the
        record's visit, then, unless its failure handling raised, the stop
        check and the snapshot. */
    method ProcessRecord(page: seq<PropertyRecord>, env: nat -> RecordEnv, resolver: GeocodingService, i: nat,
                         successful: nat, failed: nat, ghost take: (PropertyRecord, RecordEnv) -> Step,
                         ghost writes0: seq<StoreWrite>, ghost sent0: seq<SearchRequest>, ghost last0: int,
                         ghost emitted0: seq<Progress>)
      returns (successful': nat, failed': nat)
      requires i < |page| && isRunning && TakesStepOf(take)
      requires Tracked(page, env, take, resolver, i, successful, failed, writes0, sent0, last0, emitted0)
      modifies this, resolver
      ensures hasObserver == old(hasObserver)
      ensures AbortsRun(env(i)) ==>
        && Accounted(resolver, Steps(page, env, i + 1, take), successful', failed', writes0, sent0, last0)
        && isRunning && emitted == old(emitted)
      ensures !AbortsRun(env(i)) ==>
        && Tracked(page, env, take, resolver, i + 1, successful', failed', writes0, sent0, last0, emitted0)
        && isRunning == !env(i).stopRequested
    {
      var p, e := page[i], env(i);
      ghost var steps := Steps(page, env, i, take);
      successful', failed' := VisitRecord(p, e, resolver, successful, failed, take, steps, writes0, sent0, last0);
      StepsSnoc(page, env, i, take);
      if AbortsRun(e) {
        return;
      }
      ghost var s := take(p, e);
      SnapshotsSnoc(|page|, steps, s);
      AppendAssoc(emitted0, Snapshots(|page|, steps), [Progress(|page|, i + 1, successful', failed', !e.stopRequested)]);
      if e.stopRequested {
        StopBatchGeocoding();
      }
      UpdateProgress(|page|, i + 1, successful', failed');
    }

    /** The `for` loop over the page. It enters records while `isRunning`
        holds (it is already false when a stop arrived during the page
        query), and leaves early when a record's failure handling raises;
        that record is then not counted as processed and gets no snapshot. */
    method ProcessPage(page: seq<PropertyRecord>, env: nat -> RecordEnv, resolver: GeocodingService,
                       ghost take: (PropertyRecord, RecordEnv) -> Step)
      returns (aborted: bool, processed: nat, successful: nat, failed: nat)
      requires TakesStepOf(take)
      modifies this, resolver
      ensures var m := Entered(page, env, !old(isRunning));
        var steps := Steps(page, env, m, take);
        && aborted == RunAborts(page, env, !old(isRunning))
        && processed == ProcessedCount(page, env, !old(isRunning))
        && successful == Successes(steps) && failed == Failures(steps)
        && writes == old(writes) + Writes(steps)
        && resolver.sent == old(resolver.sent) + Requests(steps)
        && resolver.lastRequestTime == LastAt(old(resolver.lastRequestTime), Requests(steps))
        && emitted == old(emitted) + (if hasObserver then Snapshots(|page|, steps[..processed]) else [])
      ensures hasObserver == old(hasObserver)
    {
      ghost var stopped := !isRunning;
      ghost var emitted0, writes0 := emitted, writes;
      ghost var sent0, last0 := resolver.sent, resolver.lastRequestTime;
      ghost var m := Entered(page, env, stopped);
      processed, successful, failed := 0, 0, 0;
      aborted := false;
      var i := 0;
      while i < |page|
        invariant 0 <= i <= |page|
        invariant stopped ==> i == 0
        invariant i > 0 ==> !AbortsRun(env(i - 1))
        invariant isRunning == (!stopped && (i == 0 || !env(i - 1).stopRequested))
        invariant !stopped ==>
          m == (if i > 0 && env(i - 1).stopRequested then i else EnteredFrom(page, env, i))
        invariant processed == i
        invariant hasObserver == old(hasObserver)
        invariant Tracked(page, env, take, resolver, i, successful, failed, writes0, sent0, last0, emitted0)
        decreases |page| - i
      {
        if !isRunning {
          break;
        }
        successful, failed := ProcessRecord(page, env, resolver, i, successful, failed, take, writes0, sent0, last0, emitted0);
        if AbortsRun(env(i)) {
          AbortedAt(page, env, i);
          StepsPrefix(page, env, i, i + 1, take);
          return true, processed, successful, failed;
        }
        processed := processed + 1;
        i := i + 1;
      }
      FinishedAt(page, env, stopped, i);
      assert Steps(page, env, i, take)[..processed] == Steps(page, env, i, take);
    }

    /** `startBatchGeocoding(limit)`. A second start while running is
        rejected with nothing changed. Otherwise the run processes the
        selected page in order until it ends, is stopped, or raises; in every
        case it leaves `isRunning` false and its last snapshot has total 0
        and the flag false. */
    method StartBatchGeocoding(limit: nat, reply: PageReply, stopDuringQuery: bool,
                               env: nat -> RecordEnv, resolver: GeocodingService)
      returns (outcome: RunOutcome, processed: nat, successful: nat, failed: nat)
      modifies this, resolver
      ensures old(isRunning) ==>
        && outcome == Threw(AlreadyRunning) && isRunning
        && emitted == old(emitted) && writes == old(writes)
        && resolver.sent == old(resolver.sent) && resolver.lastRequestTime == old(resolver.lastRequestTime)
        && processed == 0 && successful == 0 && failed == 0
      ensures !old(isRunning) ==> !isRunning
      ensures hasObserver == old(hasObserver)
      ensures !old(isRunning) && hasObserver ==>
        |emitted| > |old(emitted)| && emitted[|emitted| - 1] == Progress(0, processed, successful, failed, false)
      ensures !old(isRunning) && reply.QueryError? ==>
        && outcome == Threw(PageQueryFailed)
        && processed == 0 && successful == 0 && failed == 0
        && writes == old(writes)
        && resolver.sent == old(resolver.sent) && resolver.lastRequestTime == old(resolver.lastRequestTime)
        && emitted == old(emitted) + (if hasObserver then [Progress(0, 0, 0, 0, false)] else [])
      ensures !old(isRunning) && reply.Rows? ==>
        var page := SelectPage(reply.table, limit);
        var steps := Steps(page, env, Entered(page, env, stopDuringQuery), StepOf);
        && outcome == (if RunAborts(page, env, stopDuringQuery) then Threw(MarkFailedRaised) else Finished)
        && processed == ProcessedCount(page, env, stopDuringQuery)
        && successful == Successes(steps) && failed == Failures(steps)
        && writes == old(writes) + Writes(steps)
        && resolver.sent == old(resolver.sent) + Requests(steps)
        && resolver.lastRequestTime == LastAt(old(resolver.lastRequestTime), Requests(steps))
        && emitted == old(emitted) +
             (if hasObserver
              then [Progress(|page|, 0, 0, 0, !stopDuringQuery)] + Snapshots(|page|, steps[..processed])
                   + [Progress(0, processed, successful, failed, false)]
              else [])
      ensures old(resolver.Valid()) &&
        (!old(isRunning) && reply.Rows? ==>
          var page := SelectPage(reply.table, limit);
          Paced(old(resolver.lastRequestTime), Requests(Steps(page, env, Entered(page, env, stopDuringQuery), StepOf))))
        ==> resolver.Valid()
    {
      if isRunning {
        return Threw(AlreadyRunning), 0, 0, 0;
      }
      isRunning := true;
      processed, successful, failed := 0, 0, 0;
      if stopDuringQuery {
        StopBatchGeocoding();
      }
      if reply.QueryError? {
        isRunning := false;
        UpdateProgress(0, processed, successful, failed);
        return Threw(PageQueryFailed), processed, successful, failed;
      }
      outcome, processed, successful, failed := RunPage(SelectPage(reply.table, limit), env, resolver);
    }

    /** The part of a run after the page query: the first snapshot, the loop,
        and the `finally` block that clears the flag and reports once more. */
    method RunPage(page: seq<PropertyRecord>, env: nat -> RecordEnv, resolver: GeocodingService)
      returns (outcome: RunOutcome, processed: nat, successful: nat, failed: nat)
      modifies this, resolver
      ensures var stopped := !old(isRunning);
        var steps := Steps(page, env, Entered(page, env, stopped), StepOf);
        && outcome == (if RunAborts(page, env, stopped) then Threw(MarkFailedRaised) else Finished)
        && processed == ProcessedCount(page, env, stopped)
        && successful == Successes(steps) && failed == Failures(steps)
        && writes == old(writes) + Writes(steps)
        && resolver.sent == old(resolver.sent) + Requests(steps)
        && resolver.lastRequestTime == LastAt(old(resolver.lastRequestTime), Requests(steps))
        && emitted == old(emitted) +
             (if hasObserver
              then [Progress(|page|, 0, 0, 0, !stopped)] + Snapshots(|page|, steps[..processed])
                   + [Progress(0, processed, successful, failed, false)]
              else [])
      ensures !isRunning && hasObserver == old(hasObserver)
      ensures var steps := Steps(page, env, Entered(page, env, !old(isRunning)), StepOf);
        old(resolver.Valid()) && Paced(old(resolver.lastRequestTime), Requests(steps)) ==> resolver.Valid()
    {
      // An empty page's snapshot (0, 0, 0, 0) is the initial snapshot of a page of size 0.
      UpdateProgress(|page|, 0, 0, 0);
      ghost var sent0, last0 := resolver.sent, resolver.lastRequestTime;
      var aborted;
      aborted, processed, successful, failed := ProcessPage(page, env, resolver, StepOf);
      KeepsSpacing(sent0, last0, Requests(Steps(page, env, Entered(page, env, !old(isRunning)), StepOf)), resolver);
      outcome := if aborted then Threw(MarkFailedRaised) else Finished;
      isRunning := false;
      UpdateProgress(0, processed, successful, failed);
      if hasObserver {
        ghost var stopped := !old(isRunning);
        ghost var first := [Progress(|page|, 0, 0, 0, !stopped)];
        ghost var middle := Snapshots(|page|, Steps(page, env, Entered(page, env, stopped), StepOf)[..processed]);
        ghost var last := [Progress(0, processed, successful, failed, false)];
        AppendAssoc(old(emitted) + first, middle, last);
        AppendAssoc(old(emitted), first, middle + last);
        AppendAssoc(first, middle, last);
      }
    }

    /** `getGeocodingStats`: the total from the count query (0 when it has
        none), and the non-null statuses of the table classified. A failing
        status query or null-coordinates query makes it throw. */
    static method GetGeocodingStats(totalCount: Option<nat>, table: seq<Option<string>>,
                                    statusQueryFails: bool, nullQueryFails: bool)
      returns (r: Result<Stats, string>)
      ensures r.Failure? <==> statusQueryFails || nullQueryFails
      ensures r.Success? ==>
        var t := Classify(NonNull(table));
        r.value == Stats(totalCount.GetOr(0), t.geocoded, t.pending, t.failed)
      ensures r.Success? ==>
        && r.value.geocoded == multiset(table)[Some("completed")]
        && r.value.pending == multiset(table)[Some("pending")] + multiset(table)[Some("processing")]
        && r.value.failed == multiset(table)[Some("failed")]
    {
      if statusQueryFails || nullQueryFails {
        return Failure("query failed");
      }
      var statusData := NonNull(table);
      var geocoded, pending, failed := 0, 0, 0;
      for i := 0 to |statusData|
        invariant Classify(statusData[..i]) == StatusTally(geocoded, pending, failed)
      {
        assert statusData[..i + 1][..i] == statusData[..i];
        match statusData[i] {
          case "completed" => geocoded := geocoded + 1;
          case "pending" => pending := pending + 1;
          case "processing" => pending := pending + 1;
          case "failed" => failed := failed + 1;
          case _ =>
        }
      }
      assert statusData[..|statusData|] == statusData;
      StatsCountRows(table);
      r := Success(Stats(totalCount.GetOr(0), geocoded, pending, failed));
    }
  }
}
