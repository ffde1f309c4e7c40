/** The application shell: the CSV upload handler (validate, partition,
    insert in batches of 100), the tab list filtered by the admin flag, and
    the redirect away from the admin-only tabs. */
module App {
  import opened Wrappers
  import opened JsStrings
  import opened Sequences
  import opened CsvParser

  const NoRecordsMessage := "No valid records found in CSV file"
  const NoValidRecordsMessage := "No valid records found. Please check your CSV format."
  const ImportFallbackMessage := "Failed to import CSV file"
  const BatchSize: nat := 100

  /** What a failing step throws: an `Error` with its message, or some other
      value (a plain error object from the store). */
  datatype Thrown = ErrorObject(message: string) | OtherValue

  /** The message the handler shows for what was thrown. */
  function ErrorText(t: Thrown): string {
    match t
    case ErrorObject(m) => m
    case OtherValue => ImportFallbackMessage
  }

  /** The error line of a row that failed validation; a missing property ID
      prints as `undefined`. */
  function RowError(r: CsvRecord, errs: seq<string>): string {
    "Row with Property ID " + Field(r, "PROPERTY_ID").GetOr("undefined") + ": " + Join(errs, ", ")
  }

  predicate Passes(r: CsvRecord) {
    RequiredFieldErrors(r) == []
  }

  predicate Fails(r: CsvRecord) {
    RequiredFieldErrors(r) != []
  }

  /** The converted rows and the error lines, each in row order. */
  datatype Partition = Partition(valid: seq<DbRecord>, errors: seq<string>)

  /** The partition of a list of parsed rows; `None` when converting a row
      that passed validation throws. */
  function PartitionOf(records: seq<CsvRecord>): Option<Partition> {
    if records == [] then Some(Partition([], []))
    else Extend(PartitionOf(records[..|records| - 1]), records[|records| - 1])
  }

  /** One more row: converted onto the valid list if it passes, an error
      line if not. */
  function Extend(acc: Option<Partition>, r: CsvRecord): Option<Partition> {
    match acc
    case None => None
    case Some(p) =>
      if Passes(r) then
        match ConvertCSVRecordToDBRecord(r)
        case Some(d) => Some(p.(valid := p.valid + [d]))
        case None => None
      else Some(p.(errors := p.errors + [RowError(r, RequiredFieldErrors(r))]))
  }

  /** Partitions of consecutive runs of rows concatenate. */
  function Combine(a: Option<Partition>, b: Option<Partition>): Option<Partition> {
    if a.Some? && b.Some? then Some(Partition(a.value.valid + b.value.valid, a.value.errors + b.value.errors))
    else None
  }

  lemma CombineExtend(a: Option<Partition>, b: Option<Partition>, r: CsvRecord)
    ensures Extend(Combine(a, b), r) == Combine(a, Extend(b, r))
  {
    if a.Some? && b.Some? {
      var x := a.value;
      var y := b.value;
      if Passes(r) && ConvertCSVRecordToDBRecord(r).Some? {
        var d := ConvertCSVRecordToDBRecord(r).value;
        assert (x.valid + y.valid) + [d] == x.valid + (y.valid + [d]);
      } else if !Passes(r) {
        var e := RowError(r, RequiredFieldErrors(r));
        assert (x.errors + y.errors) + [e] == x.errors + (y.errors + [e]);
      }
    }
  }

  lemma {:induction false} PartitionAppend(a: seq<CsvRecord>, b: seq<CsvRecord>)
    ensures PartitionOf(a + b) == Combine(PartitionOf(a), PartitionOf(b))
    decreases |b|
  {
    if b == [] {
      assert a + b == a;
      if PartitionOf(a).Some? {
        var x := PartitionOf(a).value;
        assert x.valid + [] == x.valid && x.errors + [] == x.errors;
      }
    } else {
      var n := |b| - 1;
      PartitionAppend(a, b[..n]);
      assert (a + b)[..|a + b| - 1] == a + b[..n];
      assert (a + b)[|a + b| - 1] == b[n];
      assert PartitionOf(a + b) == Extend(PartitionOf(a + b[..n]), b[n]);
      assert PartitionOf(b) == Extend(PartitionOf(b[..n]), b[n]);
      CombineExtend(PartitionOf(a), PartitionOf(b[..n]), b[n]);
    }
  }

  /** Once a prefix of the rows makes the conversion throw, so do all the
      rows. */
  lemma PartitionFailurePersists(records: seq<CsvRecord>, k: nat)
    requires k <= |records| && PartitionOf(records[..k]) == None
    ensures PartitionOf(records) == None
  {
    PartitionAppend(records[..k], records[k..]);
    assert records[..k] + records[k..] == records;
  }

  /** The partition exists exactly when every row that passes validation
      has all the numeric columns. */
  lemma {:induction false} PartitionDefined(records: seq<CsvRecord>)
    ensures PartitionOf(records).Some? <==>
      forall i :: 0 <= i < |records| && Passes(records[i]) ==> HasNumericColumns(records[i])
  {
    if records != [] {
      var n := |records| - 1;
      var init, r := records[..n], records[n];
      PartitionDefined(init);
      assert PartitionOf(records).Some? <==> PartitionOf(init).Some? && (Passes(r) ==> HasNumericColumns(r)) by {
        assert PartitionOf(records) == Extend(PartitionOf(init), r);
      }
      if forall i :: 0 <= i < |records| && Passes(records[i]) ==> HasNumericColumns(records[i]) {
        forall i | 0 <= i < n && Passes(init[i])
          ensures HasNumericColumns(init[i])
        {
          assert init[i] == records[i];
        }
      }
      if (forall i :: 0 <= i < n && Passes(init[i]) ==> HasNumericColumns(init[i])) && (Passes(r) ==> HasNumericColumns(r)) {
        forall i | 0 <= i < |records| && Passes(records[i])
          ensures HasNumericColumns(records[i])
        {
          if i < n {
            assert records[i] == init[i];
          } else {
            assert i == n;
          }
        }
      }
    }
  }

  /** Every row lands on exactly one side: the valid list is the conversion
      of the rows that pass, in order, and the error list has one line per
      row that fails, in order. */
  lemma {:induction false} PartitionContents(records: seq<CsvRecord>)
    requires PartitionOf(records).Some?
    ensures var p := PartitionOf(records).value;
      var passing := Filter(records, Passes);
      var failing := Filter(records, Fails);
      && |p.valid| == |passing| && |p.errors| == |failing|
      && |p.valid| + |p.errors| == |records|
      && (forall i :: 0 <= i < |p.valid| ==> ConvertCSVRecordToDBRecord(passing[i]) == Some(p.valid[i]))
      && (forall i :: 0 <= i < |p.errors| ==>
            p.errors[i] == RowError(failing[i], RequiredFieldErrors(failing[i])))
  {
    if records != [] {
      var n := |records| - 1;
      var init, r := records[..n], records[n];
      assert records == init + [r];
      PartitionContents(init);
      FilterAppend(init, [r], Passes);
      FilterAppend(init, [r], Fails);
      var p, q := PartitionOf(records).value, PartitionOf(init).value;
      assert PartitionOf(records) == Extend(PartitionOf(init), r);
      if Passes(r) {
        var d := ConvertCSVRecordToDBRecord(r).value;
        assert Filter([r], Passes) == [r] && Filter([r], Fails) == [];
        assert p.valid == q.valid + [d] && p.errors == q.errors;
      } else {
        assert Filter([r], Passes) == [] && Filter([r], Fails) == [r];
        assert p.valid == q.valid && p.errors == q.errors + [RowError(r, RequiredFieldErrors(r))];
      }
    }
  }

  /** The validation loop of the upload handler: a row that passes is
      converted and pushed to the valid list, any other gets an error line;
      a conversion that throws ends the loop. */
  method PartitionRecords(csvRecords: seq<CsvRecord>) returns (result: Option<Partition>)
    ensures result == PartitionOf(csvRecords)
  {
    var validRecords: seq<DbRecord> := [];
    var errors: seq<string> := [];
    for i := 0 to |csvRecords|
      invariant PartitionOf(csvRecords[..i]) == Some(Partition(validRecords, errors))
    {
      assert csvRecords[..i + 1][..i] == csvRecords[..i];
      var record := csvRecords[i];
      var recordErrors := ValidateCSVRecord(record);
      if |recordErrors| == 0 {
        var converted := ConvertCSVRecordToDBRecord(record);
        if converted.None? {
          PartitionFailurePersists(csvRecords, i + 1);
          return None;
        }
        validRecords := validRecords + [converted.value];
      } else {
        errors := errors + [RowError(record, recordErrors)];
      }
    }
    assert csvRecords[..|csvRecords|] == csvRecords;
    return Some(Partition(validRecords, errors));
  }

  function Min(a: int, b: int): int {
    if a < b then a else b
  }

  /** The number of batches for `n` records. */
  function BatchCount(n: nat): nat {
    (n + BatchSize - 1) / BatchSize
  }

  /** `xs.slice(100 * b, 100 * b + 100)` for each batch `b`. */
  function Batches<T>(xs: seq<T>): (bs: seq<seq<T>>)
    ensures |bs| == BatchCount(|xs|)
  {
    seq(BatchCount(|xs|), b requires 0 <= b < BatchCount(|xs|) =>
      xs[BatchSize * b..Min(BatchSize * b + BatchSize, |xs|)])
  }

  /** Each batch holds between 1 and 100 records, and all but the last hold
      exactly 100. */
  lemma BatchSizes<T>(xs: seq<T>)
    ensures forall b :: 0 <= b < |Batches(xs)| ==> 1 <= |Batches(xs)[b]| <= BatchSize
    ensures forall b :: 0 <= b < |Batches(xs)| - 1 ==> |Batches(xs)[b]| == BatchSize
  {
  }

  /** The first `k` batches are the first `100 * k` records, in order. */
  lemma {:induction false} BatchesPrefix<T>(xs: seq<T>, k: nat)
    requires k <= BatchCount(|xs|)
    ensures Flatten(Batches(xs)[..k]) == xs[..Min(BatchSize * k, |xs|)]
  {
    if k > 0 {
      var bs := Batches(xs);
      BatchesPrefix(xs, k - 1);
      assert bs[..k] == bs[..k - 1] + [bs[k - 1]];
      FlattenSnoc(bs[..k - 1], bs[k - 1]);
      assert xs[..Min(BatchSize * k, |xs|)] ==
        xs[..BatchSize * (k - 1)] + xs[BatchSize * (k - 1)..Min(BatchSize * k, |xs|)];
    }
  }

  /** Concatenating the batches gives back the records. */
  lemma BatchesFlatten<T>(xs: seq<T>)
    ensures Flatten(Batches(xs)) == xs
  {
    var bs := Batches(xs);
    BatchesPrefix(xs, |bs|);
    assert bs[..|bs|] == bs;
  }

  /** The index of the first batch whose insert fails, or `n` if none of the
      first `n` does. */
  function FirstFailure(reply: nat -> Option<Thrown>, b: nat, n: nat): (f: nat)
    requires b <= n
    ensures b <= f <= n
    ensures forall j :: b <= j < f ==> reply(j).None?
    ensures f < n ==> reply(f).Some?
    decreases n - b
  {
    if b == n then n else if reply(b).Some? then b else FirstFailure(reply, b + 1, n)
  }

  /** The message shown after every batch went in. */
  function SuccessMessage(inserted: nat, errorCount: nat): string {
    "Successfully processed " + NatToString(inserted) + " records. "
    + (if errorCount > 0 then NatToString(errorCount) + " records had errors." else "")
  }

  /** The upload ends with a success message and the inserted count, or
      with an error message. */
  datatype UploadOutcome = Imported(message: string, inserted: nat) | Failed(message: string)

  /** `handleFileUpload` after the file is read: parse, partition, then
      insert the valid records 100 at a time. `typeError` is the message of
      the `TypeError` a conversion throws; `reply(b)` is what the store
      returns for the `b`-th insert, `Some` when it reports an error. `sent`
      lists the batches handed to the store. */
  method HandleFileUpload(text: string, typeError: string, reply: nat -> Option<Thrown>)
    returns (outcome: UploadOutcome, sent: seq<seq<DbRecord>>)
    ensures ParsedRecords(text) == [] ==> outcome == Failed(NoRecordsMessage) && sent == []
    ensures ParsedRecords(text) != [] && PartitionOf(ParsedRecords(text)).None? ==>
      outcome == Failed(typeError) && sent == []
    ensures ParsedRecords(text) != [] && PartitionOf(ParsedRecords(text)).Some? ==>
      var p := PartitionOf(ParsedRecords(text)).value;
      var batches := Batches(p.valid);
      var f := FirstFailure(reply, 0, |batches|);
      && (p.valid == [] ==> outcome == Failed(NoValidRecordsMessage) && sent == [])
      && (p.valid != [] && f < |batches| ==>
            outcome == Failed(ErrorText(reply(f).value)) && sent == batches[..f + 1])
      && (p.valid != [] && f == |batches| ==>
            outcome == Imported(SuccessMessage(|p.valid|, |p.errors|), |p.valid|) && sent == batches)
  {
    sent := [];
    var csvRecords := ParseCSV(text);
    if |csvRecords| == 0 {
      return Failed(NoRecordsMessage), sent;
    }
    var partition := PartitionRecords(csvRecords);
    if partition.None? {
      return Failed(typeError), sent;
    }
    var validRecords := partition.value.valid;
    var errors := partition.value.errors;
    if |validRecords| == 0 {
      return Failed(NoValidRecordsMessage), sent;
    }
    var insertedCount, insertError;
    insertedCount, insertError, sent := InsertBatches(validRecords, reply);
    if insertError.Some? {
      return Failed(ErrorText(insertError.value)), sent;
    }
    outcome := Imported(SuccessMessage(insertedCount, |errors|), insertedCount);
  }

  /** The insert loop: hand the records to the store 100 at a time, counting
      what went in, and stop at the first batch the store refuses. */
  method InsertBatches(validRecords: seq<DbRecord>, reply: nat -> Option<Thrown>)
    returns (insertedCount: nat, insertError: Option<Thrown>, sent: seq<seq<DbRecord>>)
    ensures var batches := Batches(validRecords);
      var f := FirstFailure(reply, 0, |batches|);
      && (f < |batches| ==> insertError == reply(f) && sent == batches[..f + 1])
      && (f == |batches| ==> insertError == None && sent == batches && insertedCount == |validRecords|)
      && (f < |batches| ==>
            insertedCount == BatchSize * f &&
            Flatten(sent) == validRecords[..Min(BatchSize * (f + 1), |validRecords|)])
      && (f == |batches| ==> Flatten(sent) == validRecords)
  {
    ghost var batches := Batches(validRecords);
    sent := [];
    insertedCount := 0;
    var i := 0;
    while i < |validRecords|
      invariant i == BatchSize * |sent| && |sent| <= |batches|
      invariant i < |validRecords| ==> |sent| < |batches|
      invariant sent == batches[..|sent|]
      invariant forall j :: 0 <= j < |sent| ==> reply(j).None?
      invariant insertedCount == |Flatten(sent)|
      decreases |validRecords| - i
    {
      var batch := validRecords[i..Min(i + BatchSize, |validRecords|)];
      assert batch == batches[|sent|];
      var b := |sent|;
      FlattenSnoc(sent, batch);
      sent := sent + [batch];
      assert sent == batches[..b + 1];
      if reply(b).Some? {
        FirstFailureIsFirst(reply, 0, |batches|, b);
        assert insertedCount == BatchSize * b by {
          BatchesPrefix(validRecords, b);
        }
        assert Flatten(sent) == validRecords[..Min(BatchSize * (b + 1), |validRecords|)] by {
          BatchesPrefix(validRecords, b + 1);
        }
        return insertedCount, reply(b), sent;
      }
      insertedCount := insertedCount + |batch|;
      i := i + BatchSize;
    }
    assert sent == batches;
    BatchesFlatten(validRecords);
    FirstFailureNone(reply, 0, |batches|);
    insertError := None;
  }

  /** The first failure is the failing batch before which all succeeded. */
  lemma FirstFailureIsFirst(reply: nat -> Option<Thrown>, b: nat, n: nat, f: nat)
    requires b <= f < n && reply(f).Some?
    requires forall j :: b <= j < f ==> reply(j).None?
    ensures FirstFailure(reply, b, n) == f
    decreases f - b
  {
    if b < f {
      FirstFailureIsFirst(reply, b + 1, n, f);
    }
  }

  lemma FirstFailureNone(reply: nat -> Option<Thrown>, b: nat, n: nat)
    requires b <= n
    requires forall j :: b <= j < n ==> reply(j).None?
    ensures FirstFailure(reply, b, n) == n
    decreases n - b
  {
    if b < n {
      FirstFailureNone(reply, b + 1, n);
    }
  }

  datatype TabId = SearchTab | MapTab | ImportTab | GeocodingTab | AdminTab

  datatype Tab = Tab(id: TabId, title: string, isPublic: bool)

  const Tabs: seq<Tab> := [
    Tab(SearchTab, "Search Properties", true),
    Tab(MapTab, "Map View", true),
    Tab(ImportTab, "Import Data", false),
    Tab(GeocodingTab, "Geocoding", false),
    Tab(AdminTab, "Admin", true)]

  /** The tabs shown: the public ones, and all of them for an admin. */
  function VisibleTabs(isAdmin: bool): seq<Tab> {
    Filter(Tabs, (tab: Tab) => tab.isPublic || isAdmin)
  }

  /** A tab is shown exactly when it is public or the user is an admin, in
      the order of the tab list; an admin sees every tab, anyone else the
      search, map and admin tabs. */
  lemma VisibleTabsFacts(isAdmin: bool)
    ensures forall t :: t in VisibleTabs(isAdmin) <==> t in Tabs && (t.isPublic || isAdmin)
    ensures IsSubsequence(VisibleTabs(isAdmin), Tabs)
    ensures isAdmin ==> VisibleTabs(isAdmin) == Tabs
    ensures !isAdmin ==> VisibleTabs(isAdmin) == [Tabs[0], Tabs[1], Tabs[4]]
  {
    var keep := (tab: Tab) => tab.isPublic || isAdmin;
    FilterMembership(Tabs, keep);
    FilterIsSubsequence(Tabs, keep);
    FilterKeepsAll(Tabs, keep);
    if !isAdmin {
      PublicTabs();
    }
  }

  lemma PublicTabs()
    ensures VisibleTabs(false) == [Tabs[0], Tabs[1], Tabs[4]]
  {
    var keep := (tab: Tab) => tab.isPublic || false;
    var t := Tabs;
    assert t[4..][1..] == [];
    assert Filter(t[4..], keep) == [t[4]];
    assert t[3..][1..] == t[4..];
    assert Filter(t[3..], keep) == [t[4]];
    assert t[2..][1..] == t[3..];
    assert Filter(t[2..], keep) == [t[4]];
    assert t[1..][1..] == t[2..];
    assert Filter(t[1..], keep) == [t[1], t[4]];
    assert Filter(t, keep) == [t[0], t[1], t[4]];
  }

  /** Whether the tab with this id is shown. */
  predicate Shown(id: TabId, isAdmin: bool) {
    exists t :: t in VisibleTabs(isAdmin) && t.id == id
  }

  /** The redirect effect: once the session is known, a non-admin on the
      import or geocoding tab is sent to the admin tab. */
  function RedirectTab(authLoading: bool, isAdmin: bool, active: TabId): (t: TabId)
    ensures t != active <==> !authLoading && !isAdmin && (active == ImportTab || active == GeocodingTab)
    ensures t != active ==> t == AdminTab
  {
    if !authLoading && !isAdmin && (active == ImportTab || active == GeocodingTab) then AdminTab else active
  }

  /** After the redirect the active tab is one that is shown, and a second
      run of the effect changes nothing. */
  lemma RedirectLandsOnShownTab(isAdmin: bool, active: TabId)
    ensures Shown(RedirectTab(false, isAdmin, active), isAdmin)
    ensures RedirectTab(false, isAdmin, RedirectTab(false, isAdmin, active)) == RedirectTab(false, isAdmin, active)
  {
    VisibleTabsFacts(isAdmin);
    var t := RedirectTab(false, isAdmin, active);
    if isAdmin {
      var tabs := Tabs;
      assert t == tabs[0].id || t == tabs[1].id || t == tabs[2].id || t == tabs[3].id || t == tabs[4].id;
    } else {
      assert Tabs[0] in VisibleTabs(isAdmin) && Tabs[1] in VisibleTabs(isAdmin) && Tabs[4] in VisibleTabs(isAdmin);
    }
  }
}
