/** The batch-lookup driver: the `for` loop of `processFile` (App.tsx:87-186)
    as a fold over the parsed spreadsheet rows. The registry is an oracle
    giving, for each row index, the answer the lookup of that row gets; the
    fold records which lookups it issued and where it waited between them
    as a sequence of events, so that what reaches the network is visible.

    Each iteration starts by reading the row's identifier (App.tsx:95-96);
    nothing else in the iteration affects that reading, so the fold works on
    the sequence of identifiers `Identifiers(rows)`, read up front. */
module Driver {
  import opened Wrappers
  import opened JsText
  import opened Records
  import opened Lookup

  /** One parsed spreadsheet row: column header to the `toString()` text of
      the cell. Empty cells have no key. */
  type SheetRow = map<string, string>

  const IdColumn: string := "MST"

  /** `row['MST']?.toString().trim()`, with a missing cell read as "". */
  function TaxCodeOf(row: SheetRow): string {
    if IdColumn in row then Trim(row[IdColumn]) else ""
  }

  /** The identifier of every row, in row order. */
  function Identifiers(rows: seq<SheetRow>): (ids: seq<string>)
    ensures |ids| == |rows|
    ensures forall k :: 0 <= k < |rows| ==> ids[k] == TaxCodeOf(rows[k])
  {
    seq(|rows|, k requires 0 <= k < |rows| => TaxCodeOf(rows[k]))
  }

  /** `!taxCode`: the identifier is missing or empty after trimming. */
  predicate IsBlank(row: SheetRow) {
    TaxCodeOf(row) == ""
  }

  /** A row is blank exactly when its identifier cell is missing or holds
      only whitespace. */
  lemma BlankIffMissingOrWhitespace(row: SheetRow)
    ensures IsBlank(row) <==> (IdColumn !in row || AllWhitespace(row[IdColumn]))
  {
    if IdColumn in row {
      TrimSpec(row[IdColumn]);
    }
  }

  /** The answer the registry gives to the lookup made for row `i`. */
  type Oracle = nat -> Lookup

  /** Observable side effects of the loop: a registry request for an
      identifier, and the two-second pause between requests. */
  datatype Event = Query(taxCode: string) | Pause

  /** The loop's accumulators: `newResults`, `currentSuccessCount`,
      `currentErrorCount`, and the events so far. */
  datatype Tally = Tally(results: seq<ResultRow>, successes: nat, errors: nat, events: seq<Event>)

  const EmptyTally: Tally := Tally([], 0, 0, [])

  /** How the loop ended: it ran past the last row, or `stopOnError` broke it
      on a blank row (named by its spreadsheet row number, header included)
      or on a failed lookup. */
  datatype Halt = Finished | StoppedOnBlank(sheetRow: nat) | StoppedOnLookup(taxCode: string)

  datatype Run = Run(tally: Tally, halt: Halt)

  /** What processing one row leaves: the loop either goes on to the next
      row or breaks. */
  datatype Next = Continue(tally: Tally) | Break(tally: Tally, halt: Halt)

  /** One iteration of the loop, on row `i` whose identifier is `ids[i]`
      (App.tsx:104-178). Its effect is stated against the per-row reference
      definition further down. */
  function Step(ids: seq<string>, stopOnError: bool, oracle: Oracle, i: nat, t: Tally): (n: Next)
    requires i < |ids|
    ensures n.tally.results == t.results + [ExpectedRow(ids, oracle, i)]
    ensures n.tally.successes == t.successes + (if Succeeds(ids, oracle, i) then 1 else 0)
    ensures n.tally.errors == t.errors + (if Succeeds(ids, oracle, i) then 0 else 1)
    ensures n.tally.events == t.events + RowEvents(ids, stopOnError, oracle, i)
    ensures n.Break? <==> stopOnError && !Succeeds(ids, oracle, i)
    ensures n.Break? ==> n.halt == HaltAt(ids, i)
  {
    var taxCode := ids[i];
    if taxCode == "" then
      var t' := t.(results := t.results + [SkippedRow], errors := t.errors + 1);
      if stopOnError then Break(t', StoppedOnBlank(i + 2)) else Continue(t')
    else
      var o := Classify(taxCode, oracle(i));
      var t' := Tally(t.results + [o.row],
                      t.successes + (if o.ok then 1 else 0),
                      t.errors + (if o.ok then 0 else 1),
                      t.events + [Query(taxCode)]);
      if !o.ok && stopOnError then Break(t', StoppedOnLookup(taxCode))
      else if i < |ids| - 1 then Continue(t'.(events := t'.events + [Pause]))
      else Continue(t')
  }

  /** The loop from row `i` on, with accumulators `t`. Rows are only ever
      appended, one per processed row, each bumping exactly one counter. */
  function Loop(ids: seq<string>, stopOnError: bool, oracle: Oracle, i: nat, t: Tally): (r: Run)
    requires i <= |ids|
    ensures t.results <= r.tally.results && t.events <= r.tally.events
    ensures |r.tally.results| <= |t.results| + (|ids| - i)
    ensures r.tally.successes + r.tally.errors + |t.results| == t.successes + t.errors + |r.tally.results|
    ensures !stopOnError ==> r.halt == Finished && |r.tally.results| == |t.results| + (|ids| - i)
    decreases |ids| - i
  {
    if i == |ids| then Run(t, Finished)
    else
      match Step(ids, stopOnError, oracle, i, t)
      case Break(t', halt) => Run(t', halt)
      case Continue(t') => Loop(ids, stopOnError, oracle, i + 1, t')
  }

  /** A whole run over the parsed rows. */
  function Drive(rows: seq<SheetRow>, stopOnError: bool, oracle: Oracle): Run {
    Loop(Identifiers(rows), stopOnError, oracle, 0, EmptyTally)
  }

  // ---------------------------------------------------------------------
  // Reference definition: what each row contributes, independently of
  // the loop's control flow.

  /** The result row contributed by the row whose identifier is `ids[k]`.
      It restates the branches of `Step` row by row; what the row means
      (the registry's record for a success, a cross-marked status
      otherwise, the fixed row for a blank) is `ExpectedRowShape`. */
  function ExpectedRow(ids: seq<string>, oracle: Oracle, k: nat): ResultRow
    requires k < |ids|
  {
    if ids[k] == "" then SkippedRow else Classify(ids[k], oracle(k)).row
  }

  /** Row `k` counts as a success. */
  predicate Succeeds(ids: seq<string>, oracle: Oracle, k: nat)
    requires k < |ids|
  {
    ids[k] != "" && Accepted(oracle(k))
  }

  /** Number of successes among the first `n` rows. */
  function SuccessesBefore(ids: seq<string>, oracle: Oracle, n: nat): (c: nat)
    requires n <= |ids|
    ensures c <= n
  {
    if n == 0 then 0
    else SuccessesBefore(ids, oracle, n - 1) + (if Succeeds(ids, oracle, n - 1) then 1 else 0)
  }

  /** The events row `k` causes when it is processed: a blank row causes
      none; a looked-up row causes its query, followed by the pause unless it
      is the last row or the run stops on it. It restates the branches of
      `Step`; what the events mean for a whole run is stated by
      `EventsQueryLookedUp`, `EventsPauseAfterQuery`, `RequestsFollowPauses`
      and `LastLookupHasNoPause`. */
  function RowEvents(ids: seq<string>, stopOnError: bool, oracle: Oracle, k: nat): seq<Event>
    requires k < |ids|
  {
    if ids[k] == "" then []
    else if k < |ids| - 1 && (!stopOnError || Succeeds(ids, oracle, k)) then [Query(ids[k]), Pause]
    else [Query(ids[k])]
  }

  /** The events of the first `n` rows, in row order. */
  function EventsBefore(ids: seq<string>, stopOnError: bool, oracle: Oracle, n: nat): seq<Event>
    requires n <= |ids|
  {
    if n == 0 then []
    else EventsBefore(ids, stopOnError, oracle, n - 1) + RowEvents(ids, stopOnError, oracle, n - 1)
  }

  /** The result rows of the first `n` rows, in row order. */
  function ExpectedRows(ids: seq<string>, oracle: Oracle, n: nat): (r: seq<ResultRow>)
    requires n <= |ids|
    ensures |r| == n
  {
    if n == 0 then [] else ExpectedRows(ids, oracle, n - 1) + [ExpectedRow(ids, oracle, n - 1)]
  }

  /** `ExpectedRows` lists row `k`'s contribution at position `k`. */
  lemma {:induction false} ExpectedRowsAt(ids: seq<string>, oracle: Oracle, n: nat)
    requires n <= |ids|
    ensures forall k :: 0 <= k < n ==> ExpectedRows(ids, oracle, n)[k] == ExpectedRow(ids, oracle, k)
  {
    if n > 0 {
      ExpectedRowsAt(ids, oracle, n - 1);
      var prev := ExpectedRows(ids, oracle, n - 1);
      assert ExpectedRows(ids, oracle, n) == prev + [ExpectedRow(ids, oracle, n - 1)];
      forall k | 0 <= k < n
        ensures ExpectedRows(ids, oracle, n)[k] == ExpectedRow(ids, oracle, k)
      {
        if k < n - 1 {
          assert ExpectedRows(ids, oracle, n)[k] == prev[k];
        }
      }
    }
  }

  /** `t` is exactly what processing the first `n` rows yields. */
  predicate Matches(ids: seq<string>, stopOnError: bool, oracle: Oracle, n: nat, t: Tally)
    requires n <= |ids|
  {
    && t.results == ExpectedRows(ids, oracle, n)
    && t.successes == SuccessesBefore(ids, oracle, n)
    && t.errors == n - SuccessesBefore(ids, oracle, n)
    && t.events == EventsBefore(ids, stopOnError, oracle, n)
  }

  /** Every row before `n` succeeded. */
  predicate AllSucceed(ids: seq<string>, oracle: Oracle, n: nat)
    requires n <= |ids|
  {
    forall k :: 0 <= k < n ==> Succeeds(ids, oracle, k)
  }

  /** All of the first `n` rows succeeded exactly when the success count
      among them is `n`. */
  lemma {:induction false} AllSucceedIffCount(ids: seq<string>, oracle: Oracle, n: nat)
    requires n <= |ids|
    ensures AllSucceed(ids, oracle, n) <==> SuccessesBefore(ids, oracle, n) == n
  {
    if n > 0 {
      AllSucceedIffCount(ids, oracle, n - 1);
      var before := SuccessesBefore(ids, oracle, n - 1);
      if Succeeds(ids, oracle, n - 1) {
        assert SuccessesBefore(ids, oracle, n) == before + 1;
        assert AllSucceed(ids, oracle, n) <==> AllSucceed(ids, oracle, n - 1);
      } else {
        assert SuccessesBefore(ids, oracle, n) == before <= n - 1;
        assert !AllSucceed(ids, oracle, n);
      }
    }
  }

  /** The halt reason that row `k` gives when the run stops on it. It
      restates the `break` branches of `Step`; that a stop names the first
      failing row is `StopOnErrorHaltsAtFirstFailure`. */
  function HaltAt(ids: seq<string>, k: nat): Halt
    requires k < |ids|
  {
    if ids[k] == "" then StoppedOnBlank(k + 2) else StoppedOnLookup(ids[k])
  }

  /** Processing row `i` extends a matching tally by that row's contribution. */
  lemma StepMatches(ids: seq<string>, stopOnError: bool, oracle: Oracle, i: nat, t: Tally, t': Tally)
    requires i < |ids| && Matches(ids, stopOnError, oracle, i, t)
    requires t'.results == t.results + [ExpectedRow(ids, oracle, i)]
    requires t'.successes == t.successes + (if Succeeds(ids, oracle, i) then 1 else 0)
    requires t'.errors == t.errors + (if Succeeds(ids, oracle, i) then 0 else 1)
    requires t'.events == t.events + RowEvents(ids, stopOnError, oracle, i)
    ensures Matches(ids, stopOnError, oracle, i + 1, t')
  {
  }

  /** What the loop guarantees when started at row `i` on a matching tally:
      it processes rows in order, each contributing its expected row,
      counter and events, and it stops early only under `stopOnError`,
      right after the first failing row. */
  predicate LoopSpec(ids: seq<string>, stopOnError: bool, oracle: Oracle, i: nat, r: Run)
    requires i <= |ids|
  {
    var n := |r.tally.results|;
    && i <= n <= |ids|
    && Matches(ids, stopOnError, oracle, n, r.tally)
    && (r.halt == Finished ==> n == |ids| && (stopOnError ==> SuccessesBefore(ids, oracle, n) == n))
    && (r.halt != Finished ==>
          && stopOnError && 0 < n
          && SuccessesBefore(ids, oracle, n - 1) == n - 1
          && !Succeeds(ids, oracle, n - 1)
          && r.halt == HaltAt(ids, n - 1))
  }

  lemma {:induction false} LoopMatches(ids: seq<string>, stopOnError: bool, oracle: Oracle, i: nat, t: Tally)
    requires i <= |ids| && Matches(ids, stopOnError, oracle, i, t)
    requires stopOnError ==> SuccessesBefore(ids, oracle, i) == i
    ensures LoopSpec(ids, stopOnError, oracle, i, Loop(ids, stopOnError, oracle, i, t))
    decreases |ids| - i, 1
  {
    if i < |ids| {
      var n := Step(ids, stopOnError, oracle, i, t);
      StepMatches(ids, stopOnError, oracle, i, t, n.tally);
      LoopUnfold(ids, stopOnError, oracle, i, t);
      if n.Continue? {
        ContinueMatches(ids, stopOnError, oracle, i, n.tally);
      } else {
        BreakMatches(ids, stopOnError, oracle, i, n.tally, n.halt);
      }
    }
  }

  lemma {:induction false} ContinueMatches(ids: seq<string>, stopOnError: bool, oracle: Oracle, i: nat, t': Tally)
    requires i < |ids| && Matches(ids, stopOnError, oracle, i + 1, t')
    requires stopOnError ==> SuccessesBefore(ids, oracle, i + 1) == i + 1
    ensures LoopSpec(ids, stopOnError, oracle, i, Loop(ids, stopOnError, oracle, i + 1, t'))
    decreases |ids| - i, 0
  {
    LoopMatches(ids, stopOnError, oracle, i + 1, t');
  }

  lemma BreakMatches(ids: seq<string>, stopOnError: bool, oracle: Oracle, i: nat, t': Tally, halt: Halt)
    requires i < |ids| && Matches(ids, stopOnError, oracle, i + 1, t')
    requires stopOnError && SuccessesBefore(ids, oracle, i) == i && !Succeeds(ids, oracle, i)
    requires halt == HaltAt(ids, i)
    ensures LoopSpec(ids, stopOnError, oracle, i, Run(t', halt))
  {
  }

  /** One turn of the loop. */
  lemma LoopUnfold(ids: seq<string>, stopOnError: bool, oracle: Oracle, i: nat, t: Tally)
    requires i < |ids|
    ensures var n := Step(ids, stopOnError, oracle, i, t);
      Loop(ids, stopOnError, oracle, i, t)
        == if n.Continue? then Loop(ids, stopOnError, oracle, i + 1, n.tally) else Run(n.tally, n.halt)
  {
  }

  /** A whole run, stated against the reference definition. */
  lemma DriveMatches(rows: seq<SheetRow>, stopOnError: bool, oracle: Oracle)
    ensures LoopSpec(Identifiers(rows), stopOnError, oracle, 0, Drive(rows, stopOnError, oracle))
  {
    LoopMatches(Identifiers(rows), stopOnError, oracle, 0, EmptyTally);
  }

  // ---------------------------------------------------------------------
  // What reaches the network.

  /** The identifiers sent to the registry, in the order of the requests. */
  function Queries(events: seq<Event>): seq<string>
    decreases |events|
  {
    if events == [] then []
    else
      var last := events[|events| - 1];
      Queries(events[..|events| - 1]) + (if last.Query? then [last.taxCode] else [])
  }

  lemma {:induction false} QueriesAppend(a: seq<Event>, b: seq<Event>)
    ensures Queries(a + b) == Queries(a) + Queries(b)
    decreases |b|
  {
    if b == [] {
      assert a + b == a;
    } else {
      var b' := b[..|b| - 1];
      assert (a + b)[..|a + b| - 1] == a + b';
      QueriesAppend(a, b');
    }
  }

  /** The non-blank identifiers among the first `n` rows, in row order. */
  function LookedUp(ids: seq<string>, n: nat): seq<string>
    requires n <= |ids|
  {
    if n == 0 then []
    else LookedUp(ids, n - 1) + (if ids[n - 1] == "" then [] else [ids[n - 1]])
  }

  /** A blank identifier is never looked up, and every looked-up identifier
      belongs to one of the first `n` rows. */
  lemma {:induction false} LookedUpNonBlank(ids: seq<string>, n: nat)
    requires n <= |ids|
    ensures forall j :: 0 <= j < |LookedUp(ids, n)| ==> LookedUp(ids, n)[j] != ""
    ensures forall j :: 0 <= j < |LookedUp(ids, n)| ==> LookedUp(ids, n)[j] in ids[..n]
  {
    if n > 0 {
      LookedUpNonBlank(ids, n - 1);
      var prev := LookedUp(ids, n - 1);
      var here := if ids[n - 1] == "" then [] else [ids[n - 1]];
      assert LookedUp(ids, n) == prev + here;
      forall j | 0 <= j < |prev + here|
        ensures (prev + here)[j] != "" && (prev + here)[j] in ids[..n]
      {
        if j < |prev| {
          assert (prev + here)[j] == prev[j];
          assert prev[j] in ids[..n - 1];
          assert ids[..n - 1] <= ids[..n];
        } else {
          assert (prev + here)[j] == ids[n - 1] == ids[..n][n - 1];
        }
      }
    }
  }

  /** The identifiers row `k` sends: its own, unless it is blank. */
  lemma RowQueries(ids: seq<string>, stopOnError: bool, oracle: Oracle, k: nat)
    requires k < |ids|
    ensures Queries(RowEvents(ids, stopOnError, oracle, k)) == (if ids[k] == "" then [] else [ids[k]])
  {
    if ids[k] != "" {
      assert Queries([Query(ids[k])]) == [ids[k]] by {
        assert [Query(ids[k])][..0] == [];
      }
      assert [Query(ids[k]), Pause][..1] == [Query(ids[k])];
    }
  }

  /** Processing one more row adds that row's identifier to the requests,
      unless it is blank. */
  lemma QueriesStep(ids: seq<string>, stopOnError: bool, oracle: Oracle, n: nat)
    requires 0 < n <= |ids|
    ensures Queries(EventsBefore(ids, stopOnError, oracle, n))
         == Queries(EventsBefore(ids, stopOnError, oracle, n - 1)) + (if ids[n - 1] == "" then [] else [ids[n - 1]])
  {
    var before := EventsBefore(ids, stopOnError, oracle, n - 1);
    var row := RowEvents(ids, stopOnError, oracle, n - 1);
    var sent := if ids[n - 1] == "" then [] else [ids[n - 1]];
    RowQueries(ids, stopOnError, oracle, n - 1);
    assert Queries(row) == sent;
    calc {
      Queries(EventsBefore(ids, stopOnError, oracle, n));
      Queries(before + row);
      { QueriesAppend(before, row); }
      Queries(before) + Queries(row);
      Queries(before) + sent;
    }
  }

  /** The first `n` rows send exactly their non-blank identifiers, in row
      order, one request each. */
  lemma {:induction false} EventsQueryLookedUp(ids: seq<string>, stopOnError: bool, oracle: Oracle, n: nat)
    requires n <= |ids|
    ensures QueriesAreLookedUp(ids, stopOnError, oracle, n)
    decreases n, 1
  {
    if n > 0 {
      QueriesExtend(ids, stopOnError, oracle, n);
    } else {
      NoRowsNoQueries(ids, stopOnError, oracle);
    }
  }

  lemma NoRowsNoQueries(ids: seq<string>, stopOnError: bool, oracle: Oracle)
    ensures QueriesAreLookedUp(ids, stopOnError, oracle, 0)
  {
    assert EventsBefore(ids, stopOnError, oracle, 0) == [];
  }

  /** The requests the first `n` rows make are their non-blank
      identifiers. */
  predicate QueriesAreLookedUp(ids: seq<string>, stopOnError: bool, oracle: Oracle, n: nat)
    requires n <= |ids|
  {
    Queries(EventsBefore(ids, stopOnError, oracle, n)) == LookedUp(ids, n)
  }

  /** The induction step: the first `n - 1` rows, then row `n - 1`. */
  lemma {:induction false} QueriesExtend(ids: seq<string>, stopOnError: bool, oracle: Oracle, n: nat)
    requires 0 < n <= |ids|
    ensures QueriesAreLookedUp(ids, stopOnError, oracle, n)
    decreases n, 0
  {
    var sent := if ids[n - 1] == "" then [] else [ids[n - 1]];
    calc {
      Queries(EventsBefore(ids, stopOnError, oracle, n));
      { QueriesStep(ids, stopOnError, oracle, n); }
      Queries(EventsBefore(ids, stopOnError, oracle, n - 1)) + sent;
      { EventsQueryLookedUp(ids, stopOnError, oracle, n - 1); }
      LookedUp(ids, n - 1) + sent;
      LookedUp(ids, n);
    }
  }

  /** Every pause directly follows a registry request: the events do not
      start with a pause, and the event before each pause is a request. */
  predicate PausesFollowQueries(events: seq<Event>) {
    && (events != [] ==> events[0] != Pause)
    && forall i, j :: 0 <= i < |events| && 0 <= j < |events| && j == i + 1 && events[j] == Pause ==> events[i].Query?
  }

  /** Every request but the first directly follows a pause: requests are
      always spaced by the two-second delay. */
  predicate QueriesFollowPauses(events: seq<Event>) {
    forall i, j :: 0 <= i < |events| && 0 <= j < |events| && j == i + 1 && events[j].Query? ==> events[i] == Pause
  }

  /** The events of one row: nothing, or a request optionally followed by
      one pause. */
  predicate RowShaped(row: seq<Event>) {
    row == [] || (row[0].Query? && (|row| == 1 || (|row| == 2 && row[1] == Pause)))
  }

  lemma RowEventsShaped(ids: seq<string>, stopOnError: bool, oracle: Oracle, k: nat)
    requires k < |ids|
    ensures RowShaped(RowEvents(ids, stopOnError, oracle, k))
  {
  }

  /** Every pause directly follows a request, stated from the back: the
      events without their last one qualify, and a last event that is a
      pause has a request just before it. */
  predicate PausesBehindQueries(events: seq<Event>)
    decreases |events|
  {
    events == [] ||
    (PausesBehindQueries(events[..|events| - 1]) &&
     (events[|events| - 1] == Pause ==> |events| >= 2 && events[|events| - 2].Query?))
  }

  /** `PausesBehindQueries` is `PausesFollowQueries` stated pair by pair. */
  lemma {:induction false} PausesBehindQueriesMeans(events: seq<Event>)
    requires PausesBehindQueries(events)
    ensures PausesFollowQueries(events)
    decreases |events|
  {
    if events != [] {
      var init := events[..|events| - 1];
      PausesBehindQueriesMeans(init);
      assert forall k :: 0 <= k < |init| ==> events[k] == init[k];
    }
  }

  lemma PausesBehindAppendQuery(before: seq<Event>, q: Event)
    requires PausesBehindQueries(before) && q.Query?
    ensures PausesBehindQueries(before + [q])
  {
    assert (before + [q])[..|before|] == before;
  }

  lemma PausesBehindAppendQueryPause(before: seq<Event>, q: Event)
    requires PausesBehindQueries(before) && q.Query?
    ensures PausesBehindQueries(before + [q, Pause])
  {
    PausesBehindAppendQuery(before, q);
    var x := before + [q];
    assert before + [q, Pause] == x + [Pause];
    assert (x + [Pause])[..|x|] == x;
  }

  /** Appending one row's events keeps every pause behind a request. */
  lemma PausesBehindAppend(before: seq<Event>, row: seq<Event>)
    requires PausesBehindQueries(before) && RowShaped(row)
    ensures PausesBehindQueries(before + row)
  {
    if row == [] {
      assert before + row == before;
    } else if |row| == 1 {
      assert row == [row[0]];
      PausesBehindAppendQuery(before, row[0]);
    } else {
      assert row == [row[0], Pause];
      PausesBehindAppendQueryPause(before, row[0]);
    }
  }

  /** The induction step: the first `n - 1` rows, then row `n - 1`. */
  lemma {:induction false} PausesBehindStep(ids: seq<string>, stopOnError: bool, oracle: Oracle, n: nat)
    requires 0 < n <= |ids|
    ensures PausesBehindQueries(EventsBefore(ids, stopOnError, oracle, n))
    decreases n, 0
  {
    PausesBehindThrough(ids, stopOnError, oracle, n - 1);
    PausesBehindRow(ids, stopOnError, oracle, n);
  }

  lemma PausesBehindRow(ids: seq<string>, stopOnError: bool, oracle: Oracle, n: nat)
    requires 0 < n <= |ids|
    requires PausesBehindQueries(EventsBefore(ids, stopOnError, oracle, n - 1))
    ensures PausesBehindQueries(EventsBefore(ids, stopOnError, oracle, n))
  {
    RowEventsShaped(ids, stopOnError, oracle, n - 1);
    PausesBehindAppend(EventsBefore(ids, stopOnError, oracle, n - 1), RowEvents(ids, stopOnError, oracle, n - 1));
  }

  lemma NoRowsNoEvents(ids: seq<string>, stopOnError: bool, oracle: Oracle)
    ensures EventsBefore(ids, stopOnError, oracle, 0) == []
  {
  }

  lemma {:induction false} PausesBehindThrough(ids: seq<string>, stopOnError: bool, oracle: Oracle, n: nat)
    requires n <= |ids|
    ensures PausesBehindQueries(EventsBefore(ids, stopOnError, oracle, n))
    decreases n, 1
  {
    if n > 0 {
      PausesBehindStep(ids, stopOnError, oracle, n);
    } else {
      NoRowsNoEvents(ids, stopOnError, oracle);
    }
  }

  /** Whatever the rows, a pause is only ever taken right after a request:
      skipped blank rows never cause one. */
  lemma EventsPauseAfterQuery(ids: seq<string>, stopOnError: bool, oracle: Oracle, n: nat)
    requires n <= |ids|
    ensures PausesFollowQueries(EventsBefore(ids, stopOnError, oracle, n))
  {
    PausesBehindThrough(ids, stopOnError, oracle, n);
    PausesBehindQueriesMeans(EventsBefore(ids, stopOnError, oracle, n));
  }

  /** The events so far are empty or end with a pause. */
  predicate EndsPaused(events: seq<Event>) {
    events == [] || events[|events| - 1] == Pause
  }

  /** Every request but the first directly follows a pause, stated from
      the back: the events without their last one are spaced, and a last
      event that is a request follows a pause. */
  predicate Spaced(events: seq<Event>)
    decreases |events|
  {
    |events| <= 1 ||
    (Spaced(events[..|events| - 1]) && (events[|events| - 1].Query? ==> events[|events| - 2] == Pause))
  }

  /** `Spaced` is the throttle `QueriesFollowPauses` states pair by pair. */
  lemma {:induction false} SpacedMeansQueriesFollowPauses(events: seq<Event>)
    requires Spaced(events)
    ensures QueriesFollowPauses(events)
    decreases |events|
  {
    if |events| > 1 {
      var init := events[..|events| - 1];
      SpacedMeansQueriesFollowPauses(init);
      assert forall k :: 0 <= k < |init| ==> events[k] == init[k];
    }
  }

  lemma SpacedAppendQuery(before: seq<Event>, q: Event)
    requires Spaced(before) && EndsPaused(before)
    ensures Spaced(before + [q])
  {
    assert (before + [q])[..|before|] == before;
  }

  lemma SpacedAppendQueryPause(before: seq<Event>, q: Event)
    requires Spaced(before) && EndsPaused(before)
    ensures Spaced(before + [q, Pause]) && EndsPaused(before + [q, Pause])
  {
    SpacedAppendQuery(before, q);
    var x := before + [q];
    assert before + [q, Pause] == x + [Pause];
    assert (x + [Pause])[..|x|] == x;
  }

  /** Appending one row's events to events that end paused keeps every
      request behind a pause; the result ends paused again when the row
      does. */
  lemma SpacedAppend(before: seq<Event>, row: seq<Event>)
    requires Spaced(before) && EndsPaused(before) && RowShaped(row)
    ensures Spaced(before + row)
    ensures EndsPaused(row) ==> EndsPaused(before + row)
  {
    if row == [] {
      assert before + row == before;
    } else if |row| == 1 {
      assert row == [row[0]];
      SpacedAppendQuery(before, row[0]);
    } else {
      assert row == [row[0], Pause];
      SpacedAppendQueryPause(before, row[0]);
    }
  }

  /** A row that is not the last one, and that does not stop the run, ends
      its events with a pause if it made a request. */
  lemma RowEndsPaused(ids: seq<string>, stopOnError: bool, oracle: Oracle, k: nat)
    requires k < |ids| - 1 && (stopOnError ==> Succeeds(ids, oracle, k))
    ensures EndsPaused(RowEvents(ids, stopOnError, oracle, k))
  {
  }

  lemma SpacedStep(ids: seq<string>, stopOnError: bool, oracle: Oracle, n: nat)
    requires 0 < n <= |ids|
    requires Spaced(EventsBefore(ids, stopOnError, oracle, n - 1))
    requires EndsPaused(EventsBefore(ids, stopOnError, oracle, n - 1))
    ensures Spaced(EventsBefore(ids, stopOnError, oracle, n))
    ensures EndsPaused(RowEvents(ids, stopOnError, oracle, n - 1)) ==>
              EndsPaused(EventsBefore(ids, stopOnError, oracle, n))
  {
    RowEventsShaped(ids, stopOnError, oracle, n - 1);
    SpacedAppend(EventsBefore(ids, stopOnError, oracle, n - 1), RowEvents(ids, stopOnError, oracle, n - 1));
  }

  /** The events so far keep every request behind a pause and end with a
      pause. */
  predicate PausedUpTo(ids: seq<string>, stopOnError: bool, oracle: Oracle, n: nat)
    requires n <= |ids|
  {
    Spaced(EventsBefore(ids, stopOnError, oracle, n)) && EndsPaused(EventsBefore(ids, stopOnError, oracle, n))
  }

  /** Before the last row, and while no row has stopped the run, every
      request follows a pause and the events end with a pause. */
  lemma {:induction false} PausedBeforeEachQuery(ids: seq<string>, stopOnError: bool, oracle: Oracle, n: nat)
    requires n < |ids| && (stopOnError ==> AllSucceed(ids, oracle, n))
    ensures PausedUpTo(ids, stopOnError, oracle, n)
    decreases n, 1
  {
    if n > 0 {
      PausedExtend(ids, stopOnError, oracle, n);
    } else {
      NoRowsNoEvents(ids, stopOnError, oracle);
    }
  }

  /** The induction step: the first `n - 1` rows, then row `n - 1`. */
  lemma {:induction false} PausedExtend(ids: seq<string>, stopOnError: bool, oracle: Oracle, n: nat)
    requires 0 < n < |ids| && (stopOnError ==> AllSucceed(ids, oracle, n))
    ensures PausedUpTo(ids, stopOnError, oracle, n)
    decreases n, 0
  {
    AllSucceedPrefix(ids, stopOnError, oracle, n);
    PausedBeforeEachQuery(ids, stopOnError, oracle, n - 1);
    RowEndsPaused(ids, stopOnError, oracle, n - 1);
    SpacedStep(ids, stopOnError, oracle, n);
  }

  lemma AllSucceedPrefix(ids: seq<string>, stopOnError: bool, oracle: Oracle, n: nat)
    requires 0 < n <= |ids| && (stopOnError ==> AllSucceed(ids, oracle, n))
    ensures stopOnError ==> AllSucceed(ids, oracle, n - 1) && Succeeds(ids, oracle, n - 1)
  {
  }

  /** The rows before the one a run ends on all succeeded when the switch
      is on. */
  lemma EarlierRowsSucceeded(ids: seq<string>, stopOnError: bool, oracle: Oracle, r: Run)
    requires LoopSpec(ids, stopOnError, oracle, 0, r) && 0 < |r.tally.results|
    ensures stopOnError ==> AllSucceed(ids, oracle, |r.tally.results| - 1)
  {
    var n := |r.tally.results|;
    if stopOnError {
      assert SuccessesBefore(ids, oracle, n - 1) == n - 1 by {
        if r.halt == Finished {
          assert SuccessesBefore(ids, oracle, n) == n;
        }
      }
      AllSucceedIffCount(ids, oracle, n - 1);
    }
  }

  // ---------------------------------------------------------------------
  // The properties of a whole run.

  /** Any run: result `k` is row `k`'s contribution, in row order up to the
      point where the run ended; every result bumped exactly one counter and
      the success counter counts successful rows; the registry saw exactly
      the non-blank identifiers of the processed rows, in order, and every
      pause came right after a request. */
  lemma RunFollowsRows(rows: seq<SheetRow>, stopOnError: bool, oracle: Oracle)
    ensures var ids := Identifiers(rows);
      var r := Drive(rows, stopOnError, oracle);
      var n := |r.tally.results|;
      && n <= |rows|
      && (forall k :: 0 <= k < n ==> r.tally.results[k] == ExpectedRow(ids, oracle, k))
      && r.tally.successes + r.tally.errors == n
      && r.tally.successes == SuccessesBefore(ids, oracle, n)
      && Queries(r.tally.events) == LookedUp(ids, n)
      && PausesFollowQueries(r.tally.events)
  {
    var ids := Identifiers(rows);
    var r := Drive(rows, stopOnError, oracle);
    DriveMatches(rows, stopOnError, oracle);
    ExpectedRowsAt(ids, oracle, |r.tally.results|);
    EventsQueryLookedUp(ids, stopOnError, oracle, |r.tally.results|);
    EventsPauseAfterQuery(ids, stopOnError, oracle, |r.tally.results|);
  }

  /** With `stopOnError` off every row is processed: one result per row, in
      row order, and every non-blank identifier is looked up once. */
  lemma WithoutStopEveryRowIsProcessed(rows: seq<SheetRow>, oracle: Oracle)
    ensures var ids := Identifiers(rows);
      var r := Drive(rows, false, oracle);
      && r.halt == Finished
      && |r.tally.results| == |rows|
      && (forall k :: 0 <= k < |rows| ==> r.tally.results[k] == ExpectedRow(ids, oracle, k))
      && Queries(r.tally.events) == LookedUp(ids, |rows|)
  {
    RunFollowsRows(rows, false, oracle);
  }

  /** With `stopOnError` on the run stops right after the first failing row:
      every earlier row succeeded, the run finishes only when every row
      succeeds, and the halt names the failing row. */
  lemma {:induction false} StopSpec(ids: seq<string>, oracle: Oracle, r: Run)
    requires LoopSpec(ids, true, oracle, 0, r)
    ensures var n := |r.tally.results|;
      && (forall k :: 0 <= k < n - 1 ==> Succeeds(ids, oracle, k))
      && (r.halt == Finished <==> AllSucceed(ids, oracle, |ids|))
      && (r.halt != Finished ==> 0 < n && !Succeeds(ids, oracle, n - 1) && r.halt == HaltAt(ids, n - 1))
  {
    var n := |r.tally.results|;
    if r.halt == Finished {
      AllSucceedIffCount(ids, oracle, |ids|);
      assert AllSucceed(ids, oracle, n);
    } else {
      AllSucceedIffCount(ids, oracle, n - 1);
      assert !AllSucceed(ids, oracle, |ids|) by {
        assert !Succeeds(ids, oracle, n - 1);
      }
    }
  }

  /** A run stopped on a failed lookup ends with that lookup's request: no
      pause follows it. */
  lemma StopOnLookupEndsWithQuery(ids: seq<string>, oracle: Oracle, r: Run)
    requires LoopSpec(ids, true, oracle, 0, r) && r.halt.StoppedOnLookup?
    ensures 0 < |r.tally.events| && r.tally.events[|r.tally.events| - 1] == Query(r.halt.taxCode)
  {
    var n := |r.tally.results|;
    assert r.tally.events == EventsBefore(ids, true, oracle, n - 1) + [Query(ids[n - 1])];
  }

  /** What a run `r` over the identifiers `ids` with `stopOnError` on
      guarantees: every row before the last processed one succeeded; the run
      finishes exactly when every row succeeds, and then it has processed
      every row; otherwise it stopped on the
      last processed row, which failed; a stop on a blank row names
      spreadsheet row `i + 2` for the 0-based row `i`; a stop on a failed
      lookup is followed by no pause; and no row after the failing one is
      looked up. */
  predicate StoppedAtFirstFailure(ids: seq<string>, oracle: Oracle, r: Run) {
    var n := |r.tally.results|;
    && n <= |ids|
    && (forall k :: 0 <= k < n - 1 ==> Succeeds(ids, oracle, k))
    && (r.halt == Finished <==> AllSucceed(ids, oracle, |ids|))
    && (r.halt == Finished ==> n == |ids|)
    && (r.halt != Finished ==> 0 < n && !Succeeds(ids, oracle, n - 1) && r.halt == HaltAt(ids, n - 1))
    && (r.halt.StoppedOnBlank? ==> 0 < n && ids[n - 1] == "" && r.halt.sheetRow == n + 1)
    && (r.halt.StoppedOnLookup? ==>
          0 < |r.tally.events| && r.tally.events[|r.tally.events| - 1] == Query(r.halt.taxCode))
    && Queries(r.tally.events) == LookedUp(ids, n)
  }

  lemma StopRun(ids: seq<string>, oracle: Oracle, r: Run)
    requires LoopSpec(ids, true, oracle, 0, r)
    ensures StoppedAtFirstFailure(ids, oracle, r)
  {
    StopSpec(ids, oracle, r);
    EventsQueryLookedUp(ids, true, oracle, |r.tally.results|);
    if r.halt.StoppedOnLookup? {
      StopOnLookupEndsWithQuery(ids, oracle, r);
    }
  }

  /** With `stopOnError` on, a whole run stops right after the first failing
      row (see `StoppedAtFirstFailure`). */
  lemma StopOnErrorHaltsAtFirstFailure(rows: seq<SheetRow>, oracle: Oracle)
    ensures StoppedAtFirstFailure(Identifiers(rows), oracle, Drive(rows, true, oracle))
  {
    DriveMatches(rows, true, oracle);
    StopRun(Identifiers(rows), oracle, Drive(rows, true, oracle));
  }

  /** No pause follows the lookup of the sheet's last row: a run that
      reaches a non-blank last row ends with that row's request. */
  lemma LastLookupHasNoPause(rows: seq<SheetRow>, stopOnError: bool, oracle: Oracle)
    ensures var ids := Identifiers(rows);
      var r := Drive(rows, stopOnError, oracle);
      |r.tally.results| == |rows| && 0 < |rows| && ids[|rows| - 1] != "" ==>
        0 < |r.tally.events| && r.tally.events[|r.tally.events| - 1] == Query(ids[|rows| - 1])
  {
    DriveMatches(rows, stopOnError, oracle);
    var ids := Identifiers(rows);
    var r := Drive(rows, stopOnError, oracle);
    if |r.tally.results| == |rows| && 0 < |rows| && ids[|rows| - 1] != "" {
      RunEndsWithLastQuery(ids, stopOnError, oracle, r);
    }
  }

  lemma RunEndsWithLastQuery(ids: seq<string>, stopOnError: bool, oracle: Oracle, r: Run)
    requires LoopSpec(ids, stopOnError, oracle, 0, r)
    requires |r.tally.results| == |ids| && 0 < |ids| && ids[|ids| - 1] != ""
    ensures 0 < |r.tally.events| && r.tally.events[|r.tally.events| - 1] == Query(ids[|ids| - 1])
  {
    assert r.tally.events == EventsBefore(ids, stopOnError, oracle, |ids|);
    EndsWithLastQuery(ids, stopOnError, oracle);
  }

  lemma EndsWithLastQuery(ids: seq<string>, stopOnError: bool, oracle: Oracle)
    requires 0 < |ids| && ids[|ids| - 1] != ""
    ensures var e := EventsBefore(ids, stopOnError, oracle, |ids|);
      0 < |e| && e[|e| - 1] == Query(ids[|ids| - 1])
  {
    var n := |ids|;
    assert RowEvents(ids, stopOnError, oracle, n - 1) == [Query(ids[n - 1])];
    assert EventsBefore(ids, stopOnError, oracle, n)
        == EventsBefore(ids, stopOnError, oracle, n - 1) + [Query(ids[n - 1])];
  }

  /** The throttle: in any run, every request but the first comes right
      after a two-second pause, so no two requests are ever sent back to
      back. */
  lemma RequestsFollowPauses(rows: seq<SheetRow>, stopOnError: bool, oracle: Oracle)
    ensures QueriesFollowPauses(Drive(rows, stopOnError, oracle).tally.events)
  {
    DriveMatches(rows, stopOnError, oracle);
    RunSpaced(Identifiers(rows), stopOnError, oracle, Drive(rows, stopOnError, oracle));
    SpacedMeansQueriesFollowPauses(Drive(rows, stopOnError, oracle).tally.events);
  }

  lemma RunSpaced(ids: seq<string>, stopOnError: bool, oracle: Oracle, r: Run)
    requires LoopSpec(ids, stopOnError, oracle, 0, r)
    ensures Spaced(r.tally.events)
  {
    var n := |r.tally.results|;
    if n == 0 {
      NoRowsNoEvents(ids, stopOnError, oracle);
    } else {
      EarlierRowsSucceeded(ids, stopOnError, oracle, r);
      SpacedThroughRow(ids, stopOnError, oracle, n);
    }
  }

  /** Up to and including row `n - 1`, every request but the first follows
      a pause, when the rows before it did not stop the run. */
  lemma SpacedThroughRow(ids: seq<string>, stopOnError: bool, oracle: Oracle, n: nat)
    requires 0 < n <= |ids| && (stopOnError ==> AllSucceed(ids, oracle, n - 1))
    ensures Spaced(EventsBefore(ids, stopOnError, oracle, n))
  {
    PausedBeforeEachQuery(ids, stopOnError, oracle, n - 1);
    SpacedStep(ids, stopOnError, oracle, n);
  }

  /** The shape of each row's result: a success carries the registry's
      record, not the spreadsheet cell; every other row carries an error
      status starting with the cross mark, and a blank row carries the fixed
      skipped row. */
  lemma ExpectedRowShape(ids: seq<string>, oracle: Oracle, k: nat)
    requires k < |ids|
    ensures var row := ExpectedRow(ids, oracle, k);
      && (Succeeds(ids, oracle, k) ==>
            var d := oracle(k).data.value;
            row == ResultRow(d.id, d.name, AddressOf(d.address), d.status))
      && (!Succeeds(ids, oracle, k) ==> CrossMark <= row.status)
      && (ids[k] == "" ==> row == SkippedRow)
      && (ids[k] != "" && !Succeeds(ids, oracle, k) ==> row.taxCode == ids[k])
  {
  }

  // ---------------------------------------------------------------------
  // The loop as App.tsx writes it.

  /** The `for` loop of App.tsx:94-179 over the rows of the sheet, the
      `break`s included. It computes exactly the run `Drive` describes, so
      every property proved of `Drive` holds of it. */
  method ProcessRows(rows: seq<SheetRow>, stopOnError: bool, oracle: Oracle)
    returns (results: seq<ResultRow>, successes: nat, errors: nat, events: seq<Event>, halt: Halt)
    ensures Run(Tally(results, successes, errors, events), halt) == Drive(rows, stopOnError, oracle)
    ensures successes + errors == |results| <= |rows|
    ensures !stopOnError ==> halt == Finished && |results| == |rows|
  {
    ghost var ids := Identifiers(rows);
    ghost var run := Drive(rows, stopOnError, oracle);
    results, successes, errors, events, halt := [], 0, 0, [], Finished;
    var i := 0;
    while i < |rows|
      invariant 0 <= i <= |rows|
      invariant Loop(ids, stopOnError, oracle, i, Tally(results, successes, errors, events)) == run
    {
      LoopUnfold(ids, stopOnError, oracle, i, Tally(results, successes, errors, events));
      var stop;
      results, successes, errors, events, stop := ProcessRow(rows, stopOnError, oracle, i, results, successes, errors, events);
      if stop.Some? {
        halt := stop.value;
        break;
      }
      i := i + 1;
    }
  }

  /** The body of that loop for row `i` (App.tsx:95-178): the updated
      accumulators, and the halt reason when the loop breaks. A `continue`
      is a return without a halt reason. */
  method ProcessRow(rows: seq<SheetRow>, stopOnError: bool, oracle: Oracle, i: nat,
                    results: seq<ResultRow>, successes: nat, errors: nat, events: seq<Event>)
    returns (results': seq<ResultRow>, successes': nat, errors': nat, events': seq<Event>, stop: Option<Halt>)
    requires i < |rows|
    ensures var t' := Tally(results', successes', errors', events');
      Step(Identifiers(rows), stopOnError, oracle, i, Tally(results, successes, errors, events))
        == if stop.Some? then Break(t', stop.value) else Continue(t')
  {
    var taxCode := TaxCodeOf(rows[i]);
    assert taxCode == Identifiers(rows)[i];
    if taxCode == "" {
      results', successes', errors', events' := results + [SkippedRow], successes, errors + 1, events;
      stop := if stopOnError then Some(StoppedOnBlank(i + 2)) else None;
      return;
    }
    var o := Classify(taxCode, oracle(i));
    results', events' := results + [o.row], events + [Query(taxCode)];
    successes', errors' := successes, errors;
    if o.ok {
      successes' := successes + 1;
    } else {
      errors' := errors + 1;
      if stopOnError {
        stop := Some(StoppedOnLookup(taxCode));
        return;
      }
    }
    if i < |rows| - 1 {
      events' := events' + [Pause];
    }
    stop := None;
  }
}
