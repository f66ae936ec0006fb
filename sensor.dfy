/**
 * One tick of the sensor check_for_updated_grist_tables: for every watched Grist
 * document, compare the document's updatedAt time with the time the cursor last
 * recorded for it, collect a run request per watched asset of every document that
 * changed, and persist the new cursor unless it equals the old one.
 */
module Sensor {
  import opened Wrappers
  import opened Timestamps

  /** An asset's key: the path of names dagster identifies the asset by. */
  datatype AssetKey = AssetKey(path: seq<string>)

  /** The key of the asset test_cashflow_assumptions. */
  const CashflowAssumptionsKey := AssetKey(["rec_assumptions", "test_cashflow_assumptions"])

  /** A watched document: the cursor knows it by `name`, the Grist API by `docId`. */
  datatype DocDescriptor = DocDescriptor(name: string, docId: string, assetKeys: seq<AssetKey>)

  /** The documents the repository configures the sensor to watch. */
  const GristDocs := [DocDescriptor("Cashflow Assumption", "wQnGTtHUrW15ezHTm999bv", [CashflowAssumptionsKey])]

  /**
   * What fetching a document's metadata gave: its `updatedAt` text; an `updatedAt`
   * that is not a string (null, a number), which strptime only rejects once the
   * cursor entry has been parsed; or a failure of the fetch itself (an HTTP error
   * status, retries exhausted, a body without `updatedAt`).
   */
  datatype Fetch = Fetched(updatedAt: string) | NotText | FetchFailed

  /** The persisted state: document name to the `updatedAt` text last acted on. */
  type Cursor = map<string, string>

  /** A request to materialise the selected assets, deduplicated by dagster on `runKey`. */
  datatype RunRequest = RunRequest(runKey: string, assetSelection: seq<AssetKey>)

  /** The exception that ends a tick, and the document it was raised for. */
  datatype TickError =
    | FetchError(doc: string)                  // fetching the document's metadata raised
    | BadTimestamp(doc: string, text: string)  // strptime raised ValueError on `text`
    | NotAString(doc: string)                  // strptime raised TypeError on a non-string updatedAt
    | MissingEntry(doc: string)                // cursor[name] raised KeyError

  /** What a tick returns to dagster: a SkipReason, the list of run requests, or an exception. */
  datatype Outcome =
    | Skip(reason: string)
    | Requests(newCursor: Cursor, runs: seq<RunRequest>)
    | Failed(error: TickError)

  const SkipMessage := "Table not updated since last run"

  // ---------------------------------------------------------------------------
  // Run requests

  /** The run key of a document's requests: its name, a bar, and the fetched text. */
  function RunKey(name: string, stamp: string): string {
    name + "|" + stamp
  }

  /** For a fixed document, equal fetched texts give equal run keys and different ones different keys. */
  lemma RunKeyDeterminism(name: string, stamp1: string, stamp2: string)
    ensures RunKey(name, stamp1) == RunKey(name, stamp2) <==> stamp1 == stamp2
  {
    if RunKey(name, stamp1) == RunKey(name, stamp2) {
      assert stamp1 == RunKey(name, stamp1)[|name| + 1..];
      assert stamp2 == RunKey(name, stamp2)[|name| + 1..];
    }
  }

  /**
   * The requests of a changed document: one per watched asset, in the order of
   * `keys`, each selecting that single asset and all sharing one run key.
   */
  function RequestsFor(name: string, stamp: string, keys: seq<AssetKey>): (rs: seq<RunRequest>)
    ensures |rs| == |keys|
  {
    if keys == [] then []
    else [RunRequest(RunKey(name, stamp), [keys[0]])] + RequestsFor(name, stamp, keys[1..])
  }

  /** Request `k` of a changed document selects its `k`-th watched asset alone, under the document's run key. */
  lemma {:induction false} RequestsForAt(name: string, stamp: string, keys: seq<AssetKey>, k: nat)
    requires k < |keys|
    ensures RequestsFor(name, stamp, keys)[k] == RunRequest(RunKey(name, stamp), [keys[k]])
  {
    if k > 0 {
      RequestsForAt(name, stamp, keys[1..], k - 1);
    }
  }

  // ---------------------------------------------------------------------------
  // The decision for one document

  /** The time the cursor last recorded for `name`: its entry parsed, or the epoch when it has none. */
  function LastRunTime(prev: Cursor, name: string): Option<DateTime> {
    if name in prev then Parse(prev[name]) else Some(Epoch)
  }

  /** What one document contributes: the cursor entry to write, and whether it changed. */
  datatype Decision = Decision(entry: string, updated: bool)

  /**
   * The body of the loop for one document, with its exceptions in the order Python
   * raises them: the fetch, the parse of the cursor entry, the parse of the fetched
   * value (a TypeError when it is not a string, a ValueError when strptime rejects
   * it), and the KeyError of a document that did not change and has no entry.
   */
  function Decide(doc: DocDescriptor, prev: Cursor, f: Fetch): (r: Result<Decision, TickError>)
    ensures f.FetchFailed? ==> r == Err(FetchError(doc.name))
    ensures f.NotText? && LastRunTime(prev, doc.name).Some? ==> r == Err(NotAString(doc.name))
    ensures r.Ok? <==>
      && f.Fetched? && LastRunTime(prev, doc.name).Some? && Parse(f.updatedAt).Some?
      && (doc.name in prev || Before(Epoch, Parse(f.updatedAt).value))
    ensures r.Ok? ==>
      (r.value.updated <==> Before(LastRunTime(prev, doc.name).value, Parse(f.updatedAt).value))
    ensures r.Ok? && r.value.updated ==> r.value.entry == f.updatedAt
    ensures r.Ok? && !r.value.updated ==> doc.name in prev && r.value.entry == prev[doc.name]
    ensures r.Ok? ==> Parse(r.value.entry).Some?
  {
    if f.FetchFailed? then Err(FetchError(doc.name))
    else if doc.name in prev && Parse(prev[doc.name]).None? then Err(BadTimestamp(doc.name, prev[doc.name]))
    else if f.NotText? then Err(NotAString(doc.name))
    else if Parse(f.updatedAt).None? then Err(BadTimestamp(doc.name, f.updatedAt))
    else if Before(LastRunTime(prev, doc.name).value, Parse(f.updatedAt).value) then Ok(Decision(f.updatedAt, true))
    else if doc.name in prev then Ok(Decision(prev[doc.name], false))
    else Err(MissingEntry(doc.name))
  }

  /**
   * Which exception a decision raises: a fetch failure first, then a cursor entry
   * strptime rejects, then a fetched value that is not a string or a fetched text
   * strptime rejects, and last the KeyError of a document that did not change and
   * has no entry.
   */
  lemma DecideErrors(doc: DocDescriptor, prev: Cursor, f: Fetch)
    ensures !f.FetchFailed? && doc.name in prev && Parse(prev[doc.name]).None? ==>
      Decide(doc, prev, f) == Err(BadTimestamp(doc.name, prev[doc.name]))
    ensures f.Fetched? && LastRunTime(prev, doc.name).Some? && Parse(f.updatedAt).None? ==>
      Decide(doc, prev, f) == Err(BadTimestamp(doc.name, f.updatedAt))
    ensures f.Fetched? && doc.name !in prev && Parse(f.updatedAt).Some? && !Before(Epoch, Parse(f.updatedAt).value) ==>
      Decide(doc, prev, f) == Err(MissingEntry(doc.name))
  {
  }

  /** The run requests a document contributes: all of its requests if it changed, none otherwise. */
  function Contribution(doc: DocDescriptor, d: Decision): seq<RunRequest> {
    if d.updated then RequestsFor(doc.name, d.entry, doc.assetKeys) else []
  }

  // ---------------------------------------------------------------------------
  // The tick as a specification

  /** Every document's decision, each taken against the old cursor and what fetching it gave. */
  function Decisions(docs: seq<DocDescriptor>, prev: Cursor, fetched: seq<Fetch>): (ds: seq<Result<Decision, TickError>>)
    requires |fetched| == |docs|
    ensures |ds| == |docs|
    ensures forall i :: 0 <= i < |docs| ==> ds[i] == Decide(docs[i], prev, fetched[i])
  {
    seq(|docs|, i requires 0 <= i < |docs| => Decide(docs[i], prev, fetched[i]))
  }

  /** The new cursor and the run requests built so far. */
  datatype Progress = Progress(cursor: Cursor, runs: seq<RunRequest>)

  /** The state of the loop after the first `n` documents, or the exception that stopped it. */
  function Scan(docs: seq<DocDescriptor>, ds: seq<Result<Decision, TickError>>, n: nat): Result<Progress, TickError>
    requires |ds| == |docs| && n <= |docs|
  {
    if n == 0 then Ok(Progress(map[], []))
    else
      var p :- Scan(docs, ds, n - 1);
      var d :- ds[n - 1];
      Ok(Progress(p.cursor[docs[n - 1].name := d.entry], p.runs + Contribution(docs[n - 1], d)))
  }

  /** What the tick returns once the loop is done: skip when the new cursor equals the old one. */
  function Conclude(prev: Cursor, r: Result<Progress, TickError>): Outcome {
    match r
    case Err(e) => Failed(e)
    case Ok(p) => if p.cursor == prev then Skip(SkipMessage) else Requests(p.cursor, p.runs)
  }

  /** The outcome of a tick. */
  function Evaluate(docs: seq<DocDescriptor>, prev: Cursor, fetched: seq<Fetch>): Outcome
    requires |fetched| == |docs|
  {
    Conclude(prev, Scan(docs, Decisions(docs, prev, fetched), |docs|))
  }

  // ---------------------------------------------------------------------------
  // Reference descriptions of the tick

  /** The names of the first `n` documents. */
  function NameSet(docs: seq<DocDescriptor>, n: nat): set<string>
    requires n <= |docs|
  {
    set i | 0 <= i < n :: docs[i].name
  }

  /** Document `i` is the last of the first `n` with its name. */
  predicate LastWithName(docs: seq<DocDescriptor>, i: nat, n: nat)
    requires i < n <= |docs|
  {
    forall j :: i < j < n ==> docs[j].name != docs[i].name
  }

  /** No two documents share a name. */
  predicate DistinctNames(docs: seq<DocDescriptor>) {
    forall i, j :: 0 <= i < j < |docs| ==> docs[i].name != docs[j].name
  }

  /** No decision raises and none finds its document changed. */
  predicate Quiet(ds: seq<Result<Decision, TickError>>) {
    forall i :: 0 <= i < |ds| ==> ds[i].Ok? && !ds[i].value.updated
  }

  /** The run requests document `i` contributes, on its own. */
  function ContributionAt(docs: seq<DocDescriptor>, ds: seq<Result<Decision, TickError>>, i: nat): seq<RunRequest>
    requires |ds| == |docs| && i < |docs|
  {
    match ds[i]
    case Ok(d) => Contribution(docs[i], d)
    case Err(_) => []
  }

  /** The sequences of `ss` joined in order. */
  function Flatten<T>(ss: seq<seq<T>>): seq<T> {
    if ss == [] then [] else Flatten(ss[..|ss| - 1]) + ss[|ss| - 1]
  }

  /** The requests of the first `n` documents, each document's in turn. */
  function AllContributions(docs: seq<DocDescriptor>, ds: seq<Result<Decision, TickError>>, n: nat): seq<RunRequest>
    requires |ds| == |docs| && n <= |docs|
  {
    Flatten(seq(n, i requires 0 <= i < n => ContributionAt(docs, ds, i)))
  }

  /** Restricted to `names`, the cursor `prev`. */
  function Restrict(prev: Cursor, names: set<string>): (c: Cursor)
    ensures c.Keys == prev.Keys * names
    ensures forall k :: k in c ==> c[k] == prev[k]
  {
    map k | k in prev && k in names :: prev[k]
  }

  // ---------------------------------------------------------------------------
  // Lemmas about the loop

  /** The loop gets past the first `n` documents exactly when none of their decisions raises. */
  lemma {:induction false} ScanSucceeds(docs: seq<DocDescriptor>, ds: seq<Result<Decision, TickError>>, n: nat)
    requires |ds| == |docs| && n <= |docs|
    ensures Scan(docs, ds, n).Ok? <==> forall i :: 0 <= i < n ==> ds[i].Ok?
  {
    if n > 0 {
      ScanSucceeds(docs, ds, n - 1);
      assert Scan(docs, ds, n).Ok? <==> Scan(docs, ds, n - 1).Ok? && ds[n - 1].Ok?;
    }
  }

  /** A loop that raised, raised the exception of the first decision that raises, every earlier one succeeding. */
  lemma {:induction false} ScanFirstError(docs: seq<DocDescriptor>, ds: seq<Result<Decision, TickError>>, n: nat)
    returns (i: nat)
    requires |ds| == |docs| && n <= |docs|
    requires Scan(docs, ds, n).Err?
    ensures i < n && ds[i] == Err(Scan(docs, ds, n).error)
    ensures forall j :: 0 <= j < i ==> ds[j].Ok?
  {
    if Scan(docs, ds, n - 1).Err? {
      i := ScanFirstError(docs, ds, n - 1);
    } else {
      ScanSucceeds(docs, ds, n - 1);
      i := n - 1;
    }
  }

  /** Once the loop has raised, later documents change nothing: the exception is the tick's. */
  lemma {:induction false} ScanStops(docs: seq<DocDescriptor>, ds: seq<Result<Decision, TickError>>, i: nat, n: nat)
    requires |ds| == |docs| && i <= n <= |docs|
    requires Scan(docs, ds, i).Err?
    ensures Scan(docs, ds, n) == Scan(docs, ds, i)
  {
    if i < n {
      ScanStops(docs, ds, i, n - 1);
    }
  }

  /** The new cursor's names are exactly the names of the documents visited. */
  lemma {:induction false} ScanKeys(docs: seq<DocDescriptor>, ds: seq<Result<Decision, TickError>>, n: nat)
    requires |ds| == |docs| && n <= |docs|
    requires Scan(docs, ds, n).Ok?
    ensures Scan(docs, ds, n).value.cursor.Keys == NameSet(docs, n)
  {
    if n > 0 {
      ScanKeys(docs, ds, n - 1);
      assert NameSet(docs, n) == NameSet(docs, n - 1) + {docs[n - 1].name};
    }
  }

  /** Under a name, the new cursor holds the entry written by the last document with that name. */
  lemma {:induction false} ScanEntry(docs: seq<DocDescriptor>, ds: seq<Result<Decision, TickError>>, i: nat, n: nat)
    requires |ds| == |docs| && i < n <= |docs|
    requires Scan(docs, ds, n).Ok? && LastWithName(docs, i, n)
    ensures ds[i].Ok?
    ensures docs[i].name in Scan(docs, ds, n).value.cursor
    ensures Scan(docs, ds, n).value.cursor[docs[i].name] == ds[i].value.entry
  {
    ScanSucceeds(docs, ds, n);
    if i < n - 1 {
      ScanEntry(docs, ds, i, n - 1);
    }
  }

  /** The requests collected are each document's contribution, in document order. */
  lemma {:induction false} ScanRuns(docs: seq<DocDescriptor>, ds: seq<Result<Decision, TickError>>, n: nat)
    requires |ds| == |docs| && n <= |docs|
    requires Scan(docs, ds, n).Ok?
    ensures Scan(docs, ds, n).value.runs == AllContributions(docs, ds, n)
  {
    if n > 0 {
      ScanSucceeds(docs, ds, n);
      ScanRuns(docs, ds, n - 1);
      var f := i requires 0 <= i < n => ContributionAt(docs, ds, i);
      var g := i requires 0 <= i < n - 1 => ContributionAt(docs, ds, i);
      assert seq(n, f)[..n - 1] == seq(n - 1, g);
    }
  }

  /** Every request of the first `n` documents is one of a changed document's, for one of its watched assets. */
  lemma {:induction false} RequestOrigin(docs: seq<DocDescriptor>, ds: seq<Result<Decision, TickError>>, n: nat, r: RunRequest)
    returns (i: nat)
    requires |ds| == |docs| && n <= |docs|
    requires r in AllContributions(docs, ds, n)
    ensures i < n && ds[i].Ok? && ds[i].value.updated
    ensures r.runKey == RunKey(docs[i].name, ds[i].value.entry)
    ensures |r.assetSelection| == 1 && r.assetSelection[0] in docs[i].assetKeys
  {
    var f := j requires 0 <= j < n => ContributionAt(docs, ds, j);
    var g := j requires 0 <= j < n - 1 => ContributionAt(docs, ds, j);
    assert seq(n, f)[..n - 1] == seq(n - 1, g);
    assert AllContributions(docs, ds, n) == AllContributions(docs, ds, n - 1) + ContributionAt(docs, ds, n - 1);
    if r in AllContributions(docs, ds, n - 1) {
      i := RequestOrigin(docs, ds, n - 1, r);
    } else {
      i := n - 1;
      var d := ds[i].value;
      var k :| 0 <= k < |docs[i].assetKeys| && RequestsFor(docs[i].name, d.entry, docs[i].assetKeys)[k] == r;
      RequestsForAt(docs[i].name, d.entry, docs[i].assetKeys, k);
    }
  }

  /**
   * When every document keeps its old entry, the loop requests nothing and its cursor
   * is the old cursor cut down to the names visited.
   */
  lemma {:induction false} ScanQuiet(docs: seq<DocDescriptor>, ds: seq<Result<Decision, TickError>>, prev: Cursor, n: nat)
    requires |ds| == |docs| && n <= |docs|
    requires forall i :: 0 <= i < n ==> ds[i].Ok? && !ds[i].value.updated
    requires forall i :: 0 <= i < n ==> docs[i].name in prev && ds[i].value.entry == prev[docs[i].name]
    ensures NameSet(docs, n) <= prev.Keys
    ensures Scan(docs, ds, n) == Ok(Progress(Restrict(prev, NameSet(docs, n)), []))
  {
    if n > 0 {
      ScanQuiet(docs, ds, prev, n - 1);
      assert ds[n - 1] == Ok(Decision(prev[docs[n - 1].name], false));
      QuietStep(docs, ds, prev, n - 1);
    } else {
      assert Restrict(prev, NameSet(docs, 0)) == map[];
    }
  }

  /** A document that keeps its old entry extends a quiet loop's cursor by that entry. */
  lemma QuietStep(docs: seq<DocDescriptor>, ds: seq<Result<Decision, TickError>>, prev: Cursor, i: nat)
    requires |ds| == |docs| && i < |docs| && docs[i].name in prev
    requires Scan(docs, ds, i) == Ok(Progress(Restrict(prev, NameSet(docs, i)), []))
    requires ds[i] == Ok(Decision(prev[docs[i].name], false))
    ensures Scan(docs, ds, i + 1) == Ok(Progress(Restrict(prev, NameSet(docs, i + 1)), []))
  {
    var name := docs[i].name;
    assert NameSet(docs, i + 1) == NameSet(docs, i) + {name};
    RestrictAdd(prev, NameSet(docs, i), name);
    assert [] + Contribution(docs[i], Decision(prev[name], false)) == [];
  }

  /** Restricting to one more name that the cursor holds adds that name's entry. */
  lemma RestrictAdd(prev: Cursor, names: set<string>, name: string)
    requires name in prev
    ensures Restrict(prev, names)[name := prev[name]] == Restrict(prev, names + {name})
  {
  }

  /** One more document whose decision is `d` extends the loop's state by that decision. */
  lemma ScanStep(docs: seq<DocDescriptor>, ds: seq<Result<Decision, TickError>>, i: nat, d: Decision,
                 next: Cursor, runs: seq<RunRequest>)
    requires |ds| == |docs| && i < |docs|
    requires Scan(docs, ds, i) == Ok(Progress(next, runs)) && ds[i] == Ok(d)
    ensures Scan(docs, ds, i + 1) == Ok(Progress(next[docs[i].name := d.entry], runs + Contribution(docs[i], d)))
  {
  }

  // ---------------------------------------------------------------------------
  // What a tick does

  /** A tick fails exactly when some document's decision raises, and with the first such exception. */
  lemma FailsOnFirstError(docs: seq<DocDescriptor>, prev: Cursor, fetched: seq<Fetch>)
    requires |fetched| == |docs|
    ensures Evaluate(docs, prev, fetched).Failed? <==>
      exists i :: 0 <= i < |docs| && Decide(docs[i], prev, fetched[i]).Err?
    ensures Evaluate(docs, prev, fetched).Failed? ==>
      exists i :: 0 <= i < |docs| && Decide(docs[i], prev, fetched[i]) == Err(Evaluate(docs, prev, fetched).error)
        && forall j :: 0 <= j < i ==> Decide(docs[j], prev, fetched[j]).Ok?
  {
    var ds := Decisions(docs, prev, fetched);
    ScanSucceeds(docs, ds, |docs|);
    if Scan(docs, ds, |docs|).Err? {
      var i := ScanFirstError(docs, ds, |docs|);
    }
  }

  /**
   * A tick that requests runs persists a cursor with exactly the documents' names
   * as keys; under each name the fetched text if the (last) document with that name
   * changed and the old entry otherwise; the requests are each document's own, in
   * document order; and the new cursor differs from the old one.
   */
  lemma RequestsShape(docs: seq<DocDescriptor>, prev: Cursor, fetched: seq<Fetch>)
    requires |fetched| == |docs|
    requires Evaluate(docs, prev, fetched).Requests?
    ensures var o := Evaluate(docs, prev, fetched);
      && o.newCursor != prev
      && o.newCursor.Keys == NameSet(docs, |docs|)
      && o.runs == AllContributions(docs, Decisions(docs, prev, fetched), |docs|)
      && forall i :: 0 <= i < |docs| && LastWithName(docs, i, |docs|) ==>
           && Decide(docs[i], prev, fetched[i]).Ok?
           && o.newCursor[docs[i].name] ==
              if Decide(docs[i], prev, fetched[i]).value.updated then fetched[i].updatedAt
              else prev[docs[i].name]
  {
    var n := |docs|;
    var ds := Decisions(docs, prev, fetched);
    ScanKeys(docs, ds, n);
    ScanRuns(docs, ds, n);
    forall i | 0 <= i < n && LastWithName(docs, i, n)
      ensures ds[i].Ok?
      ensures Scan(docs, ds, n).value.cursor[docs[i].name] ==
              if ds[i].value.updated then fetched[i].updatedAt else prev[docs[i].name]
    {
      ScanEntry(docs, ds, i, n);
    }
  }

  /**
   * Every request a tick makes is for a document whose fetched text is later than
   * its last run time: it selects one of that document's watched assets alone, and
   * its run key is the document's name and the fetched text.
   */
  lemma EveryRequestHasAChangedDoc(docs: seq<DocDescriptor>, prev: Cursor, fetched: seq<Fetch>, r: RunRequest)
    returns (i: nat)
    requires |fetched| == |docs|
    requires Evaluate(docs, prev, fetched).Requests? && r in Evaluate(docs, prev, fetched).runs
    ensures i < |docs| && fetched[i].Fetched?
    ensures LastRunTime(prev, docs[i].name).Some? && Parse(fetched[i].updatedAt).Some?
    ensures Before(LastRunTime(prev, docs[i].name).value, Parse(fetched[i].updatedAt).value)
    ensures r.runKey == RunKey(docs[i].name, fetched[i].updatedAt)
    ensures |r.assetSelection| == 1 && r.assetSelection[0] in docs[i].assetKeys
  {
    var ds := Decisions(docs, prev, fetched);
    ScanRuns(docs, ds, |docs|);
    i := RequestOrigin(docs, ds, |docs|, r);
  }

  /**
   * With distinct document names, a tick skips exactly when no document raises, none
   * changed, and the old cursor has no entry for a name that is not watched. Its
   * reason is then always the same message.
   */
  lemma SkipExactly(docs: seq<DocDescriptor>, prev: Cursor, fetched: seq<Fetch>)
    requires |fetched| == |docs| && DistinctNames(docs)
    ensures Evaluate(docs, prev, fetched).Skip? ==> Evaluate(docs, prev, fetched).reason == SkipMessage
    ensures Evaluate(docs, prev, fetched).Skip? <==>
      Quiet(Decisions(docs, prev, fetched)) && prev.Keys <= NameSet(docs, |docs|)
  {
    var ds := Decisions(docs, prev, fetched);
    if Quiet(ds) && prev.Keys <= NameSet(docs, |docs|) {
      QuietSkips(docs, prev, fetched);
    }
    if Evaluate(docs, prev, fetched).Skip? {
      SkipIsQuiet(docs, prev, fetched);
    }
  }

  /** A tick in which nothing raises or changed and no stale name is held skips. */
  lemma QuietSkips(docs: seq<DocDescriptor>, prev: Cursor, fetched: seq<Fetch>)
    requires |fetched| == |docs|
    requires Quiet(Decisions(docs, prev, fetched)) && prev.Keys <= NameSet(docs, |docs|)
    ensures Evaluate(docs, prev, fetched) == Skip(SkipMessage)
  {
    var n := |docs|;
    var ds := Decisions(docs, prev, fetched);
    ScanQuiet(docs, ds, prev, n);
    assert Restrict(prev, NameSet(docs, n)) == prev;
  }

  /** With distinct names, a tick that skips raised nothing, found nothing changed and held no stale name. */
  lemma SkipIsQuiet(docs: seq<DocDescriptor>, prev: Cursor, fetched: seq<Fetch>)
    requires |fetched| == |docs| && DistinctNames(docs)
    requires Evaluate(docs, prev, fetched).Skip?
    ensures Quiet(Decisions(docs, prev, fetched)) && prev.Keys <= NameSet(docs, |docs|)
  {
    var n := |docs|;
    var ds := Decisions(docs, prev, fetched);
    assert Scan(docs, ds, n).Ok? && Scan(docs, ds, n).value.cursor == prev;
    ScanKeys(docs, ds, n);
    forall i | 0 <= i < n ensures ds[i].Ok? && !ds[i].value.updated {
      assert LastWithName(docs, i, n);
      ScanEntry(docs, ds, i, n);
      NotUpdatedAgainstOwnText(docs[i], prev, fetched[i]);
    }
  }

  /**
   * A decision whose entry is the one the cursor already holds for the document
   * found the document unchanged: a text is never later than itself.
   */
  lemma NotUpdatedAgainstOwnText(doc: DocDescriptor, prev: Cursor, f: Fetch)
    requires Decide(doc, prev, f).Ok?
    requires doc.name in prev && prev[doc.name] == Decide(doc, prev, f).value.entry
    ensures !Decide(doc, prev, f).value.updated
  {
    if Decide(doc, prev, f).value.updated {
      var t := Parse(f.updatedAt).value;
      BeforeIsStrictTotalOrder(t, t, t);
    }
  }

  /**
   * A tick in which nothing changed but the old cursor holds an entry for a name
   * that is not watched does not skip: it persists the old cursor cut down to the
   * watched names, and requests no runs.
   */
  lemma StaleEntriesForceEmptyRequests(docs: seq<DocDescriptor>, prev: Cursor, fetched: seq<Fetch>)
    requires |fetched| == |docs|
    requires Quiet(Decisions(docs, prev, fetched))
    requires !(prev.Keys <= NameSet(docs, |docs|))
    ensures Evaluate(docs, prev, fetched) == Requests(Restrict(prev, NameSet(docs, |docs|)), [])
  {
    ScanQuiet(docs, Decisions(docs, prev, fetched), prev, |docs|);
    var k :| k in prev && k !in NameSet(docs, |docs|);
    assert k !in Restrict(prev, NameSet(docs, |docs|));
  }

  /**
   * Read again against the cursor in which a decision wrote its entry, the same
   * fetched text raises nothing, finds the document unchanged and writes the same entry.
   */
  lemma DecideAgain(doc: DocDescriptor, prev: Cursor, f: Fetch, next: Cursor)
    requires Decide(doc, prev, f).Ok?
    requires doc.name in next && next[doc.name] == Decide(doc, prev, f).value.entry
    ensures Decide(doc, next, f) == Ok(Decision(next[doc.name], false))
  {
    var t := Parse(f.updatedAt).value;
    BeforeIsStrictTotalOrder(t, t, t);
  }

  /** A decision needs only the document's own entry in the cursor. */
  lemma DecideReadsOwnEntry(doc: DocDescriptor, c1: Cursor, c2: Cursor, f: Fetch)
    requires (doc.name in c1) == (doc.name in c2)
    requires doc.name in c1 ==> c1[doc.name] == c2[doc.name]
    ensures Decide(doc, c1, f) == Decide(doc, c2, f)
  {
  }

  /**
   * The same fetched texts, read again against the cursor a tick persisted, make the
   * next tick skip. A document followed by one of the same name may find itself
   * changed again, but the last document with that name writes the entry back.
   */
  lemma Idempotent(docs: seq<DocDescriptor>, prev: Cursor, fetched: seq<Fetch>)
    requires |fetched| == |docs|
    requires Evaluate(docs, prev, fetched).Requests?
    ensures Evaluate(docs, Evaluate(docs, prev, fetched).newCursor, fetched) == Skip(SkipMessage)
  {
    var n := |docs|;
    var ds := Decisions(docs, prev, fetched);
    var next := Scan(docs, ds, n).value.cursor;
    var ds' := Decisions(docs, next, fetched);
    forall i | 0 <= i < n
      ensures ds'[i].Ok?
    {
      Revisit(docs, ds, prev, fetched, i);
    }
    forall j | 0 <= j < n && LastWithName(docs, j, n)
      ensures docs[j].name in next && ds'[j].Ok? && ds'[j].value.entry == next[docs[j].name]
    {
      Reread(docs, ds, prev, fetched, j);
    }
    ScanKeys(docs, ds, n);
    LastEntriesRebuild(docs, ds', next);
  }

  /**
   * A loop in which no document raises and the last document with each name writes
   * that name's entry in `next` rebuilds `next`, when `next` holds the documents' names.
   */
  lemma {:induction false} LastEntriesRebuild(docs: seq<DocDescriptor>, ds: seq<Result<Decision, TickError>>, next: Cursor)
    requires |ds| == |docs| && next.Keys == NameSet(docs, |docs|)
    requires forall i :: 0 <= i < |docs| ==> ds[i].Ok?
    requires forall j :: 0 <= j < |docs| && LastWithName(docs, j, |docs|) ==>
      docs[j].name in next && ds[j].Ok? && ds[j].value.entry == next[docs[j].name]
    ensures Scan(docs, ds, |docs|).Ok? && Scan(docs, ds, |docs|).value.cursor == next
  {
    var n := |docs|;
    ScanSucceeds(docs, ds, n);
    var after := Scan(docs, ds, n).value.cursor;
    ScanKeys(docs, ds, n);
    forall k | k in after
      ensures after[k] == next[k]
    {
      var i :| 0 <= i < n && docs[i].name == k;
      var j := LastOf(docs, i, n);
      ScanEntry(docs, ds, j, n);
    }
    assert after == next;
  }

  /** Of the documents from `i` to `n`, the last one with the name of document `i`. */
  lemma {:induction false} LastOf(docs: seq<DocDescriptor>, i: nat, n: nat) returns (j: nat)
    requires i < n <= |docs|
    ensures i <= j < n && docs[j].name == docs[i].name && LastWithName(docs, j, n)
    decreases n - i
  {
    if LastWithName(docs, i, n) {
      j := i;
    } else {
      var k :| i < k < n && docs[k].name == docs[i].name;
      j := LastOf(docs, k, n);
    }
  }

  /** Against the cursor a successful tick built, no document raises. */
  lemma Revisit(docs: seq<DocDescriptor>, ds: seq<Result<Decision, TickError>>, prev: Cursor, fetched: seq<Fetch>, i: nat)
    requires |fetched| == |docs| && i < |docs|
    requires ds == Decisions(docs, prev, fetched) && Scan(docs, ds, |docs|).Ok?
    ensures Decide(docs[i], Scan(docs, ds, |docs|).value.cursor, fetched[i]).Ok?
  {
    var n := |docs|;
    ScanSucceeds(docs, ds, n);
    assert ds[i].Ok? && ds[i] == Decide(docs[i], prev, fetched[i]);
    var j := LastOf(docs, i, n);
    ScanEntry(docs, ds, j, n);
    assert ds[j] == Decide(docs[j], prev, fetched[j]);
  }

  /** Against the cursor a successful tick built, the last document with a name reads back its own entry, unchanged. */
  lemma Reread(docs: seq<DocDescriptor>, ds: seq<Result<Decision, TickError>>, prev: Cursor, fetched: seq<Fetch>, i: nat)
    requires |fetched| == |docs| && i < |docs| && LastWithName(docs, i, |docs|)
    requires ds == Decisions(docs, prev, fetched) && Scan(docs, ds, |docs|).Ok?
    ensures docs[i].name in Scan(docs, ds, |docs|).value.cursor
    ensures var next := Scan(docs, ds, |docs|).value.cursor;
      Decide(docs[i], next, fetched[i]) == Ok(Decision(next[docs[i].name], false))
  {
    ScanEntry(docs, ds, i, |docs|);
    DecideAgain(docs[i], prev, fetched[i], Scan(docs, ds, |docs|).value.cursor);
  }

  // ---------------------------------------------------------------------------
  // The sensor, step by step

  /**
   * The loop of check_for_updated_grist_tables over `docs`, where `fetched[i]` is
   * what fetching `docs[i]` gives; it returns what the tick returns to dagster.
   */
  method Tick(docs: seq<DocDescriptor>, prev: Cursor, fetched: seq<Fetch>) returns (o: Outcome)
    requires |fetched| == |docs|
    ensures o == Evaluate(docs, prev, fetched)
  {
    ghost var ds := Decisions(docs, prev, fetched);
    var next: Cursor := map[];
    var runs: seq<RunRequest> := [];
    for i := 0 to |docs|
      invariant Scan(docs, ds, i) == Ok(Progress(next, runs))
    {
      var r := Visit(docs, prev, fetched, ds, i, next, runs);
      if r.Err? {
        ScanStops(docs, ds, i + 1, |docs|);
        return Failed(r.error);
      }
      next, runs := r.value.cursor, r.value.runs;
    }
    if next == prev {
      return Skip(SkipMessage);
    }
    return Requests(next, runs);
  }

  /** One pass of the loop: document `i` read, compared, and written into the new cursor and the requests. */
  method Visit(docs: seq<DocDescriptor>, prev: Cursor, fetched: seq<Fetch>, ghost ds: seq<Result<Decision, TickError>>,
               i: nat, next: Cursor, runs: seq<RunRequest>)
    returns (r: Result<Progress, TickError>)
    requires |fetched| == |docs| && i < |docs| && ds == Decisions(docs, prev, fetched)
    requires Scan(docs, ds, i) == Ok(Progress(next, runs))
    ensures r == Scan(docs, ds, i + 1)
  {
    var doc := docs[i];
    var d := Compare(doc, prev, fetched[i]);
    if d.Err? {
      return Err(d.error);
    }
    ScanStep(docs, ds, i, d.value, next, runs);
    var runs' := runs;
    if d.value.updated {
      runs' := AppendRequests(runs, doc.name, d.value.entry, doc.assetKeys);
    } else {
      assert runs + Contribution(doc, d.value) == runs;
    }
    return Ok(Progress(next[doc.name := d.value.entry], runs'));
  }

  /**
   * The body of the loop for one document up to the comparison: the cursor entry
   * parsed (or the epoch), the fetched text parsed, and the entry to write.
   */
  method Compare(doc: DocDescriptor, prev: Cursor, f: Fetch) returns (r: Result<Decision, TickError>)
    ensures r == Decide(doc, prev, f)
  {
    if f.FetchFailed? {
      return Err(FetchError(doc.name));
    }
    var lastRun := Epoch;
    if doc.name in prev {
      var entry := Parse(prev[doc.name]);
      if entry.None? {
        return Err(BadTimestamp(doc.name, prev[doc.name]));
      }
      lastRun := entry.value;
    }
    if f.NotText? {
      return Err(NotAString(doc.name));
    }
    var stamp := f.updatedAt;
    var modified := Parse(stamp);
    if modified.None? {
      return Err(BadTimestamp(doc.name, stamp));
    }
    if Before(lastRun, modified.value) {
      return Ok(Decision(stamp, true));
    }
    if doc.name !in prev {
      return Err(MissingEntry(doc.name));
    }
    return Ok(Decision(prev[doc.name], false));
  }

  /** The inner loop over a changed document's watched assets: one request appended per asset. */
  method AppendRequests(runs: seq<RunRequest>, name: string, stamp: string, keys: seq<AssetKey>)
    returns (runs': seq<RunRequest>)
    ensures runs' == runs + RequestsFor(name, stamp, keys)
  {
    runs' := runs;
    for k := 0 to |keys|
      invariant runs' == runs + RequestsFor(name, stamp, keys)[..k]
    {
      RequestsForAt(name, stamp, keys, k);
      runs' := runs' + [RunRequest(RunKey(name, stamp), [keys[k]])];
    }
    assert RequestsFor(name, stamp, keys)[..|keys|] == RequestsFor(name, stamp, keys);
  }

  /** The part of dagster's sensor context the sensor uses: the persisted cursor. */
  class SensorContext {
    var cursor: Cursor

    /** A sensor that has never persisted a cursor reads it as empty. */
    constructor ()
      ensures cursor == map[]
    {
      cursor := map[];
    }

    method UpdateCursor(c: Cursor)
      modifies this
      ensures cursor == c
    {
      cursor := c;
    }
  }

  /**
   * One tick against the context: decide, and persist the new cursor only when the
   * tick requests runs. A tick that raises or skips leaves the cursor as it was.
   */
  method CheckForUpdatedGristTables(context: SensorContext, docs: seq<DocDescriptor>, fetched: seq<Fetch>)
    returns (o: Outcome)
    requires |fetched| == |docs|
    modifies context
    ensures o == Evaluate(docs, old(context.cursor), fetched)
    ensures o.Requests? ==> context.cursor == o.newCursor
    ensures !o.Requests? ==> context.cursor == old(context.cursor)
  {
    o := Tick(docs, context.cursor, fetched);
    if o.Requests? {
      context.UpdateCursor(o.newCursor);
    }
  }
}
