/**
 * The sensor's behaviour on a single watched document, and on the document the
 * repository configures: the first tick after a change requests runs and records
 * the fetched text; the next tick with the same text skips. A name listed twice
 * can make a tick skip although a document changed.
 */
module Scenarios {
  import opened Wrappers
  import opened Timestamps
  import opened Sensor

  /** The loop over a single document: its decision's exception, or its entry and contribution. */
  lemma ScanOne(docs: seq<DocDescriptor>, ds: seq<Result<Decision, TickError>>)
    requires |docs| == 1 && |ds| == 1
    ensures Scan(docs, ds, 1) ==
      match ds[0]
      case Err(e) => Err(e)
      case Ok(d) => Ok(Progress(map[docs[0].name := d.entry], Contribution(docs[0], d)))
  {
    if ds[0].Ok? {
      var d := ds[0].value;
      assert [] + Contribution(docs[0], d) == Contribution(docs[0], d);
      assert map[][docs[0].name := d.entry] == map[docs[0].name := d.entry];
    }
  }

  /** A tick over one document is decided by that document's decision alone. */
  lemma SingleDoc(doc: DocDescriptor, prev: Cursor, f: Fetch)
    ensures Evaluate([doc], prev, [f]) ==
      Conclude(prev, match Decide(doc, prev, f)
                     case Err(e) => Err(e)
                     case Ok(d) => Ok(Progress(map[doc.name := d.entry], Contribution(doc, d))))
  {
    var ds := Decisions([doc], prev, [f]);
    assert ds[0] == Decide(doc, prev, f);
    ScanOne([doc], ds);
  }

  /**
   * With no cursor yet, a document whose fetched text denotes a time after the epoch
   * gets all of its requests, and the cursor records the text under its name.
   */
  lemma FirstTick(doc: DocDescriptor, s: string)
    requires Parse(s).Some? && Before(Epoch, Parse(s).value)
    ensures Evaluate([doc], map[], [Fetched(s)]) ==
      Requests(map[doc.name := s], RequestsFor(doc.name, s, doc.assetKeys))
  {
    SingleDoc(doc, map[], Fetched(s));
    assert map[doc.name := s] != map[] by {
      assert doc.name in map[doc.name := s];
    }
  }

  /** When the cursor already records the fetched text, the tick skips. */
  lemma SecondTick(doc: DocDescriptor, s: string)
    requires Parse(s).Some?
    ensures Evaluate([doc], map[doc.name := s], [Fetched(s)]) == Skip(SkipMessage)
  {
    BeforeIsStrictTotalOrder(Parse(s).value, Parse(s).value, Parse(s).value);
    var c := map[doc.name := s];
    assert Decide(doc, c, Fetched(s)) == Ok(Decision(s, false));
    SingleDoc(doc, c, Fetched(s));
  }

  /** The configured document, first tick: one request for test_cashflow_assumptions. */
  lemma GristFirstTick(s: string)
    requires Parse(s).Some? && Before(Epoch, Parse(s).value)
    ensures Evaluate(GristDocs, map[], [Fetched(s)]) ==
      Requests(map["Cashflow Assumption" := s],
               [RunRequest(RunKey("Cashflow Assumption", s), [CashflowAssumptionsKey])])
  {
    var doc := GristDocs[0];
    assert GristDocs == [doc];
    FirstTick(doc, s);
    RequestsForAt(doc.name, s, doc.assetKeys, 0);
    assert RequestsFor(doc.name, s, doc.assetKeys) == [RunRequest(RunKey(doc.name, s), [CashflowAssumptionsKey])];
  }

  /** The configured document, the tick after: a skip. */
  lemma GristSecondTick(s: string)
    requires Parse(s).Some?
    ensures Evaluate(GristDocs, map["Cashflow Assumption" := s], [Fetched(s)]) == Skip(SkipMessage)
  {
    var doc := GristDocs[0];
    assert GristDocs == [doc];
    SecondTick(doc, s);
  }

  /**
   * Midnight on 1 January 2024, written with every field at full width: the first
   * tick requests one run and records the text, the next one skips.
   */
  lemma NewYearScenario()
    ensures var s := Format(DateTime(2024, 1, 1, 0, 0, 0, 0));
      && Evaluate(GristDocs, map[], [Fetched(s)]) ==
         Requests(map["Cashflow Assumption" := s],
                  [RunRequest(RunKey("Cashflow Assumption", s), [CashflowAssumptionsKey])])
      && Evaluate(GristDocs, map["Cashflow Assumption" := s], [Fetched(s)]) == Skip(SkipMessage)
  {
    var t := DateTime(2024, 1, 1, 0, 0, 0, 0);
    ParseFormat(t);
    GristFirstTick(Format(t));
    GristSecondTick(Format(t));
  }

  /** The decision of document `i` of a tick is taken against the old cursor and that document's own fetch. */
  lemma DecisionAt(docs: seq<DocDescriptor>, prev: Cursor, fetched: seq<Fetch>, i: nat, d: Decision)
    requires |fetched| == |docs| && i < |docs|
    requires Decide(docs[i], prev, fetched[i]) == Ok(d)
    ensures Decisions(docs, prev, fetched)[i] == Ok(d)
  {
  }

  /** The loop over two documents that both succeed writes both entries in turn and joins their contributions. */
  lemma ScanTwo(docs: seq<DocDescriptor>, ds: seq<Result<Decision, TickError>>, d0: Decision, d1: Decision)
    requires |docs| == 2 && |ds| == 2 && ds[0] == Ok(d0) && ds[1] == Ok(d1)
    ensures Scan(docs, ds, 2) ==
      Ok(Progress(map[docs[0].name := d0.entry][docs[1].name := d1.entry],
                  Contribution(docs[0], d0) + Contribution(docs[1], d1)))
  {
    assert [] + Contribution(docs[0], d0) == Contribution(docs[0], d0);
    assert map[][docs[0].name := d0.entry] == map[docs[0].name := d0.entry];
    assert Scan(docs, ds, 1) == Ok(Progress(map[docs[0].name := d0.entry], Contribution(docs[0], d0)));
  }

  /** A tick over two documents that both succeed is decided by their two decisions. */
  lemma EvaluateTwo(docs: seq<DocDescriptor>, prev: Cursor, fetched: seq<Fetch>, d0: Decision, d1: Decision)
    requires |docs| == 2 && |fetched| == 2
    requires Decisions(docs, prev, fetched)[0] == Ok(d0) && Decisions(docs, prev, fetched)[1] == Ok(d1)
    ensures Evaluate(docs, prev, fetched) ==
      Conclude(prev, Ok(Progress(map[docs[0].name := d0.entry][docs[1].name := d1.entry],
                                 Contribution(docs[0], d0) + Contribution(docs[1], d1))))
  {
    ScanTwo(docs, Decisions(docs, prev, fetched), d0, d1);
  }

  /** Writing a name twice leaves the second entry. */
  lemma Overwrite(name: string, e0: string, e1: string)
    ensures map[name := e0][name := e1] == map[name := e1]
  {
  }

  /**
   * A tick over two documents of the same name that both succeed skips when the old
   * cursor holds only that name, with the entry the second document writes.
   */
  lemma SkipOfTwo(docs: seq<DocDescriptor>, prev: Cursor, fetched: seq<Fetch>, d0: Decision, d1: Decision)
    requires |docs| == 2 && |fetched| == 2 && docs[0].name == docs[1].name
    requires Decisions(docs, prev, fetched)[0] == Ok(d0) && Decisions(docs, prev, fetched)[1] == Ok(d1)
    requires prev == map[docs[1].name := d1.entry]
    ensures Evaluate(docs, prev, fetched) == Skip(SkipMessage)
  {
    Overwrite(docs[1].name, d0.entry, d1.entry);
    EvaluateTwo(docs, prev, fetched, d0, d1);
  }

  /** Against an entry `s1`, a text `s2` denoting a later time counts as a change, and `s1` itself does not. */
  lemma LaterAndSame(doc: DocDescriptor, s1: string, s2: string)
    requires Parse(s1).Some? && Parse(s2).Some? && Before(Parse(s1).value, Parse(s2).value)
    ensures Decide(doc, map[doc.name := s1], Fetched(s2)) == Ok(Decision(s2, true))
    ensures Decide(doc, map[doc.name := s1], Fetched(s1)) == Ok(Decision(s1, false))
  {
    BeforeIsStrictTotalOrder(Parse(s1).value, Parse(s1).value, Parse(s1).value);
  }

  /**
   * A name listed twice: the first document finds a later text and changes, the
   * second writes the old entry back, so the tick skips and the first document's
   * requests are dropped.
   */
  lemma RepeatedNameSkipsOverChange(doc: DocDescriptor, s1: string, s2: string)
    requires Parse(s1).Some? && Parse(s2).Some? && Before(Parse(s1).value, Parse(s2).value)
    ensures Decide(doc, map[doc.name := s1], Fetched(s2)) == Ok(Decision(s2, true))
    ensures Evaluate([doc, doc], map[doc.name := s1], [Fetched(s2), Fetched(s1)]) == Skip(SkipMessage)
  {
    var prev := map[doc.name := s1];
    LaterAndSame(doc, s1, s2);
    var docs, fetched := [doc, doc], [Fetched(s2), Fetched(s1)];
    DecisionAt(docs, prev, fetched, 0, Decision(s2, true));
    DecisionAt(docs, prev, fetched, 1, Decision(s1, false));
    SkipOfTwo(docs, prev, fetched, Decision(s2, true), Decision(s1, false));
  }
}
