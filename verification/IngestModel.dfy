/** The buffered flush of ingested values: what is stored, published and still buffered over whole runs. */
module IngestModel {
  import opened Common
  import opened Uuids
  import opened AlarmEvaluator
  import opened AlarmLog

  datatype Reading = Reading(value: Option<real>, quality: Quality)

  // ---- the latest record of each tag ---------------------------------------------------------------------

  /** Record i is the first of its tag's records with the greatest timestamp. */
  predicate IsLatest(records: seq<Record>, i: int) {
    && 0 <= i < |records|
    && forall j :: 0 <= j < |records| && records[j].tagID == records[i].tagID ==>
         records[j].timestamp <= records[i].timestamp && (j < i ==> records[j].timestamp < records[i].timestamp)
  }

  /** Exactly one record for each tag that occurs, its latest. */
  ghost predicate LatestByTag(records: seq<Record>, latest: map<Uuid, Record>) {
    && (forall i :: 0 <= i < |records| ==> records[i].tagID in latest)
    && (forall t :: t in latest ==> exists i :: IsLatest(records, i) && records[i].tagID == t && records[i] == latest[t])
  }

  /** The specification leaves no choice. */
  lemma LatestByTagUnique(records: seq<Record>, a: map<Uuid, Record>, b: map<Uuid, Record>)
    requires LatestByTag(records, a) && LatestByTag(records, b)
    ensures a == b
  {
  }

  /** Published in some order: the latest record of each tag, once. */
  ghost predicate Announces(sent: seq<Record>, records: seq<Record>) {
    && NoDuplicates(sent)
    && forall r :: r in sent <==> exists i :: IsLatest(records, i) && records[i] == r
  }

  // ---- the raw-value table ------------------------------------------------------------------------------

  /** Instants are in nanoseconds; the column keeps microseconds, to which the driver cuts them down. */
  const NANOSECONDS_KEPT := 1000

  /** The primary key of a record's row. */
  function Key(record: Record): (Uuid, int) {
    (record.tagID, record.timestamp / NANOSECONDS_KEPT)
  }

  /** What a table holds after the records are upserted in order: the last one of each key. */
  function Rows(records: seq<Record>): map<(Uuid, int), Reading> {
    if records == [] then map[]
    else
      var last := records[|records| - 1];
      Rows(records[..|records| - 1])[Key(last) := Reading(last.value, last.quality)]
  }

  lemma {:induction false} RowsConcat(a: seq<Record>, b: seq<Record>)
    ensures Rows(a + b) == Rows(a) + Rows(b)
  {
    if b == [] {
      assert a + b == a;
    } else {
      assert (a + b)[..|a + b| - 1] == a + b[..|b| - 1];
      RowsConcat(a, b[..|b| - 1]);
    }
  }

  /** One INSERT ... ON CONFLICT DO UPDATE statement may not touch a row twice, so such a batch is always refused. */
  predicate Conflicting(records: seq<Record>) {
    exists i, j :: 0 <= i < j < |records| && Key(records[i]) == Key(records[j])
  }

  // ---- runs -------------------------------------------------------------------------------------------

  datatype State = State(
    buffer: seq<Record>, ingested: seq<Record>, flushed: seq<seq<Record>>, published: seq<seq<Record>>,
    rawValues: map<(Uuid, int), Reading>)

  const EMPTY := State([], [], [], [], map[])

  datatype Fault = NoFault | UpsertFails | AlarmsFail

  datatype Op = Ingest(record: Record, fault: Fault) | FlushPending(fault: Fault)

  ghost predicate Flushes(s: State, fault: Fault, r: State) {
    if s.buffer == [] || fault == UpsertFails || Conflicting(s.buffer) then r == s
    else if fault == AlarmsFail then r == s.(rawValues := s.rawValues + Rows(s.buffer))
    else exists sent :: Announces(sent, s.buffer) && r == Emptied(s, sent)
  }

  function Emptied(s: State, sent: seq<Record>): State {
    s.(rawValues := s.rawValues + Rows(s.buffer), buffer := [], flushed := s.flushed + [s.buffer], published := s.published + [sent])
  }

  function Appended(s: State, record: Record): State {
    s.(buffer := s.buffer + [record], ingested := s.ingested + [record])
  }

  ghost predicate Next(batchSize: int, s: State, op: Op, r: State) {
    match op
    case Ingest(record, fault) =>
      var appended := Appended(s, record);
      if |appended.buffer| < batchSize then r == appended else Flushes(appended, fault, r)
    case FlushPending(fault) => Flushes(s, fault, r)
  }

  ghost predicate IsRun(batchSize: int, states: seq<State>, ops: seq<Op>) {
    && |states| == |ops| + 1
    && states[0] == EMPTY
    && forall i :: 0 <= i < |ops| ==> Next(batchSize, states[i], ops[i], states[i + 1])
  }

  function Concat(batches: seq<seq<Record>>): seq<Record> {
    if batches == [] then [] else Concat(batches[..|batches| - 1]) + batches[|batches| - 1]
  }

  lemma ConcatSnoc(batches: seq<seq<Record>>, batch: seq<Record>)
    ensures Concat(batches + [batch]) == Concat(batches) + batch
  {
  }

  /** Nothing is lost, repeated or reordered. */
  ghost predicate Conserved(s: State) {
    Concat(s.flushed) + s.buffer == s.ingested
  }

  /** The table is the replay of a prefix of what was ingested, and that prefix covers everything that has left the buffer. */
  ghost predicate Durable(s: State) {
    exists n :: |Concat(s.flushed)| <= n <= |s.ingested| && s.rawValues == Rows(s.ingested[..n])
  }

  ghost predicate EachAnnounced(s: State) {
    && |s.published| == |s.flushed|
    && forall k :: 0 <= k < |s.flushed| ==>
         s.flushed[k] != [] && !Conflicting(s.flushed[k]) && Announces(s.published[k], s.flushed[k])
  }

  /** A partial replay of the buffer followed by all of it is all of it. */
  lemma UpsertAgain(past: seq<Record>, buffer: seq<Record>, n: nat)
    requires |past| <= n <= |past| + |buffer|
    ensures Rows((past + buffer)[..n]) + Rows(buffer) == Rows(past + buffer)
  {
    hide Rows;
    var k := n - |past|;
    assert (past + buffer)[..n] == past + buffer[..k];
    RowsConcat(past, buffer[..k]);
    RowsConcat(past, buffer);
    assert buffer == buffer[..k] + buffer[k..];
    RowsConcat(buffer[..k], buffer[k..]);
    WrittenAgain(Rows(past), Rows(buffer[..k]), Rows(buffer[k..]));
  }

  lemma WrittenAgain<K, V>(a: map<K, V>, b: map<K, V>, c: map<K, V>)
    ensures (a + b) + (b + c) == a + (b + c)
  {
  }

  lemma FlushKeeps(s: State, fault: Fault, r: State)
    requires Conserved(s) && Durable(s) && EachAnnounced(s) && Flushes(s, fault, r)
    ensures Conserved(r) && Durable(r) && EachAnnounced(r)
  {
    hide Announces, Conflicting, Rows, Concat;
    if r != s {
      var past := Concat(s.flushed);
      var n :| |past| <= n <= |s.ingested| && s.rawValues == Rows(s.ingested[..n]);
      UpsertAgain(past, s.buffer, n);
      assert s.ingested[..|s.ingested|] == s.ingested;
      assert r.rawValues == Rows(r.ingested[..|r.ingested|]);
      if r.flushed != s.flushed {
        ConcatSnoc(s.flushed, s.buffer);
        assert past + s.buffer + [] == s.ingested;
      }
    }
  }

  lemma AppendKeeps(s: State, record: Record)
    requires Conserved(s) && Durable(s) && EachAnnounced(s)
    ensures Conserved(Appended(s, record)) && Durable(Appended(s, record)) && EachAnnounced(Appended(s, record))
  {
    hide Announces, Conflicting, Rows, Concat;
    var past, r := Concat(s.flushed), Appended(s, record);
    assert past + (s.buffer + [record]) == past + s.buffer + [record];
    var n :| |past| <= n <= |s.ingested| && s.rawValues == Rows(s.ingested[..n]);
    assert r.ingested[..n] == s.ingested[..n];
  }

  /** Over every run, whatever fails: flushed batches and buffer make up the ingested sequence, storage is ahead of flushing, and each
    * flush announces its latest values. */
  lemma {:induction false} RunsConserve(batchSize: int, states: seq<State>, ops: seq<Op>, i: nat)
    requires IsRun(batchSize, states, ops) && i < |states|
    ensures Conserved(states[i]) && Durable(states[i]) && EachAnnounced(states[i])
  {
    hide Conserved, Durable, EachAnnounced, Flushes, Appended;
    if i == 0 {
      EmptyIsConserved();
    } else {
      RunsConserve(batchSize, states, ops, i - 1);
      var s, op := states[i - 1], ops[i - 1];
      assert Next(batchSize, states[i - 1], ops[i - 1], states[i - 1 + 1]);
      match op
      case Ingest(record, fault) =>
        AppendKeeps(s, record);
        if |Appended(s, record).buffer| >= batchSize {
          FlushKeeps(Appended(s, record), fault, states[i]);
        }
      case FlushPending(fault) =>
        FlushKeeps(s, fault, states[i]);
    }
  }

  lemma EmptyIsConserved()
    ensures Conserved(EMPTY) && Durable(EMPTY) && EachAnnounced(EMPTY)
  {
    assert EMPTY.rawValues == Rows(EMPTY.ingested[..0]);
  }

  /** Each step extends what has left the buffer, and only by a batch whose rows are all in the table. */
  lemma LeavesOnlyStored(s: State, fault: Fault, r: State)
    requires Flushes(s, fault, r)
    ensures r.buffer == s.buffer || (r.buffer == [] && r.flushed == s.flushed + [s.buffer])
    ensures r.buffer != s.buffer ==> forall i :: 0 <= i < |s.buffer| ==>
      var record := s.buffer[i];
      Key(record) in r.rawValues
      && r.rawValues[Key(record)] == Reading(record.value, record.quality)
  {
    if r.buffer != s.buffer {
      RowsOfDistinct(s.buffer);
    }
  }

  lemma {:induction false} RowsOfDistinct(records: seq<Record>)
    requires !Conflicting(records)
    ensures forall i :: 0 <= i < |records| ==>
      var record := records[i];
      Key(record) in Rows(records)
      && Rows(records)[Key(record)] == Reading(record.value, record.quality)
  {
    if records != [] {
      var front := records[..|records| - 1];
      assert !Conflicting(front);
      RowsOfDistinct(front);
      forall i | 0 <= i < |front|
        ensures Key(records[i]) in Rows(records)
        ensures Rows(records)[Key(records[i])] == Reading(records[i].value, records[i].quality)
      {
        assert records[i] == front[i];
      }
    }
  }

  /** A flush that is not refused writes the row of every buffered record and no other, even if the alarms fail after it, which leaves
    * everything else to be done again. */
  lemma FlushStores(s: State, fault: Fault, r: State, key: (Uuid, int))
    requires Flushes(s, fault, r)
    ensures fault == UpsertFails || Conflicting(s.buffer) ==> r == s
    ensures fault == AlarmsFail ==> r == s.(rawValues := r.rawValues)
    ensures fault != UpsertFails && !Conflicting(s.buffer) ==>
      if exists i :: 0 <= i < |s.buffer| && Key(s.buffer[i]) == key
      then key in r.rawValues && exists i :: 0 <= i < |s.buffer| && Key(s.buffer[i]) == key
                                             && r.rawValues[key] == Reading(s.buffer[i].value, s.buffer[i].quality)
      else (key in r.rawValues <==> key in s.rawValues) && (key in s.rawValues ==> r.rawValues[key] == s.rawValues[key])
  {
    hide Announces, Key;
    if fault != UpsertFails && !Conflicting(s.buffer) {
      RowsOfDistinct(s.buffer);
      RowsAreOf(s.buffer, key);
      hide Rows, Conflicting;
      assert s.buffer != [] ==> r.rawValues == s.rawValues + Rows(s.buffer);
    }
  }

  lemma {:induction false} RowsAreOf(records: seq<Record>, key: (Uuid, int))
    ensures key in Rows(records) <==> exists i :: 0 <= i < |records| && Key(records[i]) == key
  {
    if records != [] {
      var front := records[..|records| - 1];
      RowsAreOf(front, key);
      assert forall i :: 0 <= i < |front| ==> records[i] == front[i];
    }
  }

  // ---- when a flush gets through -----------------------------------------------------------------------

  /** A flush empties a non-empty buffer exactly when no store call fails and no two of its records share tag and microsecond. */
  lemma FlushEmptiesIff(s: State, fault: Fault, r: State)
    requires s.buffer != [] && Flushes(s, fault, r)
    ensures r.buffer == [] <==> fault == NoFault && !Conflicting(s.buffer)
  {
  }

  lemma ConflictingGrows(records: seq<Record>, record: Record)
    requires Conflicting(records)
    ensures Conflicting(records + [record])
  {
    var i, j :| 0 <= i < j < |records| && Key(records[i]) == Key(records[j]);
    var grown := records + [record];
    assert Key(grown[i]) == Key(grown[j]);
  }

  /** Two buffered records of one tag and microsecond stop everything for good: nothing more is stored, published or flushed. */
  lemma {:induction false} ConflictBlocksForever(batchSize: int, states: seq<State>, ops: seq<Op>, i: nat, j: nat)
    requires IsRun(batchSize, states, ops) && i <= j < |states| && Conflicting(states[i].buffer)
    ensures Conflicting(states[j].buffer)
    ensures states[j].flushed == states[i].flushed && states[j].published == states[i].published
    ensures states[j].rawValues == states[i].rawValues
    ensures states[i].buffer <= states[j].buffer
    decreases j
  {
    if i < j {
      hide Conflicting;
      ConflictBlocksForever(batchSize, states, ops, i, j - 1);
      assert Next(batchSize, states[j - 1], ops[j - 1], states[j - 1 + 1]);
      if ops[j - 1].Ingest? {
        ConflictingGrows(states[j - 1].buffer, ops[j - 1].record);
      }
    }
  }

  /** After an ingestion whose flush, if any, got through, the buffer is below the batch size. */
  lemma BufferBelowBatchSize(batchSize: int, s: State, record: Record, fault: Fault, r: State)
    requires batchSize > 0 && Next(batchSize, s, Op.Ingest(record, fault), r)
    ensures |r.buffer| < batchSize
      <==> |s.buffer| + 1 < batchSize || (fault == NoFault && !Conflicting(s.buffer + [record]))
  {
  }

  // ---- such a buffer is reached ---------------------------------------------------------------------------

  /** A tag's value at the given instant, in nanoseconds. */
  function Sample(timestamp: int): Record {
    Record(1, timestamp, Some(20.0), QualityOK)
  }

  /** Two values of one tag, a nanosecond apart, then a flush with nothing wrong: it does nothing and never will. */
  lemma ConflictIsReached(batchSize: int) returns (states: seq<State>, ops: seq<Op>)
    requires batchSize > 2
    ensures IsRun(batchSize, states, ops)
    ensures ops == [Op.Ingest(Sample(5), NoFault), Op.Ingest(Sample(6), NoFault), Op.FlushPending(NoFault)]
    ensures states[3].buffer == [Sample(5), Sample(6)] && Conflicting(states[3].buffer) && states[3].rawValues == map[]
  {
    var s1 := Appended(EMPTY, Sample(5));
    var s2 := Appended(s1, Sample(6));
    states := [EMPTY, s1, s2, s2];
    ops := [Op.Ingest(Sample(5), NoFault), Op.Ingest(Sample(6), NoFault), Op.FlushPending(NoFault)];
    assert Key(s2.buffer[0]) == Key(s2.buffer[1]);
  }
}
