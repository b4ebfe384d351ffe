/** The ingest use case: the buffer and its flush, step by step. */
module Ingest {
  import opened Common
  import opened Uuids
  import opened AlarmLog
  import opened IngestModel
  import opened AlarmUseCase

  /** The first record of greatest timestamp for each tag, gathered in one pass. */
  method LatestPerTag(records: seq<Record>) returns (latest: map<Uuid, Record>)
    ensures LatestByTag(records, latest)
  {
    latest := map[];
    for n := 0 to |records|
      invariant LatestByTag(records[..n], latest)
    {
      var record := records[n];
      ghost var seen, before := records[..n], latest;
      if record.tagID !in latest || record.timestamp > latest[record.tagID].timestamp {
        latest := latest[record.tagID := record];
      }
      assert records[..n + 1] == seen + [record];
      LatestSnoc(seen, before, record, latest);
    }
    assert records[..|records|] == records;
  }

  lemma NewestIsLatest(records: seq<Record>, latest: map<Uuid, Record>, record: Record)
    requires LatestByTag(records, latest)
    requires record.tagID in latest ==> record.timestamp > latest[record.tagID].timestamp
    ensures IsLatest(records + [record], |records|)
  {
    if record.tagID in latest {
      var i :| IsLatest(records, i) && records[i].tagID == record.tagID && records[i] == latest[record.tagID];
    }
  }

  lemma LatestSnoc(records: seq<Record>, latest: map<Uuid, Record>, record: Record, after: map<Uuid, Record>)
    requires LatestByTag(records, latest)
    requires after ==
      if record.tagID !in latest || record.timestamp > latest[record.tagID].timestamp then latest[record.tagID := record] else latest
    ensures LatestByTag(records + [record], after)
  {
    var all := records + [record];
    assert all[..|records|] == records && all[|records|] == record;
    forall t | t in after
      ensures exists i :: IsLatest(all, i) && all[i].tagID == t && all[i] == after[t]
    {
      if t == record.tagID && (t !in latest || record.timestamp > latest[t].timestamp) {
        NewestIsLatest(records, latest, record);
      } else {
        var i :| IsLatest(records, i) && records[i].tagID == t && records[i] == latest[t];
        assert all[i] == records[i] && IsLatest(all, i);
      }
    }
    assert forall i :: 0 <= i < |records| ==> all[i] == records[i];
  }

  lemma LatestAreAnnounced(records: seq<Record>, latest: map<Uuid, Record>, tags: seq<Uuid>, sent: seq<Record>)
    requires LatestByTag(records, latest) && NoDuplicates(tags) && ToSet(tags) == latest.Keys
    requires |sent| == |tags| && forall k :: 0 <= k < |tags| ==> tags[k] in latest && sent[k] == latest[tags[k]]
    ensures Announces(sent, records)
  {
  }

  /** What a flush does to the alarms: nothing unless the batch was stored, then all of its tags unless one fails. */
  ghost predicate AlarmsAfterFlush(
    buffer: seq<Record>, upsertFails: bool, before: imap<Uuid, TagAlarm>, latest: map<Uuid, Record>, rules: imap<Uuid, Rules>,
    faults: map<Uuid, Faults>, done: set<Uuid>, stuck: Option<Uuid>, after: imap<Uuid, TagAlarm>, fault: Fault)
    requires forall t: Uuid :: t in before && t in rules && t in after
  {
    if buffer == [] || upsertFails || Conflicting(buffer) then after == before
    else
      && LatestByTag(buffer, latest)
      && BatchIngested(before, latest, rules, faults, done, stuck, after)
      && (fault == NoFault <==> stuck.None?)
      && (fault == NoFault ==> done == latest.Keys)
  }

  class IngestUseCase {
    const alarmUseCase: AlarmUseCase
    const batchSize: int
    var buffer: seq<Record>
    var rawValues: map<(Uuid, int), Reading>
    ghost var ingested: seq<Record>
    ghost var flushed: seq<seq<Record>>
    ghost var published: seq<seq<Record>>

    constructor (alarmUseCase: AlarmUseCase, batchSize: int)
      ensures this.alarmUseCase == alarmUseCase && this.batchSize == batchSize
      ensures Contents() == EMPTY
    {
      this.alarmUseCase, this.batchSize := alarmUseCase, batchSize;
      buffer, rawValues := [], map[];
      ingested, flushed, published := [], [], [];
    }

    ghost function Contents(): State
      reads this
    {
      State(buffer, ingested, flushed, published, rawValues)
    }

    /** Stops at the first tag that fails; which tags come before it is the map's choice. */
    method IngestAlarms(records: seq<Record>, faults: map<Uuid, Faults>)
      returns (ok: bool, ghost latest: map<Uuid, Record>, ghost done: set<Uuid>, ghost stuck: Option<Uuid>)
      modifies alarmUseCase.repository
      ensures LatestByTag(records, latest)
      ensures BatchIngested(old(alarmUseCase.repository.Table()), latest, alarmUseCase.RuleBook(), faults, done, stuck,
                            alarmUseCase.repository.Table())
      ensures ok <==> stuck.None?
      ensures ok ==> done == latest.Keys
    {
      hide LatestByTag, IngestOne, BatchIngested;
      var latestByTag := LatestPerTag(records);
      latest, done, stuck := latestByTag, {}, None;
      var tags := Enumerate(latestByTag.Keys);
      var repository := alarmUseCase.repository;
      NothingIngested(repository.Table(), latest, alarmUseCase.RuleBook(), faults);
      ToSetEnds(tags);
      for n := 0 to |tags|
        invariant done == ToSet(tags[..n])
        invariant BatchIngested(old(repository.Table()), latest, alarmUseCase.RuleBook(), faults, done, None, repository.Table())
      {
        var t := tags[n];
        ToSetPrefix(tags, n);
        TagOfLatest(records, latestByTag, t);
        ghost var mid := repository.Table();
        var ingested, event := alarmUseCase.IngestValue(latestByTag[t], FaultsOf(faults, t));
        BatchGrows(old(repository.Table()), latest, alarmUseCase.RuleBook(), faults, done, mid, t, repository.Table());
        if !ingested {
          ok, stuck := false, Some(t);
          return;
        }
        done := done + {t};
      }
      ToSetEnds(tags);
      ok := true;
    }

    lemma TagOfLatest(records: seq<Record>, latest: map<Uuid, Record>, t: Uuid)
      requires LatestByTag(records, latest) && t in latest
      ensures latest[t].tagID == t
    {
    }

    method PublishRealtime(records: seq<Record>) returns (sent: seq<Record>)
      ensures Announces(sent, records)
    {
      var latestByTag := LatestPerTag(records);
      var tags := Enumerate(latestByTag.Keys);
      sent := [];
      for n := 0 to |tags|
        invariant |sent| == n && forall k :: 0 <= k < n ==> tags[k] in latestByTag && sent[k] == latestByTag[tags[k]]
      {
        ToSetPrefix(tags, n);
        sent := sent + [latestByTag[tags[n]]];
      }
      LatestAreAnnounced(records, latestByTag, tags, sent);
    }

    method UpsertRawValues(records: seq<Record>, fails: bool) returns (ok: bool)
      modifies this`rawValues
      ensures ok <==> !fails && !Conflicting(records)
      ensures rawValues == old(rawValues) + if ok then Rows(records) else map[]
    {
      if fails || Conflicting(records) {
        return false;
      }
      for n := 0 to |records|
        invariant rawValues == old(rawValues) + Rows(records[..n])
      {
        assert records[..n + 1][..n] == records[..n];
        rawValues := rawValues[Key(records[n]) := Reading(records[n].value, records[n].quality)];
      }
      assert records[..|records|] == records;
      ok := true;
    }

    /** Store, ingest alarms, publish, and only then empty the buffer. */
    method FlushLocked(upsertFails: bool, faults: map<Uuid, Faults>)
      returns (count: nat, ok: bool, ghost fault: Fault, ghost latest: map<Uuid, Record>, ghost done: set<Uuid>, ghost stuck: Option<Uuid>)
      modifies this, alarmUseCase.repository
      ensures Flushes(old(Contents()), fault, Contents())
      ensures fault == UpsertFails <==> upsertFails && old(buffer) != []
      ensures ok <==> old(buffer) == [] || (fault == NoFault && !Conflicting(old(buffer)))
      ensures fault == AlarmsFail ==> Faulty(faults)
      ensures count == if ok then |old(buffer)| else 0
      ensures AlarmsAfterFlush(old(buffer), upsertFails, old(alarmUseCase.repository.Table()), latest, alarmUseCase.RuleBook(), faults,
                               done, stuck, alarmUseCase.repository.Table(), fault)
    {
      hide LatestByTag, BatchIngested, Announces, Conflicting, Rows, Faulty;
      count, ok, fault, latest, done, stuck := 0, true, NoFault, map[], {}, None;
      if |buffer| == 0 {
        return;
      }
      var records := buffer;
      var stored := UpsertRawValues(records, upsertFails);
      if !stored {
        ok, fault := false, if upsertFails then UpsertFails else NoFault;
        return;
      }
      ok, latest, done, stuck := IngestAlarms(records, faults);
      if !ok {
        StuckOnFault(old(alarmUseCase.repository.Table()), latest, alarmUseCase.RuleBook(), faults, done, stuck.value,
                     alarmUseCase.repository.Table());
        fault := AlarmsFail;
        return;
      }
      var sent := PublishRealtime(records);
      count := |buffer|;
      published, flushed := published + [sent], flushed + [records];
      buffer := [];
      assert Contents() == Emptied(old(Contents()), sent);
    }

    method IngestTagValue(record: Record, upsertFails: bool, faults: map<Uuid, Faults>) returns (count: nat, ok: bool, ghost fault: Fault)
      modifies this, alarmUseCase.repository
      ensures Next(batchSize, old(Contents()), IngestModel.Op.Ingest(record, fault), Contents())
      ensures |old(buffer)| + 1 < batchSize ==> ok && count == 0
      ensures |old(buffer)| + 1 >= batchSize ==>
        (ok <==> fault == NoFault && !Conflicting(old(buffer) + [record])) && count == if ok then |old(buffer)| + 1 else 0
      ensures (fault == UpsertFails ==> upsertFails) && (fault == AlarmsFail ==> Faulty(faults))
    {
      buffer, ingested := buffer + [record], ingested + [record];
      assert Contents() == Appended(old(Contents()), record);
      if |buffer| < batchSize {
        return 0, true, NoFault;
      }
      ghost var latest, done, stuck;
      count, ok, fault, latest, done, stuck := FlushLocked(upsertFails, faults);
    }

    method FlushPending(upsertFails: bool, faults: map<Uuid, Faults>) returns (count: nat, ok: bool, ghost fault: Fault)
      modifies this, alarmUseCase.repository
      ensures Next(batchSize, old(Contents()), IngestModel.Op.FlushPending(fault), Contents())
      ensures ok <==> old(buffer) == [] || (fault == NoFault && !Conflicting(old(buffer)))
      ensures count == if ok then |old(buffer)| else 0
      ensures (fault == UpsertFails ==> upsertFails) && (fault == AlarmsFail ==> Faulty(faults))
    {
      ghost var latest, done, stuck;
      count, ok, fault, latest, done, stuck := FlushLocked(upsertFails, faults);
    }
  }
}
