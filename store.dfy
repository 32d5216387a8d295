/** The SQLite store as an in-memory database: three tables with their
    AUTOINCREMENT counters, and the four write paths as methods. */
module Store {
  import opened Entities
  import opened Tables

  /** The batch path fails when the batch is empty or when the store rejects
      one of its statements: statement 0 opens the transaction, record `i`
      is looked up by statement 1 + 2i and written by statement 2 + 2i, the
      activity charge is statement 1 + 2n and the commit 2 + 2n, for n
      records. */
  predicate BatchFails(n: nat, fault: Fault)
  {
    n == 0 || (fault.Some? && fault.value <= 2 * n + 2)
  }

  class Database {
    var resourceTypes: seq<TypeRow>
    var activities: seq<ActivityRow>
    var resources: seq<ResourceRow>
    var nextTypeId: nat
    var nextActivityId: nat
    var nextResourceId: nat

    ghost predicate Valid()
      reads this
    {
      TypeTableOk(resourceTypes, nextTypeId) &&
      ActivityTableOk(activities, nextActivityId) &&
      ResourceTableOk(resources, nextResourceId)
    }

    /** The schema just created: three empty tables whose first ids are 1. */
    constructor ()
      ensures Valid()
      ensures resourceTypes == [] && activities == [] && resources == []
      ensures nextTypeId == 1 && nextActivityId == 1 && nextResourceId == 1
    {
      resourceTypes, activities, resources := [], [], [];
      nextTypeId, nextActivityId, nextResourceId := 1, 1, 1;
    }

    /** Registers a resource type under an activity: inserts the type
        (statement 0), then a zero-amount resource row for it under
        `activityId` (statement 1). The statements commit one at a time, so
        when the second fails the type stays registered without its row.
        Whether the activity exists is not checked. */
    method AddResourceType(activityId: nat, resourceType: ResourceType, fault: Fault)
      returns (r: Outcome<ResourceType>)
      requires Valid()
      modifies this
      ensures Valid()
      ensures activities == old(activities) && nextActivityId == old(nextActivityId)
      ensures Fails(fault, 0) ==>
        r == Err(StatementFailed(0)) &&
        resourceTypes == old(resourceTypes) && nextTypeId == old(nextTypeId) &&
        resources == old(resources) && nextResourceId == old(nextResourceId)
      ensures !Fails(fault, 0) ==>
        resourceTypes == old(resourceTypes) + [TypeRow(old(nextTypeId), resourceType.name)] &&
        nextTypeId == old(nextTypeId) + 1
      ensures !Fails(fault, 0) && Fails(fault, 1) ==>
        r == Err(StatementFailed(1)) &&
        resources == old(resources) && nextResourceId == old(nextResourceId)
      ensures !Fails(fault, 0) && !Fails(fault, 1) ==>
        r == Ok(ResourceType(Some(old(nextTypeId)), resourceType.name)) &&
        resources == old(resources) + [ResourceRow(old(nextResourceId), old(nextTypeId), 0, activityId)] &&
        nextResourceId == old(nextResourceId) + 1
    {
      if Fails(fault, 0) {
        return Err(StatementFailed(0));
      }
      var typeId := nextTypeId;
      resourceTypes := resourceTypes + [TypeRow(typeId, resourceType.name)];
      nextTypeId := nextTypeId + 1;
      if Fails(fault, 1) {
        return Err(StatementFailed(1));
      }
      resources := resources + [ResourceRow(nextResourceId, typeId, 0, activityId)];
      nextResourceId := nextResourceId + 1;
      r := Ok(ResourceType(Some(typeId), resourceType.name));
    }

    /** Creates an activity with no runs and no stamina spent; the count and
        consume the caller sends are ignored. */
    method AddActivity(activity: Activity, fault: Fault) returns (r: Outcome<Activity>)
      requires Valid()
      modifies this
      ensures Valid()
      ensures resourceTypes == old(resourceTypes) && nextTypeId == old(nextTypeId)
      ensures resources == old(resources) && nextResourceId == old(nextResourceId)
      ensures Fails(fault, 0) ==>
        r == Err(StatementFailed(0)) &&
        activities == old(activities) && nextActivityId == old(nextActivityId)
      ensures !Fails(fault, 0) ==>
        r == Ok(Activity(Some(old(nextActivityId)), activity.name, 0, 0)) &&
        activities == old(activities) + [ActivityRow(old(nextActivityId), activity.name, 0, 0)] &&
        nextActivityId == old(nextActivityId) + 1
    {
      if Fails(fault, 0) {
        return Err(StatementFailed(0));
      }
      var id := nextActivityId;
      activities := activities + [ActivityRow(id, activity.name, 0, 0)];
      nextActivityId := nextActivityId + 1;
      r := Ok(Activity(Some(id), activity.name, 0, 0));
    }

    /** Records one resource line: always inserts a new row (statement 0),
        even when its (type, activity) pair has rows already, then charges
        the resource's activity one run and the resource's AMOUNT as stamina
        (statement 1). The statements commit one at a time, so when the
        charge fails the new row stays. */
    method AddResource(resource: Resource, fault: Fault) returns (r: Outcome<Resource>)
      requires Valid()
      modifies this
      ensures Valid()
      ensures resourceTypes == old(resourceTypes) && nextTypeId == old(nextTypeId)
      ensures nextActivityId == old(nextActivityId)
      ensures Fails(fault, 0) ==>
        r == Err(StatementFailed(0)) &&
        resources == old(resources) && nextResourceId == old(nextResourceId) &&
        activities == old(activities)
      ensures !Fails(fault, 0) ==>
        resources == old(resources)
          + [ResourceRow(old(nextResourceId), resource.typeId, resource.amount, resource.activityId)] &&
        nextResourceId == old(nextResourceId) + 1
      ensures !Fails(fault, 0) && Fails(fault, 1) ==>
        r == Err(StatementFailed(1)) && activities == old(activities)
      ensures !Fails(fault, 0) && !Fails(fault, 1) ==>
        r == Ok(Resource(Some(old(nextResourceId)), resource.typeId, resource.amount, resource.activityId)) &&
        activities == Charge(old(activities), resource.activityId, resource.amount)
    {
      if Fails(fault, 0) {
        return Err(StatementFailed(0));
      }
      var id := nextResourceId;
      resources := resources + [ResourceRow(id, resource.typeId, resource.amount, resource.activityId)];
      nextResourceId := nextResourceId + 1;
      if Fails(fault, 1) {
        return Err(StatementFailed(1));
      }
      activities := Charge(activities, resource.activityId, resource.amount);
      r := Ok(Resource(Some(id), resource.typeId, resource.amount, resource.activityId));
    }

    /** One record of a batch: looks its (type, activity) pair up, then
        raises every row of the pair by the record's amount, or inserts the
        pair's first row when there is none. */
    method Accumulate(record: Resource)
      modifies this`resources, this`nextResourceId
      ensures (resources, nextResourceId) == ApplyRecord(old(resources), old(nextResourceId), record)
    {
      var existing := Lookup(resources, record.typeId, record.activityId);
      if existing.Some? {
        resources := AddToPair(resources, record.typeId, record.activityId, record.amount);
      } else {
        resources := resources + [ResourceRow(nextResourceId, record.typeId, record.amount, record.activityId)];
        nextResourceId := nextResourceId + 1;
      }
    }

    /** The loop of the batch path, inside its transaction: applies the
        records in order until the store rejects the lookup (statement
        1 + 2i) or the write (statement 2 + 2i) of record i, and reports the
        statement that failed. Undoing what it did is left to the caller. */
    method AccumulateAll(records: seq<Resource>, fault: Fault) returns (failed: Option<nat>)
      requires !Fails(fault, 0)
      modifies this`resources, this`nextResourceId
      ensures failed.Some? <==> fault.Some? && fault.value <= 2 * |records|
      ensures failed.Some? ==> failed == fault
      ensures failed.None? ==>
        (resources, nextResourceId) == ApplyBatch(old(resources), old(nextResourceId), records)
    {
      var i := 0;
      while i < |records|
        invariant 0 <= i <= |records|
        invariant fault.Some? ==> fault.value > 2 * i
        invariant (resources, nextResourceId) == ApplyBatch(old(resources), old(nextResourceId), records[..i])
      {
        if Fails(fault, 1 + 2 * i) {
          return Some(1 + 2 * i);
        }
        if Fails(fault, 2 + 2 * i) {
          return Some(2 + 2 * i);
        }
        Accumulate(records[i]);
        assert records[..i + 1][..i] == records[..i];
        i := i + 1;
      }
      assert records[..i] == records;
      failed := None;
    }

    /** Records a batch in one transaction: each record accumulates into the
        rows of its (type, activity) pair or inserts the pair's first row;
        then the FIRST record's activity is charged one run and the batch's
        stamina cost, once. An empty batch, or any statement the store
        rejects, rolls every table back to where it was. */
    method AddResources(request: BatchResourceRequest, fault: Fault) returns (r: Outcome<()>)
      requires Valid()
      modifies this
      ensures Valid()
      ensures resourceTypes == old(resourceTypes) && nextTypeId == old(nextTypeId)
      ensures nextActivityId == old(nextActivityId)
      ensures r.Err? <==> BatchFails(|request.records|, fault)
      ensures !Fails(fault, 0) && request.records == [] ==> r == Err(NoRecords)
      ensures r.Err? ==>
        resources == old(resources) && nextResourceId == old(nextResourceId) && activities == old(activities)
      ensures r.Ok? ==>
        request.records != [] &&
        (resources, nextResourceId) == ApplyBatch(old(resources), old(nextResourceId), request.records) &&
        activities == Charge(old(activities), request.records[0].activityId, request.staminaCost)
    {
      if Fails(fault, 0) {
        return Err(StatementFailed(0));
      }
      if request.records == [] {
        return Err(NoRecords);
      }
      var records := request.records;
      var chargedId := records[0].activityId;
      var savedRows, savedNext, savedActivities := resources, nextResourceId, activities;
      var failed := AccumulateAll(records, fault);
      ApplyBatchKeepsIds(savedRows, savedNext, records);
      if failed.Some? {
        resources, nextResourceId := savedRows, savedNext;
        return Err(StatementFailed(failed.value));
      }
      var n := |records|;
      if Fails(fault, 1 + 2 * n) {
        resources, nextResourceId := savedRows, savedNext;
        return Err(StatementFailed(1 + 2 * n));
      }
      activities := Charge(activities, chargedId, request.staminaCost);
      if Fails(fault, 2 + 2 * n) {
        resources, nextResourceId, activities := savedRows, savedNext, savedActivities;
        return Err(StatementFailed(2 + 2 * n));
      }
      r := Ok(());
    }
  }

  /** The daily-dungeon set-up: activity "Daily Dungeon" gets id 1, and
      type "Gold" registered under it gets id 1 and a zero-amount row. */
  method NewDungeon() returns (db: Database)
    ensures fresh(db) && db.Valid()
    ensures db.activities == [ActivityRow(1, "Daily Dungeon", 0, 0)]
    ensures db.resourceTypes == [TypeRow(1, "Gold")]
    ensures db.resources == [ResourceRow(1, 1, 0, 1)]
    ensures db.nextResourceId == 2
  {
    db := new Database();
    var activity := db.AddActivity(Activity(None, "Daily Dungeon", 0, 0), None);
    assert activity == Ok(Activity(Some(1), "Daily Dungeon", 0, 0));
    var gold := db.AddResourceType(1, ResourceType(None, "Gold"), None);
    assert gold == Ok(ResourceType(Some(1), "Gold"));
  }

  /** The same one-line batch submitted twice accumulates into the one row
      and charges the activity once per batch. */
  method DailyDungeonBatches()
  {
    var db := NewDungeon();
    var batch := BatchResourceRequest([Resource(None, 1, 50, 1)], 10);
    assert batch.records[..0] == [];
    var done := db.AddResources(batch, None);
    assert done.Ok?;
    assert db.resources == [ResourceRow(1, 1, 50, 1)];
    assert db.activities == [ActivityRow(1, "Daily Dungeon", 1, 10)];
    assert !BatchFails(|batch.records|, None);
    done := db.AddResources(batch, None);
    assert done.Ok?;
    assert db.resources[0] == ResourceRow(1, 1, 100, 1);
    assert db.activities[0] == ActivityRow(1, "Daily Dungeon", 2, 20);
  }

  /** The same line added twice by the single path makes two new rows, and
      each add charges the line's amount as stamina. */
  method DailyDungeonSingleAdds()
  {
    var db := NewDungeon();
    var line := Resource(None, 1, 30, 1);
    var added := db.AddResource(line, None);
    assert added == Ok(Resource(Some(2), 1, 30, 1));
    assert db.resources == [ResourceRow(1, 1, 0, 1), ResourceRow(2, 1, 30, 1)];
    assert |db.activities| == 1 && db.activities[0] == ActivityRow(1, "Daily Dungeon", 1, 30);
    added := db.AddResource(line, None);
    assert added == Ok(Resource(Some(3), 1, 30, 1));
    assert db.resources == [ResourceRow(1, 1, 0, 1), ResourceRow(2, 1, 30, 1), ResourceRow(3, 1, 30, 1)];
    assert db.activities[0] == ActivityRow(1, "Daily Dungeon", 2, 60);
  }
}
