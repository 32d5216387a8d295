/** The read paths: queries over the three tables. None of them orders its
    result, so what they promise is stated as membership and multiplicity. */
module Queries {
  import opened Entities
  import opened Tables

  /** The stored resource types whose id is `typeId`, in table order. */
  function TypesWithId(types: seq<TypeRow>, typeId: nat): (r: seq<TypeRow>)
    ensures forall x :: x in r <==> x in types && x.id == typeId
  {
    if types == [] then []
    else
      assert types == types[..|types| - 1] + [types[|types| - 1]];
      TypesWithId(types[..|types| - 1], typeId)
      + (if types[|types| - 1].id == typeId then [types[|types| - 1]] else [])
  }

  /** The resource rows of one activity, in table order. */
  function ActivityRows(resources: seq<ResourceRow>, activityId: nat): (r: seq<ResourceRow>)
    ensures forall x :: x in r <==> x in resources && x.activityId == activityId
  {
    if resources == [] then []
    else
      assert resources == resources[..|resources| - 1] + [resources[|resources| - 1]];
      ActivityRows(resources[..|resources| - 1], activityId)
      + (if resources[|resources| - 1].activityId == activityId then [resources[|resources| - 1]] else [])
  }

  function TypeEntries(matches: seq<TypeRow>): seq<ResourceType>
  {
    seq(|matches|, k requires 0 <= k < |matches| => ResourceType(Some(matches[k].id), matches[k].name))
  }

  function AmountEntries(matches: seq<TypeRow>, amount: nat): seq<(string, nat)>
  {
    seq(|matches|, k requires 0 <= k < |matches| => (matches[k].name, amount))
  }

  /** The resource types of one activity: the inner join of its resource
      rows with the types table on the type id, one (id, name) entry per
      joined pair of rows. An activity without resource rows yields
      nothing; a type with several rows under the activity appears once per
      row. */
  function GetResourceTypes(types: seq<TypeRow>, resources: seq<ResourceRow>, activityId: nat): (r: seq<ResourceType>)
    ensures forall x :: x in r <==>
      exists i, j :: 0 <= i < |resources| && 0 <= j < |types| &&
        resources[i].activityId == activityId && types[j].id == resources[i].typeId &&
        x == ResourceType(Some(types[j].id), types[j].name)
    ensures ActivityRows(resources, activityId) == [] ==> r == []
  {
    if resources == [] then []
    else
      var prefix, last := resources[..|resources| - 1], resources[|resources| - 1];
      var entries := if last.activityId == activityId then TypeEntries(TypesWithId(types, last.typeId)) else [];
      TypeEntriesMembers(types, last.typeId);
      assert resources == prefix + [last];
      GetResourceTypes(types, prefix, activityId) + entries
  }

  /** The entries one resource row contributes to GetResourceTypes. */
  lemma TypeEntriesMembers(types: seq<TypeRow>, typeId: nat)
    ensures forall x :: x in TypeEntries(TypesWithId(types, typeId)) <==>
      exists j :: 0 <= j < |types| && types[j].id == typeId && x == ResourceType(Some(types[j].id), types[j].name)
  {
    var m := TypesWithId(types, typeId);
    forall x
      ensures x in TypeEntries(m) <==>
        exists j :: 0 <= j < |types| && types[j].id == typeId && x == ResourceType(Some(types[j].id), types[j].name)
    {
      if x in TypeEntries(m) {
        var k :| 0 <= k < |m| && TypeEntries(m)[k] == x;
        assert m[k] in types;
        var j :| 0 <= j < |types| && types[j] == m[k];
        assert types[j].id == typeId;
      }
      if exists j :: 0 <= j < |types| && types[j].id == typeId && x == ResourceType(Some(types[j].id), types[j].name) {
        var j :| 0 <= j < |types| && types[j].id == typeId && x == ResourceType(Some(types[j].id), types[j].name);
        assert types[j] in m;
        var k :| 0 <= k < |m| && m[k] == types[j];
        assert TypeEntries(m)[k] == x;
      }
    }
  }

  /** The resources obtained from one activity: the inner join of its
      resource rows with the types table, one (type name, amount) entry per
      joined pair of rows. */
  function GetActivityResources(types: seq<TypeRow>, resources: seq<ResourceRow>, activityId: nat): (r: seq<(string, nat)>)
    ensures forall x :: x in r <==>
      exists i, j :: 0 <= i < |resources| && 0 <= j < |types| &&
        resources[i].activityId == activityId && types[j].id == resources[i].typeId &&
        x == (types[j].name, resources[i].amount)
    ensures ActivityRows(resources, activityId) == [] ==> r == []
  {
    if resources == [] then []
    else
      var prefix, last := resources[..|resources| - 1], resources[|resources| - 1];
      var entries := if last.activityId == activityId then AmountEntries(TypesWithId(types, last.typeId), last.amount) else [];
      AmountEntriesMembers(types, last.typeId, last.amount);
      assert resources == prefix + [last];
      GetActivityResources(types, prefix, activityId) + entries
  }

  /** The entries one resource row contributes to GetActivityResources. */
  lemma AmountEntriesMembers(types: seq<TypeRow>, typeId: nat, amount: nat)
    ensures forall x :: x in AmountEntries(TypesWithId(types, typeId), amount) <==>
      exists j :: 0 <= j < |types| && types[j].id == typeId && x == (types[j].name, amount)
  {
    var m := TypesWithId(types, typeId);
    forall x
      ensures x in AmountEntries(m, amount) <==>
        exists j :: 0 <= j < |types| && types[j].id == typeId && x == (types[j].name, amount)
    {
      if x in AmountEntries(m, amount) {
        var k :| 0 <= k < |m| && AmountEntries(m, amount)[k] == x;
        assert m[k] in types;
        var j :| 0 <= j < |types| && types[j] == m[k];
        assert types[j].id == typeId;
      }
      if exists j :: 0 <= j < |types| && types[j].id == typeId && x == (types[j].name, amount) {
        var j :| 0 <= j < |types| && types[j].id == typeId && x == (types[j].name, amount);
        assert types[j] in m;
        var k :| 0 <= k < |m| && m[k] == types[j];
        assert AmountEntries(m, amount)[k] == x;
      }
    }
  }

  function ToActivity(row: ActivityRow): Activity
  {
    Activity(Some(row.id), row.name, row.count, row.consume)
  }

  /** Every stored activity with its id, name, run count and stamina total:
      one entry per stored row. The query has no ORDER BY, so the
      contract promises the entries, not their order. */
  function GetActivities(acts: seq<ActivityRow>): (r: seq<Activity>)
    ensures |r| == |acts|
    ensures forall x :: x in r <==> exists i :: 0 <= i < |acts| && x == ToActivity(acts[i])
  {
    var r := seq(|acts|, i requires 0 <= i < |acts| => ToActivity(acts[i]));
    assert forall i :: 0 <= i < |acts| ==> r[i] == ToActivity(acts[i]);
    r
  }

  /** The statistics page: the same full list of activities. */
  function FetchStatistics(acts: seq<ActivityRow>): (r: seq<Activity>)
    ensures |r| == |acts|
    ensures forall x :: x in r <==> exists i :: 0 <= i < |acts| && x == ToActivity(acts[i])
  {
    GetActivities(acts)
  }

  /** With AUTOINCREMENT's unique ids, no activity is listed twice. With
      the length and membership facts of GetActivities, the list is a
      rearrangement of the stored activities. */
  lemma ActivitiesDistinct(acts: seq<ActivityRow>, next: nat)
    requires ActivityTableOk(acts, next)
    ensures var r := GetActivities(acts);
      forall i, j :: 0 <= i < j < |r| ==> r[i].id != r[j].id
  {
  }

  /** Every activity the list returns, looked up by its id, has the same
      fields. */
  lemma ActivitiesRoundTrip(acts: seq<ActivityRow>, next: nat, x: Activity)
    requires ActivityTableOk(acts, next) && x in GetActivities(acts)
    ensures x.id.Some? && FindActivity(acts, x.id.value) == Some(ActivityRow(x.id.value, x.name, x.count, x.consume))
  {
    var k :| 0 <= k < |acts| && GetActivities(acts)[k] == x;
    FindActivityById(acts, next, k);
  }

  /** With unique type ids, a type id names at most one stored type. */
  lemma {:induction false} TypesWithIdUnique(types: seq<TypeRow>, next: nat, typeId: nat)
    requires TypeTableOk(types, next)
    ensures |TypesWithId(types, typeId)| <= 1
    ensures (exists j :: 0 <= j < |types| && types[j].id == typeId) ==> |TypesWithId(types, typeId)| == 1
  {
    if types != [] {
      var prefix, last := types[..|types| - 1], types[|types| - 1];
      assert TypeTableOk(prefix, next);
      TypesWithIdUnique(prefix, next, typeId);
      assert TypesWithId(types, typeId)
          == TypesWithId(prefix, typeId) + (if last.id == typeId then [last] else []);
      if last.id == typeId {
        TypesWithIdNone(prefix, typeId);
      } else if exists j :: 0 <= j < |types| && types[j].id == typeId {
        var j :| 0 <= j < |types| && types[j].id == typeId;
        assert j < |prefix| && prefix[j].id == typeId;
      }
    }
  }

  lemma {:induction false} TypesWithIdNone(types: seq<TypeRow>, typeId: nat)
    requires forall j :: 0 <= j < |types| ==> types[j].id != typeId
    ensures TypesWithId(types, typeId) == []
  {
    if types != [] {
      TypesWithIdNone(types[..|types| - 1], typeId);
    }
  }

  /** Some stored type has id `typeId`. */
  predicate HasType(types: seq<TypeRow>, typeId: nat)
  {
    exists j :: 0 <= j < |types| && types[j].id == typeId
  }

  /** The stored type with id `typeId` (the first, in table order). */
  function TypeOf(types: seq<TypeRow>, typeId: nat): (t: TypeRow)
    requires HasType(types, typeId)
    ensures t in types && t.id == typeId
  {
    var j :| 0 <= j < |types| && types[j].id == typeId;
    assert types[j] in TypesWithId(types, typeId);
    TypesWithId(types, typeId)[0]
  }

  /** The resource rows of the activity whose type is stored: the rows the
      inner join keeps. */
  function JoinedRows(types: seq<TypeRow>, resources: seq<ResourceRow>, activityId: nat): (r: seq<ResourceRow>)
    ensures forall x :: x in r <==> x in resources && x.activityId == activityId && HasType(types, x.typeId)
  {
    if resources == [] then []
    else
      var prefix, last := resources[..|resources| - 1], resources[|resources| - 1];
      assert resources == prefix + [last];
      JoinedRows(types, prefix, activityId)
      + (if last.activityId == activityId && HasType(types, last.typeId) then [last] else [])
  }

  /** What GetResourceTypes should return, one entry per joined row. */
  function TypeEntriesOf(types: seq<TypeRow>, rows: seq<ResourceRow>): seq<ResourceType>
    requires forall k :: 0 <= k < |rows| ==> HasType(types, rows[k].typeId)
  {
    seq(|rows|, k requires 0 <= k < |rows| && HasType(types, rows[k].typeId) =>
      ResourceType(Some(rows[k].typeId), TypeOf(types, rows[k].typeId).name))
  }

  /** What GetActivityResources should return, one entry per joined row. */
  function AmountEntriesOf(types: seq<TypeRow>, rows: seq<ResourceRow>): seq<(string, nat)>
    requires forall k :: 0 <= k < |rows| ==> HasType(types, rows[k].typeId)
  {
    seq(|rows|, k requires 0 <= k < |rows| && HasType(types, rows[k].typeId) =>
      (TypeOf(types, rows[k].typeId).name, rows[k].amount))
  }

  /** One entry per joined row: with the unique type ids the schema's
      primary key gives, each join returns, in some order, exactly one entry
      for every resource row of the activity whose type is stored, and
      nothing for a row whose type is missing. */
  lemma JoinsOnePerRow(types: seq<TypeRow>, next: nat, resources: seq<ResourceRow>, activityId: nat)
    requires TypeTableOk(types, next)
    ensures var rows := JoinedRows(types, resources, activityId);
      multiset(GetResourceTypes(types, resources, activityId)) == multiset(TypeEntriesOf(types, rows)) &&
      multiset(GetActivityResources(types, resources, activityId)) == multiset(AmountEntriesOf(types, rows))
  {
    TypesFollowRows(types, next, resources, activityId);
    AmountsFollowRows(types, next, resources, activityId);
  }

  /** The type join in the model's own order: row by row, in table order. */
  lemma {:induction false} TypesFollowRows(types: seq<TypeRow>, next: nat, resources: seq<ResourceRow>, activityId: nat)
    requires TypeTableOk(types, next)
    ensures GetResourceTypes(types, resources, activityId) == TypeEntriesOf(types, JoinedRows(types, resources, activityId))
  {
    if resources != [] {
      TypesFollowRows(types, next, resources[..|resources| - 1], activityId);
      TypeJoinStep(types, next, resources, activityId);
    }
  }

  /** The amount join in the model's own order. */
  lemma {:induction false} AmountsFollowRows(types: seq<TypeRow>, next: nat, resources: seq<ResourceRow>, activityId: nat)
    requires TypeTableOk(types, next)
    ensures GetActivityResources(types, resources, activityId) == AmountEntriesOf(types, JoinedRows(types, resources, activityId))
  {
    if resources != [] {
      AmountsFollowRows(types, next, resources[..|resources| - 1], activityId);
      AmountJoinStep(types, next, resources, activityId);
    }
  }

  /** With unique type ids, the type side of the join for one resource row
      is that row's stored type, or nothing. */
  lemma TypesWithIdIsTypeOf(types: seq<TypeRow>, next: nat, typeId: nat)
    requires TypeTableOk(types, next)
    ensures TypesWithId(types, typeId) == if HasType(types, typeId) then [TypeOf(types, typeId)] else []
  {
    TypesWithIdUnique(types, next, typeId);
    var m := TypesWithId(types, typeId);
    if HasType(types, typeId) {
      assert TypeOf(types, typeId) in m;
    }
  }

  /** What the last resource row adds to the type join and to its reference. */
  lemma TypeJoinStep(types: seq<TypeRow>, next: nat, resources: seq<ResourceRow>, activityId: nat)
    requires TypeTableOk(types, next) && resources != []
    ensures var prefix, last := resources[..|resources| - 1], resources[|resources| - 1];
      var added := if last.activityId == activityId && HasType(types, last.typeId)
        then [ResourceType(Some(last.typeId), TypeOf(types, last.typeId).name)] else [];
      GetResourceTypes(types, resources, activityId) == GetResourceTypes(types, prefix, activityId) + added &&
      TypeEntriesOf(types, JoinedRows(types, resources, activityId)) == TypeEntriesOf(types, JoinedRows(types, prefix, activityId)) + added
  {
    var prefix, last := resources[..|resources| - 1], resources[|resources| - 1];
    if last.activityId == activityId {
      TypesWithIdIsTypeOf(types, next, last.typeId);
      if HasType(types, last.typeId) {
        EntriesSnoc(types, JoinedRows(types, prefix, activityId), last);
      }
    }
  }

  /** What the last resource row adds to the amount join and to its reference. */
  lemma AmountJoinStep(types: seq<TypeRow>, next: nat, resources: seq<ResourceRow>, activityId: nat)
    requires TypeTableOk(types, next) && resources != []
    ensures var prefix, last := resources[..|resources| - 1], resources[|resources| - 1];
      var added := if last.activityId == activityId && HasType(types, last.typeId)
        then [(TypeOf(types, last.typeId).name, last.amount)] else [];
      GetActivityResources(types, resources, activityId) == GetActivityResources(types, prefix, activityId) + added &&
      AmountEntriesOf(types, JoinedRows(types, resources, activityId)) == AmountEntriesOf(types, JoinedRows(types, prefix, activityId)) + added
  {
    var prefix, last := resources[..|resources| - 1], resources[|resources| - 1];
    if last.activityId == activityId {
      TypesWithIdIsTypeOf(types, next, last.typeId);
      if HasType(types, last.typeId) {
        EntriesSnoc(types, JoinedRows(types, prefix, activityId), last);
      }
    }
  }

  lemma EntriesSnoc(types: seq<TypeRow>, rows: seq<ResourceRow>, last: ResourceRow)
    requires forall k :: 0 <= k < |rows| ==> HasType(types, rows[k].typeId)
    requires HasType(types, last.typeId)
    ensures TypeEntriesOf(types, rows + [last])
      == TypeEntriesOf(types, rows) + [ResourceType(Some(last.typeId), TypeOf(types, last.typeId).name)]
    ensures AmountEntriesOf(types, rows + [last])
      == AmountEntriesOf(types, rows) + [(TypeOf(types, last.typeId).name, last.amount)]
  {
  }
}
