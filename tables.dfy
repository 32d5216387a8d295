/** The effect of the store's SQL statements on the `resources` and
    `activities` tables, as functions over the rows, and what the batch
    upsert-or-accumulate does to each (type, activity) pair. */
module Tables {
  import opened Entities

  // ---------------------------------------------------------------------
  // Table invariants: AUTOINCREMENT ids start at 1, strictly increase in
  // table order and stay below the next id the table will hand out.
  // ---------------------------------------------------------------------

  predicate TypeTableOk(rows: seq<TypeRow>, next: nat)
  {
    1 <= next &&
    (forall i :: 0 <= i < |rows| ==> 1 <= rows[i].id < next) &&
    (forall i, j :: 0 <= i < j < |rows| ==> rows[i].id < rows[j].id)
  }

  predicate ActivityTableOk(rows: seq<ActivityRow>, next: nat)
  {
    1 <= next &&
    (forall i :: 0 <= i < |rows| ==> 1 <= rows[i].id < next) &&
    (forall i, j :: 0 <= i < j < |rows| ==> rows[i].id < rows[j].id)
  }

  predicate ResourceTableOk(rows: seq<ResourceRow>, next: nat)
  {
    1 <= next &&
    (forall i :: 0 <= i < |rows| ==> 1 <= rows[i].id < next) &&
    (forall i, j :: 0 <= i < j < |rows| ==> rows[i].id < rows[j].id)
  }

  // ---------------------------------------------------------------------
  // The resources table
  // ---------------------------------------------------------------------

  /** A row is keyed by its (type, activity) pair. */
  predicate Matches(row: ResourceRow, typeId: nat, activityId: nat)
  {
    row.typeId == typeId && row.activityId == activityId
  }

  /** The rows keyed by (typeId, activityId), in table order. */
  function RowsOf(rows: seq<ResourceRow>, typeId: nat, activityId: nat): seq<ResourceRow>
  {
    if rows == [] then []
    else
      RowsOf(rows[..|rows| - 1], typeId, activityId)
      + (if Matches(rows[|rows| - 1], typeId, activityId) then [rows[|rows| - 1]] else [])
  }

  /** The existence check of the batch path: the amount of some row keyed
      by (typeId, activityId), or None when the pair has no row. The query
      has no ORDER BY, so which row's amount is unspecified; the model reads
      the first in table order, but its contract promises only some row. */
  function Lookup(rows: seq<ResourceRow>, typeId: nat, activityId: nat): (r: Option<nat>)
    ensures r.Some? <==> RowsOf(rows, typeId, activityId) != []
    ensures r.Some? ==> exists row :: row in RowsOf(rows, typeId, activityId) && row.amount == r.value
  {
    if rows == [] then None
    else
      match Lookup(rows[..|rows| - 1], typeId, activityId)
      case Some(v) => Some(v)
      case None =>
        if Matches(rows[|rows| - 1], typeId, activityId) then Some(rows[|rows| - 1].amount) else None
  }

  /** Every row with its amount raised by `amount`. */
  function Bump(rows: seq<ResourceRow>, amount: nat): seq<ResourceRow>
  {
    seq(|rows|, i requires 0 <= i < |rows| => rows[i].(amount := rows[i].amount + amount))
  }

  /** One row after the accumulating update of pair (typeId, activityId). */
  function AddToRow(row: ResourceRow, typeId: nat, activityId: nat, amount: nat): ResourceRow
  {
    if Matches(row, typeId, activityId) then row.(amount := row.amount + amount) else row
  }

  /** The accumulating update of the batch path: EVERY row keyed by
      (typeId, activityId) gains `amount`; other rows stay as they are. */
  function AddToPair(rows: seq<ResourceRow>, typeId: nat, activityId: nat, amount: nat): seq<ResourceRow>
  {
    seq(|rows|, i requires 0 <= i < |rows| => AddToRow(rows[i], typeId, activityId, amount))
  }

  /** One record of a batch: when its pair already has rows they all gain
      the record's amount, otherwise a row with the next id is inserted. */
  function ApplyRecord(rows: seq<ResourceRow>, next: nat, rec: Resource): (seq<ResourceRow>, nat)
  {
    if Lookup(rows, rec.typeId, rec.activityId).Some? then
      (AddToPair(rows, rec.typeId, rec.activityId, rec.amount), next)
    else
      (rows + [ResourceRow(next, rec.typeId, rec.amount, rec.activityId)], next + 1)
  }

  /** The resources table and its next id after the records of a batch, in
      order. */
  function ApplyBatch(rows: seq<ResourceRow>, next: nat, records: seq<Resource>): (seq<ResourceRow>, nat)
    decreases |records|
  {
    if records == [] then (rows, next)
    else
      var p := ApplyBatch(rows, next, records[..|records| - 1]);
      ApplyRecord(p.0, p.1, records[|records| - 1])
  }

  predicate RecordFor(rec: Resource, typeId: nat, activityId: nat)
  {
    rec.typeId == typeId && rec.activityId == activityId
  }

  predicate InBatch(records: seq<Resource>, typeId: nat, activityId: nat)
  {
    exists i :: 0 <= i < |records| && RecordFor(records[i], typeId, activityId)
  }

  /** The total amount a batch submits for one (type, activity) pair. */
  function BatchSum(records: seq<Resource>, typeId: nat, activityId: nat): (r: nat)
    ensures !InBatch(records, typeId, activityId) ==> r == 0
  {
    if records == [] then 0
    else
      var last := records[|records| - 1];
      BatchSum(records[..|records| - 1], typeId, activityId)
      + (if RecordFor(last, typeId, activityId) then last.amount else 0)
  }

  // ---------------------------------------------------------------------
  // Lemmas about the resources table
  // ---------------------------------------------------------------------

  /** The accumulating update changes amounts only: the table keeps its
      length, and every row keeps its id and its key. */
  lemma AddToPairKeepsIds(rows: seq<ResourceRow>, next: nat, typeId: nat, activityId: nat, amount: nat)
    requires ResourceTableOk(rows, next)
    ensures ResourceTableOk(AddToPair(rows, typeId, activityId, amount), next)
  {
  }

  /** A batch keeps ids unique, increasing and below the next id, and never
      lowers the next id. */
  lemma {:induction false} ApplyBatchKeepsIds(rows: seq<ResourceRow>, next: nat, records: seq<Resource>)
    requires ResourceTableOk(rows, next)
    ensures ResourceTableOk(ApplyBatch(rows, next, records).0, ApplyBatch(rows, next, records).1)
    ensures next <= ApplyBatch(rows, next, records).1
    decreases |records|
  {
    if records != [] {
      var p := ApplyBatch(rows, next, records[..|records| - 1]);
      ApplyBatchKeepsIds(rows, next, records[..|records| - 1]);
      var rec := records[|records| - 1];
      if Lookup(p.0, rec.typeId, rec.activityId).Some? {
        AddToPairKeepsIds(p.0, p.1, rec.typeId, rec.activityId, rec.amount);
      }
    }
  }

  lemma RowsOfAppend(rows: seq<ResourceRow>, row: ResourceRow, typeId: nat, activityId: nat)
    ensures RowsOf(rows + [row], typeId, activityId)
         == RowsOf(rows, typeId, activityId) + (if Matches(row, typeId, activityId) then [row] else [])
  {
    assert (rows + [row])[..|rows|] == rows;
  }

  /** The selection holds exactly the stored rows of the pair. */
  lemma {:induction false} RowsOfMembers(rows: seq<ResourceRow>, typeId: nat, activityId: nat, x: ResourceRow)
    ensures x in RowsOf(rows, typeId, activityId) <==> x in rows && Matches(x, typeId, activityId)
  {
    if rows != [] {
      assert rows == rows[..|rows| - 1] + [rows[|rows| - 1]];
      RowsOfMembers(rows[..|rows| - 1], typeId, activityId, x);
    }
  }

  lemma BumpAppend(rows: seq<ResourceRow>, row: ResourceRow, amount: nat)
    ensures Bump(rows + [row], amount) == Bump(rows, amount) + [row.(amount := row.amount + amount)]
  {
  }

  lemma BumpZero(rows: seq<ResourceRow>)
    ensures Bump(rows, 0) == rows
  {
    assert forall i :: 0 <= i < |rows| ==> Bump(rows, 0)[i] == rows[i];
  }

  lemma BumpTwice(rows: seq<ResourceRow>, a: nat, b: nat)
    ensures Bump(Bump(rows, a), b) == Bump(rows, a + b)
  {
    assert forall i :: 0 <= i < |rows| ==> Bump(Bump(rows, a), b)[i] == Bump(rows, a + b)[i];
  }

  /** The accumulating update raises exactly the rows of its own pair, all
      of them (duplicates included), and leaves every other pair's rows as
      they were. */
  lemma {:induction false} AddToPairRows(rows: seq<ResourceRow>, typeId: nat, activityId: nat, amount: nat,
                                         t: nat, a: nat)
    ensures RowsOf(AddToPair(rows, typeId, activityId, amount), t, a)
         == if t == typeId && a == activityId then Bump(RowsOf(rows, t, a), amount)
            else RowsOf(rows, t, a)
  {
    if rows != [] {
      var prefix, last := rows[..|rows| - 1], rows[|rows| - 1];
      var last' := AddToRow(last, typeId, activityId, amount);
      var updated := AddToPair(prefix, typeId, activityId, amount);
      AddToPairRows(prefix, typeId, activityId, amount, t, a);
      AddToPairSnoc(rows, typeId, activityId, amount);
      RowsOfAppend(updated, last', t, a);
      assert RowsOf(rows, t, a) == RowsOf(prefix, t, a) + (if Matches(last, t, a) then [last] else []);
      if t == typeId && a == activityId && Matches(last, t, a) {
        BumpAppend(RowsOf(prefix, t, a), last, amount);
      } else if Matches(last, t, a) {
        assert last' == last;
      } else {
        assert !Matches(last', t, a);
      }
    }
  }

  lemma AddToPairSnoc(rows: seq<ResourceRow>, typeId: nat, activityId: nat, amount: nat)
    requires rows != []
    ensures AddToPair(rows, typeId, activityId, amount)
         == AddToPair(rows[..|rows| - 1], typeId, activityId, amount)
            + [AddToRow(rows[|rows| - 1], typeId, activityId, amount)]
  {
  }

  /** What one record of a batch does to the rows of a pair (t, a). */
  lemma ApplyRecordRows(rows: seq<ResourceRow>, next: nat, rec: Resource, t: nat, a: nat)
    ensures RowsOf(ApplyRecord(rows, next, rec).0, t, a)
         == if !RecordFor(rec, t, a) then RowsOf(rows, t, a)
            else if RowsOf(rows, t, a) != [] then Bump(RowsOf(rows, t, a), rec.amount)
            else [ResourceRow(next, t, rec.amount, a)]
  {
    if Lookup(rows, rec.typeId, rec.activityId).Some? {
      AddToPairRows(rows, rec.typeId, rec.activityId, rec.amount, t, a);
    } else {
      RowsOfAppend(rows, ResourceRow(next, rec.typeId, rec.amount, rec.activityId), t, a);
    }
  }

  /** How the rows of one (type, activity) pair relate before (`before`) and
      after (`after`) records submitting `sum` in all for it, of which
      there was at least one when `seen`: rows that existed all gained
      `sum`; with no prior rows, one new row holds `sum` if the pair was
      seen, and there is still no row if it was not. */
  ghost predicate Accumulated(before: seq<ResourceRow>, after: seq<ResourceRow>, sum: nat, seen: bool,
                              t: nat, a: nat)
  {
    if before != [] then after == Bump(before, sum)
    else if !seen then after == []
    else |after| == 1 && after[0].amount == sum && Matches(after[0], t, a)
  }

  /** Batch accumulation, pair by pair: a pair that already has rows sees
      every one of them raised by the batch's total for that pair; a pair
      without rows that the batch mentions ends with exactly one row holding
      that total; a pair without rows that the batch does not mention still
      has none. */
  lemma {:induction false} BatchAccumulates(rows: seq<ResourceRow>, next: nat, records: seq<Resource>,
                                            t: nat, a: nat)
    ensures Accumulated(RowsOf(rows, t, a), RowsOf(ApplyBatch(rows, next, records).0, t, a),
                        BatchSum(records, t, a), InBatch(records, t, a), t, a)
    decreases |records|
  {
    if records == [] {
      assert BatchSum(records, t, a) == 0 && ApplyBatch(rows, next, records).0 == rows;
      BumpZero(RowsOf(rows, t, a));
    } else {
      BatchAccumulates(rows, next, records[..|records| - 1], t, a);
      BatchStep(rows, next, records, t, a);
    }
  }

  /** The induction step of BatchAccumulates: from the prefix of a batch to
      the whole batch. */
  lemma BatchStep(rows: seq<ResourceRow>, next: nat, records: seq<Resource>, t: nat, a: nat)
    requires records != []
    requires var prefix := records[..|records| - 1];
      Accumulated(RowsOf(rows, t, a), RowsOf(ApplyBatch(rows, next, prefix).0, t, a),
                  BatchSum(prefix, t, a), InBatch(prefix, t, a), t, a)
    ensures Accumulated(RowsOf(rows, t, a), RowsOf(ApplyBatch(rows, next, records).0, t, a),
                        BatchSum(records, t, a), InBatch(records, t, a), t, a)
  {
    var prefix, last := records[..|records| - 1], records[|records| - 1];
    BatchSnoc(rows, next, records, t, a);
    var p := ApplyBatch(rows, next, prefix);
    AccumulateStep(RowsOf(rows, t, a), RowsOf(p.0, t, a), RowsOf(ApplyBatch(rows, next, records).0, t, a),
                   BatchSum(prefix, t, a), InBatch(prefix, t, a), RecordFor(last, t, a), last.amount, p.1,
                   BatchSum(records, t, a), InBatch(records, t, a), t, a);
  }

  /** A batch is its prefix followed by its last record. */
  lemma BatchSnoc(rows: seq<ResourceRow>, next: nat, records: seq<Resource>, t: nat, a: nat)
    requires records != []
    ensures var prefix, last := records[..|records| - 1], records[|records| - 1];
      var p := ApplyBatch(rows, next, prefix);
      && RowsOf(ApplyBatch(rows, next, records).0, t, a)
         == (if !RecordFor(last, t, a) then RowsOf(p.0, t, a)
             else if RowsOf(p.0, t, a) != [] then Bump(RowsOf(p.0, t, a), last.amount)
             else [ResourceRow(p.1, t, last.amount, a)])
      && BatchSum(records, t, a) == BatchSum(prefix, t, a) + (if RecordFor(last, t, a) then last.amount else 0)
      && (InBatch(records, t, a) <==> InBatch(prefix, t, a) || RecordFor(last, t, a))
  {
    var prefix, last := records[..|records| - 1], records[|records| - 1];
    var p := ApplyBatch(rows, next, prefix);
    ApplyRecordRows(p.0, p.1, last, t, a);
    InBatchSnoc(records, t, a);
  }

  /** The induction step of BatchAccumulates, over the rows of the pair only:
      `mid` holds the pair's rows after a prefix of the batch that submitted
      `sum`, `after` once one more record (for the pair when `hit`) has been
      applied. */
  lemma AccumulateStep(before: seq<ResourceRow>, mid: seq<ResourceRow>, after: seq<ResourceRow>,
                       sum: nat, seen: bool, hit: bool, amount: nat, next: nat, sum': nat, seen': bool,
                       t: nat, a: nat)
    requires Accumulated(before, mid, sum, seen, t, a)
    requires !seen ==> sum == 0
    requires after == if !hit then mid
                      else if mid != [] then Bump(mid, amount)
                      else [ResourceRow(next, t, amount, a)]
    requires sum' == sum + (if hit then amount else 0) && seen' == (seen || hit)
    ensures Accumulated(before, after, sum', seen', t, a)
  {
    if hit && before != [] {
      BumpTwice(before, sum, amount);
    }
  }

  lemma InBatchSnoc(records: seq<Resource>, t: nat, a: nat)
    requires records != []
    ensures InBatch(records, t, a)
        <==> InBatch(records[..|records| - 1], t, a) || RecordFor(records[|records| - 1], t, a)
  {
    var prefix := records[..|records| - 1];
    if InBatch(prefix, t, a) {
      var i :| 0 <= i < |prefix| && RecordFor(prefix[i], t, a);
      assert RecordFor(records[i], t, a);
    }
    if InBatch(records, t, a) && !RecordFor(records[|records| - 1], t, a) {
      var i :| 0 <= i < |records| && RecordFor(records[i], t, a);
      assert RecordFor(prefix[i], t, a);
    }
  }

  /** A pair that already has rows: every one of them, duplicates included,
      gains the batch's total for the pair, and no row is added for it. */
  lemma BatchAddsToExistingRows(rows: seq<ResourceRow>, next: nat, records: seq<Resource>, t: nat, a: nat)
    requires RowsOf(rows, t, a) != []
    ensures RowsOf(ApplyBatch(rows, next, records).0, t, a) == Bump(RowsOf(rows, t, a), BatchSum(records, t, a))
  {
    BatchAccumulates(rows, next, records, t, a);
  }

  /** A pair without rows that the batch mentions, however often: exactly one
      row, holding the batch's total for the pair. */
  lemma BatchCreatesOneRow(rows: seq<ResourceRow>, next: nat, records: seq<Resource>, t: nat, a: nat)
    requires RowsOf(rows, t, a) == [] && InBatch(records, t, a)
    ensures var out := RowsOf(ApplyBatch(rows, next, records).0, t, a);
      |out| == 1 && Matches(out[0], t, a) && out[0].amount == BatchSum(records, t, a)
  {
    BatchAccumulates(rows, next, records, t, a);
  }

  /** A pair the batch does not mention keeps exactly the rows it had. */
  lemma BatchLeavesOtherPairs(rows: seq<ResourceRow>, next: nat, records: seq<Resource>, t: nat, a: nat)
    requires !InBatch(records, t, a)
    ensures RowsOf(ApplyBatch(rows, next, records).0, t, a) == RowsOf(rows, t, a)
  {
    BatchAccumulates(rows, next, records, t, a);
    if RowsOf(rows, t, a) != [] {
      BumpZero(RowsOf(rows, t, a));
    }
  }

  /** At most one row per (type, activity) pair. */
  ghost predicate OneRowPerPair(rows: seq<ResourceRow>)
  {
    forall t: nat, a: nat :: |RowsOf(rows, t, a)| <= 1
  }

  /** The batch path never creates a duplicate row for a pair. */
  lemma BatchKeepsOneRowPerPair(rows: seq<ResourceRow>, next: nat, records: seq<Resource>)
    requires OneRowPerPair(rows)
    ensures OneRowPerPair(ApplyBatch(rows, next, records).0)
  {
    forall t: nat, a: nat ensures |RowsOf(ApplyBatch(rows, next, records).0, t, a)| <= 1 {
      BatchAccumulates(rows, next, records, t, a);
    }
  }

  /** Two batches applied one after the other leave the table as one batch
      holding the records of both. */
  lemma {:induction false} ApplyBatchConcat(rows: seq<ResourceRow>, next: nat,
                                            first: seq<Resource>, second: seq<Resource>)
    ensures var mid := ApplyBatch(rows, next, first);
      ApplyBatch(mid.0, mid.1, second) == ApplyBatch(rows, next, first + second)
    decreases |second|
  {
    var mid := ApplyBatch(rows, next, first);
    var whole := first + second;
    if second == [] {
      assert whole == first;
    } else {
      var prefix, last := second[..|second| - 1], second[|second| - 1];
      ApplyBatchConcat(rows, next, first, prefix);
      assert whole[..|whole| - 1] == first + prefix;
      assert whole[|whole| - 1] == last;
      ApplyBatchSnoc(mid.0, mid.1, second);
      ApplyBatchSnoc(rows, next, whole);
    }
  }

  lemma ApplyBatchSnoc(rows: seq<ResourceRow>, next: nat, records: seq<Resource>)
    requires records != []
    ensures var p := ApplyBatch(rows, next, records[..|records| - 1]);
      ApplyBatch(rows, next, records) == ApplyRecord(p.0, p.1, records[|records| - 1])
  {
  }

  lemma {:induction false} BatchSumConcat(first: seq<Resource>, second: seq<Resource>, t: nat, a: nat)
    ensures BatchSum(first + second, t, a) == BatchSum(first, t, a) + BatchSum(second, t, a)
    decreases |second|
  {
    if second == [] {
      assert first + second == first;
    } else {
      var prefix := second[..|second| - 1];
      BatchSumConcat(first, prefix, t, a);
      assert (first + second)[..|first + second| - 1] == first + prefix;
      assert (first + second)[|first + second| - 1] == second[|second| - 1];
    }
  }

  /** Repeated batches for a pair accumulate: after two batches, a pair that
      had a single row holds that row's amount plus everything both batches
      submitted for it, still in a single row. */
  lemma TwoBatchesAccumulate(rows: seq<ResourceRow>, next: nat, first: seq<Resource>, second: seq<Resource>,
                             t: nat, a: nat)
    requires |RowsOf(rows, t, a)| == 1
    ensures var mid := ApplyBatch(rows, next, first);
      var out := RowsOf(ApplyBatch(mid.0, mid.1, second).0, t, a);
      |out| == 1 && out[0].id == RowsOf(rows, t, a)[0].id
      && out[0].amount == RowsOf(rows, t, a)[0].amount + BatchSum(first, t, a) + BatchSum(second, t, a)
  {
    ApplyBatchConcat(rows, next, first, second);
    BatchSumConcat(first, second, t, a);
    BatchAccumulates(rows, next, first + second, t, a);
  }

  /** The single-add path inserts unconditionally: the pair's rows gain the
      new row, whatever rows it had before. */
  lemma SingleAddNeverMerges(rows: seq<ResourceRow>, next: nat, res: Resource)
    ensures var out := RowsOf(rows + [ResourceRow(next, res.typeId, res.amount, res.activityId)],
                              res.typeId, res.activityId);
      out == RowsOf(rows, res.typeId, res.activityId) + [ResourceRow(next, res.typeId, res.amount, res.activityId)]
      && |out| == |RowsOf(rows, res.typeId, res.activityId)| + 1
  {
    RowsOfAppend(rows, ResourceRow(next, res.typeId, res.amount, res.activityId), res.typeId, res.activityId);
  }

  /** Hence the single-add path breaks the one-row-per-pair property the
      batch path keeps, as soon as the pair already has a row. */
  lemma SingleAddDuplicates(rows: seq<ResourceRow>, next: nat, res: Resource)
    requires RowsOf(rows, res.typeId, res.activityId) != []
    ensures !OneRowPerPair(rows + [ResourceRow(next, res.typeId, res.amount, res.activityId)])
  {
    SingleAddNeverMerges(rows, next, res);
    var out := rows + [ResourceRow(next, res.typeId, res.amount, res.activityId)];
    assert |RowsOf(out, res.typeId, res.activityId)| > 1;
  }

  // ---------------------------------------------------------------------
  // The activities table
  // ---------------------------------------------------------------------

  predicate HasActivity(acts: seq<ActivityRow>, id: nat)
  {
    exists i :: 0 <= i < |acts| && acts[i].id == id
  }

  /** One activity row after a charge of activity `id`. */
  function ChargeRow(row: ActivityRow, id: nat, cost: nat): ActivityRow
  {
    if row.id == id then row.(count := row.count + 1, consume := row.consume + cost) else row
  }

  /** The activity update shared by both submission paths: the row whose id
      is `id`, if any, records one more run and `cost` more stamina. */
  function Charge(acts: seq<ActivityRow>, id: nat, cost: nat): (r: seq<ActivityRow>)
    ensures |r| == |acts|
    ensures forall i :: 0 <= i < |acts| ==> r[i].id == acts[i].id && r[i].name == acts[i].name
    ensures forall i :: 0 <= i < |acts| && acts[i].id == id ==>
      r[i].count == acts[i].count + 1 && r[i].consume == acts[i].consume + cost
    ensures forall i :: 0 <= i < |acts| && acts[i].id != id ==> r[i] == acts[i]
    ensures !HasActivity(acts, id) ==> r == acts
  {
    seq(|acts|, i requires 0 <= i < |acts| => ChargeRow(acts[i], id, cost))
  }

  /** Looks an activity up by its id. The store itself never reads an
      activity by id; this states the round trip of the activity list
      (Queries.ActivitiesRoundTrip). */
  function FindActivity(acts: seq<ActivityRow>, id: nat): (r: Option<ActivityRow>)
    ensures r.Some? <==> HasActivity(acts, id)
    ensures r.Some? ==> r.value in acts && r.value.id == id
  {
    if acts == [] then None
    else if acts[|acts| - 1].id == id then Some(acts[|acts| - 1])
    else FindActivity(acts[..|acts| - 1], id)
  }

  function TotalCount(acts: seq<ActivityRow>): nat
  {
    if acts == [] then 0 else TotalCount(acts[..|acts| - 1]) + acts[|acts| - 1].count
  }

  function TotalConsume(acts: seq<ActivityRow>): nat
  {
    if acts == [] then 0 else TotalConsume(acts[..|acts| - 1]) + acts[|acts| - 1].consume
  }

  lemma ActivityPrefixOk(acts: seq<ActivityRow>, next: nat)
    requires acts != [] && ActivityTableOk(acts, next)
    ensures ActivityTableOk(acts[..|acts| - 1], next)
    ensures !HasActivity(acts[..|acts| - 1], acts[|acts| - 1].id)
  {
  }

  lemma ChargeSnoc(acts: seq<ActivityRow>, id: nat, cost: nat)
    requires acts != []
    ensures Charge(acts, id, cost)[..|acts| - 1] == Charge(acts[..|acts| - 1], id, cost)
    ensures Charge(acts, id, cost)[|acts| - 1] == ChargeRow(acts[|acts| - 1], id, cost)
  {
  }

  lemma HasActivitySnoc(acts: seq<ActivityRow>, id: nat)
    requires acts != []
    ensures HasActivity(acts, id) <==> HasActivity(acts[..|acts| - 1], id) || acts[|acts| - 1].id == id
  {
    var prefix := acts[..|acts| - 1];
    if HasActivity(prefix, id) {
      var i :| 0 <= i < |prefix| && prefix[i].id == id;
      assert acts[i].id == id;
    }
    if HasActivity(acts, id) && acts[|acts| - 1].id != id {
      var i :| 0 <= i < |acts| && acts[i].id == id;
      assert prefix[i].id == id;
    }
  }

  /** One charge is one run: over all stored activities, the run count grows
      by exactly 1 and the stamina by exactly `cost` when some activity has
      the id, and neither changes when none has. */
  lemma {:induction false} ChargeTotals(acts: seq<ActivityRow>, next: nat, id: nat, cost: nat)
    requires ActivityTableOk(acts, next)
    ensures TotalCount(Charge(acts, id, cost)) == TotalCount(acts) + (if HasActivity(acts, id) then 1 else 0)
    ensures TotalConsume(Charge(acts, id, cost)) == TotalConsume(acts) + (if HasActivity(acts, id) then cost else 0)
  {
    if acts != [] {
      var prefix, last := acts[..|acts| - 1], acts[|acts| - 1];
      ActivityPrefixOk(acts, next);
      ChargeTotals(prefix, next, id, cost);
      ChargeSnoc(acts, id, cost);
      HasActivitySnoc(acts, id);
      var charged := Charge(acts, id, cost);
      assert TotalCount(charged) == TotalCount(Charge(prefix, id, cost)) + ChargeRow(last, id, cost).count;
      assert TotalConsume(charged) == TotalConsume(Charge(prefix, id, cost)) + ChargeRow(last, id, cost).consume;
    }
  }

  /** With unique ids, looking an activity up by its own id finds that same
      row. */
  lemma {:induction false} FindActivityById(acts: seq<ActivityRow>, next: nat, k: nat)
    requires ActivityTableOk(acts, next) && k < |acts|
    ensures FindActivity(acts, acts[k].id) == Some(acts[k])
  {
    if k < |acts| - 1 {
      ActivityPrefixOk(acts, next);
      FindActivityById(acts[..|acts| - 1], next, k);
    }
  }
}
