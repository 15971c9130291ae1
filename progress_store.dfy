/** The per-draft progress tracker of contract generation
    (mlend/progress_store.py): one record per draft id, created and updated
    in place by `init`, `update`, `complete` and `fail`, read by `get`.
    Timestamps are passed in by the caller. */
module Progress {
  import opened Strings

  datatype Status = Running | Completed | Failed

  /** A record key that may be missing: a record created by `fail` for an
      unknown draft holds only the draft id, status, error and timestamp. */
  datatype Slot<T> = Absent | Has(value: T)

  datatype ProgressRecord = ProgressRecord(
    draftId: string,
    status: Status,
    percent: Slot<int>,
    currentStep: Slot<Option<string>>,
    completedSections: Slot<int>,
    totalSections: Slot<int>,
    updatedAt: int,
    error: Slot<Option<string>>)

  /** The cap `update` applies while a draft is still running. */
  const RunningCap: int := 95

  function Max(a: int, b: int): int { if a >= b then a else b }
  function Min(a: int, b: int): int { if a <= b then a else b }

  /** `round(num / den)` with ties to even, computed exactly. */
  function RoundHalfEven(num: int, den: int): (r: int)
    requires den > 0
    ensures 2 * num - den <= 2 * den * r <= 2 * num + den
    ensures (2 * den * r == 2 * num - den || 2 * den * r == 2 * num + den) ==> r % 2 == 0
  {
    var q := num / den;
    var rem := num % den;
    assert num == den * q + rem;
    if 2 * rem > den then q + 1
    else if 2 * rem < den then q
    else if q % 2 == 0 then q else q + 1
  }

  /** A multiple of a positive number lies at least one step from zero. */
  lemma MultipleAtLeast(den: int, k: int)
    requires den > 0 && k >= 1
    ensures den * k >= den
  {
    if k > 1 {
      MultipleAtLeast(den, k - 1);
      assert den * k == den * (k - 1) + den;
    }
  }

  /** The only multiple of `2 * den` within `den` of zero is zero. */
  lemma OnlyZeroNearZero(den: int, k: int)
    requires den > 0 && -den <= 2 * den * k <= den
    ensures k == 0
  {
    if k >= 1 {
      MultipleAtLeast(den, k);
    } else if k <= -1 {
      MultipleAtLeast(den, -k);
    }
  }

  /** A positive number times at least one, or at least two. */
  lemma MultipleSteps(den: int, d: int)
    requires den > 0
    ensures d >= 1 ==> den * d >= den
    ensures d >= 2 ==> den * d >= 2 * den
  {
    if d >= 2 {
      MultipleAtLeast(den, d - 1);
      assert den * d == den * (d - 1) + den;
    } else if d >= 1 {
      MultipleAtLeast(den, d);
    }
  }

  /** Two roundings at most one step apart when their inputs are `gap` apart
      the other way round. */
  lemma StepGap(den: int, d: int, gap: int)
    requires den > 0 && gap >= 0 && 2 * den * d <= 2 * den - 2 * gap
    ensures d <= 1 && (d == 1 ==> gap == 0)
  {
    MultipleSteps(den, d);
  }

  /** Rounding to the nearest integer is monotone. */
  lemma RoundHalfEvenMonotone(a: int, b: int, den: int)
    requires den > 0 && a <= b
    ensures RoundHalfEven(a, den) <= RoundHalfEven(b, den)
  {
    var ra, rb := RoundHalfEven(a, den), RoundHalfEven(b, den);
    assert 2 * den * (ra - rb) == 2 * den * ra - 2 * den * rb;
    StepGap(den, ra - rb, b - a);
  }

  /** `_percent` (progress_store.py:14-18): `completed / total` as a whole
      percentage, rounded half to even and clamped to [0, 100]. */
  function Percent(completed: int, total: int): (r: int)
    ensures 0 <= r <= 100
    ensures total <= 0 ==> r == 0
  {
    if total <= 0 then 0 else Max(0, Min(100, RoundHalfEven(completed * 100, total)))
  }

  /** More completed sections never give a smaller percentage. */
  lemma PercentMonotone(c1: int, c2: int, total: int)
    requires c1 <= c2
    ensures Percent(c1, total) <= Percent(c2, total)
  {
    if total > 0 {
      RoundHalfEvenMonotone(c1 * 100, c2 * 100, total);
    }
  }

  /** Nothing completed is 0%, everything completed is 100%. */
  lemma PercentEnds(total: int)
    ensures Percent(0, total) == 0
    ensures total > 0 ==> Percent(total, total) == 100
  {
    if total > 0 {
      OnlyZeroNearZero(total, RoundHalfEven(0, total));
      var r1 := RoundHalfEven(total * 100, total);
      assert 2 * total * (r1 - 100) == 2 * total * r1 - 200 * total;
      OnlyZeroNearZero(total, r1 - 100);
    }
  }

  /** `total or 0` for an optional total. */
  function TotalOrZero(total: Option<int>): int {
    if total.Some? then total.value else 0
  }

  /** `progress.get("total_sections") or 0`. */
  function SlotOrZero(s: Slot<int>): int {
    if s.Has? then s.value else 0
  }

  /** The record `init` writes (progress_store.py:21-36). */
  function InitRecord(draftId: string, totalSections: int, currentStep: Option<string>, now: int): (r: ProgressRecord)
    ensures r.draftId == draftId && r.status == Running && r.error == Has(None)
    ensures r.completedSections == Has(0) && r.totalSections == Has(totalSections)
    ensures r.percent == Has(0) && r.currentStep == Has(currentStep) && r.updatedAt == now
  {
    PercentEnds(totalSections);
    ProgressRecord(draftId, Running, Has(Percent(0, totalSections)), Has(currentStep), Has(0), Has(totalSections), now, Has(None))
  }

  /** The record `update` writes, from the stored one if any
      (progress_store.py:39-71). */
  function UpdateRecord(prev: Option<ProgressRecord>, draftId: string, completedSections: int,
                        totalSections: Option<int>, currentStep: Option<string>, now: int): (r: ProgressRecord)
    ensures r.status == Running && r.updatedAt == now
    ensures r.completedSections == Has(Max(0, completedSections))
    ensures r.percent.Has? && 0 <= r.percent.value <= RunningCap
    ensures r.percent.value == Min(Percent(Max(0, completedSections), SlotOrZero(r.totalSections)), RunningCap)
    ensures totalSections.Some? ==> r.totalSections == Has(totalSections.value)
    ensures currentStep.Some? ==> r.currentStep == Has(currentStep)
    ensures prev.Some? ==> r.draftId == prev.value.draftId && r.error == prev.value.error
    ensures prev.Some? && totalSections.None? ==> r.totalSections == prev.value.totalSections
    ensures prev.Some? && currentStep.None? ==> r.currentStep == prev.value.currentStep
    ensures prev.None? ==> r.draftId == draftId && r.error == Has(None)
    ensures prev.None? && totalSections.None? ==> r.totalSections == Has(0)
    ensures prev.None? && currentStep.None? ==> r.currentStep == Has(None)
  {
    var base := if prev.Some? then prev.value
      else ProgressRecord(draftId, Running, Has(0), Has(None), Has(0), Has(TotalOrZero(totalSections)), now, Has(None));
    var withTotal := if totalSections.Some? then base.(totalSections := Has(totalSections.value)) else base;
    var completed := Max(0, completedSections);
    var percent := Percent(completed, SlotOrZero(withTotal.totalSections));
    withTotal.(
      completedSections := Has(completed),
      percent := Has(Min(percent, RunningCap)),
      currentStep := if currentStep.Some? then Has(currentStep) else withTotal.currentStep,
      status := Running,
      updatedAt := now)
  }

  /** Two successive updates of one draft with a non-decreasing completed
      count and the same total never lower the percentage. */
  lemma UpdatePercentMonotone(prev: Option<ProgressRecord>, draftId: string, c1: int, c2: int,
                              totalSections: Option<int>, step1: Option<string>, step2: Option<string>,
                              t1: int, t2: int)
    requires c1 <= c2
    ensures var first := UpdateRecord(prev, draftId, c1, totalSections, step1, t1);
            var second := UpdateRecord(Some(first), draftId, c2, totalSections, step2, t2);
            first.percent.value <= second.percent.value
  {
    var first := UpdateRecord(prev, draftId, c1, totalSections, step1, t1);
    var second := UpdateRecord(Some(first), draftId, c2, totalSections, step2, t2);
    assert second.totalSections == first.totalSections;
    PercentMonotone(Max(0, c1), Max(0, c2), SlotOrZero(first.totalSections));
  }

  /** The record `complete` writes (progress_store.py:74-97). */
  function CompleteRecord(prev: Option<ProgressRecord>, draftId: string, currentStep: Option<string>, now: int): (r: ProgressRecord)
    ensures r.status == Completed && r.percent == Has(100) && r.error == Has(None) && r.updatedAt == now
    ensures currentStep.Some? ==> r.currentStep == Has(currentStep)
    ensures prev.Some? ==> r.draftId == prev.value.draftId
                           && r.completedSections == prev.value.completedSections
                           && r.totalSections == prev.value.totalSections
    ensures prev.Some? && currentStep.None? ==> r.currentStep == prev.value.currentStep
    ensures prev.None? ==> r.draftId == draftId && r.completedSections == Has(0) && r.totalSections == Has(0)
                           && r.currentStep == Has(currentStep)
  {
    var base := if prev.Some? then prev.value
      else ProgressRecord(draftId, Completed, Has(100), Has(currentStep), Has(0), Has(0), now, Has(None));
    base.(
      status := Completed,
      percent := Has(100),
      currentStep := if currentStep.Some? then Has(currentStep) else base.currentStep,
      updatedAt := now,
      error := Has(None))
  }

  /** The record `fail` writes (progress_store.py:100-106): only status,
      error and timestamp change. */
  function FailRecord(prev: Option<ProgressRecord>, draftId: string, error: string, now: int): (r: ProgressRecord)
    ensures r.status == Failed && r.error == Has(Some(error)) && r.updatedAt == now
    ensures prev.Some? ==> r.draftId == prev.value.draftId && r.percent == prev.value.percent
                           && r.currentStep == prev.value.currentStep
                           && r.completedSections == prev.value.completedSections
                           && r.totalSections == prev.value.totalSections
    ensures prev.None? ==> r.draftId == draftId && r.percent.Absent? && r.currentStep.Absent?
                           && r.completedSections.Absent? && r.totalSections.Absent?
  {
    var base := if prev.Some? then prev.value
      else ProgressRecord(draftId, Failed, Absent, Absent, Absent, Absent, now, Absent);
    base.(status := Failed, error := Has(Some(error)), updatedAt := now)
  }

  /** The invariant every record of the store keeps: it is filed under its
      own draft id, a running draft shows at most 95%, and a completed one
      shows exactly 100%. */
  predicate RecordValid(id: string, r: ProgressRecord) {
    && r.draftId == id
    && (r.status == Running ==> r.percent.Has? && 0 <= r.percent.value <= RunningCap)
    && (r.status == Completed ==> r.percent == Has(100))
  }

  /** The module-level `_PROGRESS` map. */
  class ProgressStore {
    var records: map<string, ProgressRecord>

    ghost predicate Valid()
      reads this
    {
      forall id :: id in records ==> RecordValid(id, records[id])
    }

    function Lookup(draftId: string): (r: Option<ProgressRecord>)
      reads this
      ensures r.Some? <==> draftId in records
    {
      if draftId in records then Some(records[draftId]) else None
    }

    constructor()
      ensures records == map[] && Valid()
    {
      records := map[];
    }

    /** `init_progress`: overwrites any earlier record. */
    method Init(draftId: string, totalSections: int, currentStep: Option<string>, now: int)
      requires Valid()
      modifies this
      ensures Valid()
      ensures records == old(records)[draftId := InitRecord(draftId, totalSections, currentStep, now)]
    {
      records := records[draftId := InitRecord(draftId, totalSections, currentStep, now)];
    }

    /** `update_progress`: creates a default record for an unknown draft. */
    method Update(draftId: string, completedSections: int, totalSections: Option<int>, currentStep: Option<string>, now: int)
      requires Valid()
      modifies this
      ensures Valid()
      ensures records == old(records)[draftId :=
                UpdateRecord(old(Lookup(draftId)), draftId, completedSections, totalSections, currentStep, now)]
    {
      var prev := Lookup(draftId);
      records := records[draftId := UpdateRecord(prev, draftId, completedSections, totalSections, currentStep, now)];
    }

    /** `complete_progress`: also works for an unknown draft. */
    method Complete(draftId: string, currentStep: Option<string>, now: int)
      requires Valid()
      modifies this
      ensures Valid()
      ensures records == old(records)[draftId := CompleteRecord(old(Lookup(draftId)), draftId, currentStep, now)]
    {
      var prev := Lookup(draftId);
      records := records[draftId := CompleteRecord(prev, draftId, currentStep, now)];
    }

    /** `fail_progress`. */
    method Fail(draftId: string, error: string, now: int)
      requires Valid()
      modifies this
      ensures Valid()
      ensures records == old(records)[draftId := FailRecord(old(Lookup(draftId)), draftId, error, now)]
    {
      var prev := Lookup(draftId);
      records := records[draftId := FailRecord(prev, draftId, error, now)];
    }

    /** `get_progress`: None for an unknown draft, otherwise the record.
        Records are values, so the caller holds a copy. */
    method Get(draftId: string) returns (r: Option<ProgressRecord>)
      requires Valid()
      ensures r.None? <==> draftId !in records
      ensures r.Some? ==> r.value == records[draftId] && RecordValid(draftId, r.value)
    {
      r := Lookup(draftId);
    }
  }
}
