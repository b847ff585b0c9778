// Validation of a history response (inspect_history in scripts/winery-history.py).

module WineryQuality {
  type Time = int   // whole seconds, UTC

  // The four archive entities, by the tail of their Home Assistant ids, or any other id.
  datatype Entity = TotalWaterLitres | FlowRate | GenerationPower | ImportExportPower | Other(id: string)

  const ENTITIES: seq<Entity> := [TotalWaterLitres, FlowRate, GenerationPower, ImportExportPower]

  predicate IsEntity(e: Entity) { !e.Other? }

  datatype Field<T> = Missing | Given(value: T)

  // A point of a series. A state that is not a string and a timestamp without a zone are Missing.
  datatype Point = Point(entity: Field<Entity>, state: Field<string>, updated: Field<Time>)

  type History = seq<seq<Point>>

  datatype Quality = Quality(records: map<Entity, nat>, unavailable: map<Entity, nat>)

  datatype Inspection = Sound(quality: Quality) | Rejected

  predicate IsUnavailable(p: Point) { p.state == Given("unknown") || p.state == Given("unavailable") }

  function CountUnavailable(series: seq<Point>): nat {
    if series == [] then 0
    else CountUnavailable(series[..|series| - 1]) + if IsUnavailable(series[|series| - 1]) then 1 else 0
  }

  // A non-empty run of well-formed points of one entity, in time order.
  predicate ValidSeries(series: seq<Point>, entity: Entity) {
    && series != []
    && (forall i | 0 <= i < |series| ::
          series[i].entity == Given(entity) && series[i].state.Given? && series[i].updated.Given?)
    && (forall i, j | 0 <= i < j < |series| :: series[i].updated.value <= series[j].updated.value)
  }

  // A valid series of whichever archive entity its first point names.
  predicate ValidForSome(series: seq<Point>) {
    series != [] && series[0].entity.Given? && IsEntity(series[0].entity.value)
    && ValidSeries(series, series[0].entity.value)
  }

  // One valid series for each archive entity, and nothing else.
  ghost predicate ValidHistory(history: History) {
    && (forall i | 0 <= i < |history| :: ValidForSome(history[i]))
    && (forall i, j | 0 <= i < j < |history| && history[i] != [] && history[j] != [] ::
          history[i][0].entity != history[j][0].entity)
    && (forall e | IsEntity(e) :: exists i :: 0 <= i < |history| && ValidSeries(history[i], e))
  }

  // Valid histories exist.
  lemma {:induction false} OnePointEach() returns (h: History)
    ensures ValidHistory(h)
  {
    h := seq(4, i requires 0 <= i < 4 => [Point(Given(ENTITIES[i]), Given("0"), Given(0))]);
    forall e | IsEntity(e) ensures exists i :: 0 <= i < |h| && ValidSeries(h[i], e) {
      var i := if e.TotalWaterLitres? then 0 else if e.FlowRate? then 1 else if e.GenerationPower? then 2 else 3;
      assert ValidSeries(h[i], e);
    }
  }

  method InspectSeries(series: seq<Point>, entity: Entity) returns (ok: bool)
    requires series != []
    ensures ok <==> ValidSeries(series, entity)
  {
    for i := 0 to |series|
      invariant forall k | 0 <= k < i ::
                  series[k].entity == Given(entity) && series[k].state.Given? && series[k].updated.Given?
      invariant forall j, k | 0 <= j < k < i :: series[j].updated.value <= series[k].updated.value
    {
      var p := series[i];
      if p.entity != Given(entity) || !p.state.Given? || !p.updated.Given? {
        return false;
      }
      if i > 0 && p.updated.value < series[i - 1].updated.value {
        return false;
      }
    }
    return true;
  }

  method Unavailable(series: seq<Point>) returns (n: nat)
    ensures n == CountUnavailable(series)
  {
    n := 0;
    for i := 0 to |series|
      invariant n == CountUnavailable(series[..i])
    {
      assert series[..i + 1][..i] == series[..i];
      if IsUnavailable(series[i]) { n := n + 1; }
    }
    assert series[..|series|] == series;
  }

  ghost predicate Counted(series: seq<Point>, q: Quality)
    requires ValidForSome(series)
  {
    var e := series[0].entity.value;
    && e in q.records && q.records[e] == |series|
    && e in q.unavailable && q.unavailable[e] == CountUnavailable(series)
  }

  // The series read so far are valid, distinct, and make up the counts.
  ghost predicate Read(history: History, k: nat, q: Quality) {
    && k <= |history|
    && (forall i | 0 <= i < k :: ValidForSome(history[i]) && Counted(history[i], q))
    && (forall i, j | 0 <= i < j < k :: history[i][0].entity != history[j][0].entity)
    && q.unavailable.Keys == q.records.Keys
    && (forall e | e in q.records :: Named(history, k, e))
  }

  ghost predicate Named(history: History, k: nat, e: Entity)
    requires k <= |history|
  {
    k > 0 && ((history[k - 1] != [] && history[k - 1][0].entity == Given(e)) || Named(history, k - 1, e))
  }

  lemma {:induction false} FindNamed(history: History, k: nat, e: Entity) returns (i: nat)
    requires k <= |history| && Named(history, k, e)
    ensures i < k && history[i] != [] && history[i][0].entity == Given(e)
  {
    if history[k - 1] != [] && history[k - 1][0].entity == Given(e) {
      return k - 1;
    }
    i := FindNamed(history, k - 1, e);
  }

  lemma {:induction false} RepeatedEntity(history: History, k: nat, q: Quality)
    requires k < |history| && Read(history, k, q)
    requires history[k] != [] && history[k][0].entity.Given? && history[k][0].entity.value in q.records
    ensures !ValidHistory(history)
  {
    var i := FindNamed(history, k, history[k][0].entity.value);
    assert history[i][0].entity == history[k][0].entity;
  }

  lemma {:induction false} FindSeries(history: History, q: Quality, e: Entity) returns (i: nat)
    requires Read(history, |history|, q) && e in q.records
    ensures i < |history| && IsEntity(e) && ValidSeries(history[i], e)
  {
    i := FindNamed(history, |history|, e);
    assert ValidForSome(history[i]);
  }

  lemma {:induction false} ReadAll(history: History, q: Quality)
    requires Read(history, |history|, q) && forall e | IsEntity(e) :: e in q.records
    ensures ValidHistory(history)
  {
    forall e | IsEntity(e) ensures exists i :: 0 <= i < |history| && ValidSeries(history[i], e) {
      var i := FindSeries(history, q, e);
    }
  }

  lemma {:induction false} ReadNext(history: History, k: nat, q: Quality, e: Entity, next: Quality)
    requires k < |history| && Read(history, k, q) && IsEntity(e) && e !in q.records
    requires ValidSeries(history[k], e)
    requires next == Quality(q.records[e := |history[k]|], q.unavailable[e := CountUnavailable(history[k])])
    ensures Read(history, k + 1, next)
  {
  }

  // Accepts exactly the valid histories, and then counts the records and the unavailable
  // records of every entity.
  method InspectHistory(history: History) returns (r: Inspection)
    ensures r.Sound? <==> ValidHistory(history)
    ensures r.Sound? ==> Read(history, |history|, r.quality)
    ensures r.Sound? ==> forall e :: e in r.quality.records <==> IsEntity(e)
  {
    var q := Quality(map[], map[]);
    for k := 0 to |history|
      invariant Read(history, k, q)
    {
      var series := history[k];
      if series == [] || !series[0].entity.Given? || !IsEntity(series[0].entity.value) {
        return Rejected;
      }
      var entity := series[0].entity.value;
      if entity in q.records {
        RepeatedEntity(history, k, q);
        return Rejected;
      }
      var ok := InspectSeries(series, entity);
      if !ok {
        return Rejected;
      }
      var n := Unavailable(series);
      var next := Quality(q.records[entity := |series|], q.unavailable[entity := n]);
      ReadNext(history, k, q, entity, next);
      q := next;
    }
    for i := 0 to |ENTITIES|
      invariant forall j | 0 <= j < i :: ENTITIES[j] in q.records
    {
      assert IsEntity(ENTITIES[i]);
      if ENTITIES[i] !in q.records {
        return Rejected;
      }
    }
    forall e | IsEntity(e) ensures e in q.records {
      assert ENTITIES[0] == TotalWaterLitres && ENTITIES[1] == FlowRate && ENTITIES[2] == GenerationPower
             && ENTITIES[3] == ImportExportPower;
    }
    ReadAll(history, q);
    forall e | e in q.records ensures IsEntity(e) {
      var i := FindSeries(history, q, e);
    }
    r := Sound(q);
  }
}
