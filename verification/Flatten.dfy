/** Flattening a decoded trip-update feed into one row per stop time update. */
module Flatten {
  import opened Prelude

  // ---- the decoded feed; unset optional fields are None ----

  datatype StopEvent = StopEvent(delay: Option<int>, time: Option<int>, uncertainty: Option<int>)

  datatype StopProperties = StopProperties(assignedStopId: Option<string>)

  datatype StopTimeUpdate = StopTimeUpdate(stopSequence: Option<nat>, stopId: Option<string>,
                                           scheduleRelationship: Option<int>, arrival: Option<StopEvent>,
                                           departure: Option<StopEvent>, properties: Option<StopProperties>)

  datatype Trip = Trip(tripId: Option<string>, routeId: Option<string>, directionId: Option<nat>,
                       startTime: Option<string>, startDate: Option<string>, scheduleRelationship: Option<int>)

  datatype Vehicle = Vehicle(id: Option<string>, name: Option<string>, licensePlate: Option<string>)

  datatype TripProperties = TripProperties(tripId: Option<string>, startDate: Option<string>, startTime: Option<string>)

  datatype TripUpdate = TripUpdate(trip: Option<Trip>, vehicle: Option<Vehicle>, timestamp: Option<nat>,
                                   delay: Option<int>, properties: Option<TripProperties>, stops: seq<StopTimeUpdate>)

  datatype Entity = Entity(id: string, isDeleted: bool, tripUpdate: Option<TripUpdate>)

  datatype Header = Header(version: string, timestamp: Option<nat>, incrementality: Option<int>)

  datatype Message = Message(header: Option<Header>, entities: seq<Entity>)

  // ---- the flattened row ----

  datatype Provenance = Provenance(sourceFile: string, feedUrl: string, fetchTimestamp: int, scheduledAt: int,
                                   sourceId: string, streamId: string, captureId: string, archiveDate: string,
                                   archiveTimezone: string, parseStatus: string, validationFlags: seq<string>)

  /** The columns every row of one entity shares. */
  datatype EntityColumns = EntityColumns(provenance: Provenance, feedTimestamp: Option<nat>, feedVersion: string,
                                         incrementality: Option<int>, entityId: string, isDeleted: bool,
                                         tripId: string, routeId: string, directionId: Option<nat>, startTime: string,
                                         startDate: string, scheduleRelationship: int, vehicleId: string,
                                         vehicleLabel: string, licensePlate: Option<string>, tripTimestamp: Option<nat>,
                                         tripDelay: Option<int>, propertiesTripId: Option<string>,
                                         propertiesStartDate: Option<string>, propertiesStartTime: Option<string>)

  /** The columns one stop time update fills. */
  datatype StopColumns = StopColumns(stopSequence: Option<nat>, stopId: Option<string>,
    scheduleRelationship: Option<int>,
                                     arrivalDelay: Option<int>, arrivalTime: Option<int>,
                                       arrivalUncertainty: Option<int>,
                                     departureDelay: Option<int>, departureTime: Option<int>,
                                     departureUncertainty: Option<int>, assignedStopId: Option<string>)

  datatype Row = Row(entity: EntityColumns, stop: StopColumns)

  const UNSET: StopColumns := StopColumns(None, None, None, None, None, None, None, None, None, None)

  function EventColumns(e: Option<StopEvent>): (Option<int>, Option<int>, Option<int>) {
    if e.Some? then (e.value.delay, e.value.time, e.value.uncertainty) else (None, None, None)
  }

  function Columns(s: StopTimeUpdate): StopColumns {
    var (ad, at, au) := EventColumns(s.arrival);
    var (dd, dt, du) := EventColumns(s.departure);
    StopColumns(s.stopSequence, s.stopId, s.scheduleRelationship, ad, at, au, dd, dt, du,
                if s.properties.Some? then s.properties.value.assignedStopId else None)
  }

  function Shared(header: Option<Header>, prov: Provenance, e: Entity, tu: TripUpdate): EntityColumns {
    var trip := GetOr(tu.trip, Trip(None, None, None, None, None, None));
    var vehicle := GetOr(tu.vehicle, Vehicle(None, None, None));
    var properties := GetOr(tu.properties, TripProperties(None, None, None));
    EntityColumns(prov,
                  if header.Some? then header.value.timestamp else None,
                  if header.Some? then header.value.version else "",
                  if header.Some? then header.value.incrementality else None,
                  e.id, e.isDeleted, GetOr(trip.tripId, ""), GetOr(trip.routeId, ""), trip.directionId,
                  GetOr(trip.startTime, ""), GetOr(trip.startDate, ""), GetOr(trip.scheduleRelationship, 0),
                  GetOr(vehicle.id, ""), GetOr(vehicle.name, ""), vehicle.licensePlate, tu.timestamp, tu.delay,
                  properties.tripId, properties.startDate, properties.startTime)
  }

  function StopRows(shared: EntityColumns, stops: seq<StopTimeUpdate>): (rows: seq<Row>)
    ensures |rows| == |stops|
    ensures forall i :: 0 <= i < |stops| ==> rows[i] == Row(shared, Columns(stops[i]))
  {
    seq(|stops|, i requires 0 <= i < |stops| => Row(shared, Columns(stops[i])))
  }

  /** The rows of one entity: none without a trip update, one bare row without stops. */
  function Block(header: Option<Header>, prov: Provenance, e: Entity): seq<Row> {
    if e.tripUpdate.None? then []
    else
      var tu := e.tripUpdate.value;
      var shared := Shared(header, prov, e, tu);
      if |tu.stops| == 0 then [Row(shared, UNSET)] else StopRows(shared, tu.stops)
  }

  function Blocks(header: Option<Header>, prov: Provenance, entities: seq<Entity>): seq<Row> {
    if |entities| == 0 then []
    else Blocks(header, prov, entities[..|entities|-1]) + Block(header, prov, entities[|entities|-1])
  }

  /** All rows of a feed, in entity order. */
  function Flattened(m: Option<Message>, prov: Provenance): seq<Row> {
    if m.None? then [] else Blocks(m.value.header, prov, m.value.entities)
  }

  function StopCount(e: Entity): nat {
    if e.tripUpdate.None? then 0 else |e.tripUpdate.value.stops|
  }

  function StopTotal(entities: seq<Entity>): nat {
    if |entities| == 0 then 0 else StopTotal(entities[..|entities|-1]) + StopCount(entities[|entities|-1])
  }

  predicate BareTrip(e: Entity) {
    e.tripUpdate.Some? && |e.tripUpdate.value.stops| == 0
  }

  function BareTrips(entities: seq<Entity>): nat {
    if |entities| == 0 then 0
    else BareTrips(entities[..|entities|-1]) + (if BareTrip(entities[|entities|-1]) then 1 else 0)
  }

  // ---- the program's loops ----

  /** The row prepared before an entity's stops are looked at. */
  method BaseRow(header: Option<Header>, prov: Provenance, entity: Entity, tu: TripUpdate) returns (base: EntityColumns)
    ensures base == Shared(header, prov, entity, tu)
  {
    var feedVersion, feedTimestamp, incrementality := "", None, None;
    if header.Some? {
      feedVersion, feedTimestamp, incrementality := header.value.version, header.value.timestamp,
        header.value.incrementality;
    }
    base := EntityColumns(prov, feedTimestamp, feedVersion, incrementality, entity.id, entity.isDeleted,
                          "", "", None, "", "", 0, "", "", None, None, None, None, None, None);
    if tu.trip.Some? {
      var td := tu.trip.value;
      base := base.(tripId := GetOr(td.tripId, ""), routeId := GetOr(td.routeId, ""), directionId := td.directionId,
                    startTime := GetOr(td.startTime, ""), startDate := GetOr(td.startDate, ""),
                    scheduleRelationship := GetOr(td.scheduleRelationship, 0));
    }
    if tu.vehicle.Some? {
      var vd := tu.vehicle.value;
      base := base.(vehicleId := GetOr(vd.id, ""), vehicleLabel := GetOr(vd.name, ""), licensePlate := vd.licensePlate);
    }
    base := base.(tripTimestamp := tu.timestamp, tripDelay := tu.delay);
    if tu.properties.Some? {
      var tp := tu.properties.value;
      base := base.(propertiesTripId := tp.tripId, propertiesStartDate := tp.startDate,
        propertiesStartTime := tp.startTime);
    }
  }

  method StopRow(stu: StopTimeUpdate) returns (stop: StopColumns)
    ensures stop == Columns(stu)
  {
    stop := UNSET.(stopSequence := stu.stopSequence, stopId := stu.stopId);
    if stu.scheduleRelationship.Some? {
      stop := stop.(scheduleRelationship := stu.scheduleRelationship);
    }
    if stu.arrival.Some? {
      var event := stu.arrival.value;
      stop := stop.(arrivalDelay := event.delay, arrivalTime := event.time, arrivalUncertainty := event.uncertainty);
    }
    if stu.departure.Some? {
      var event := stu.departure.value;
      stop := stop.(departureDelay := event.delay, departureTime := event.time,
        departureUncertainty := event.uncertainty);
    }
    if stu.properties.Some? {
      stop := stop.(assignedStopId := stu.properties.value.assignedStopId);
    }
  }

  /** The rows appended for one entity that carries a trip update. */
  method ProjectEntity(header: Option<Header>, prov: Provenance, entity: Entity, tu: TripUpdate) returns (out: seq<Row>)
    requires entity.tripUpdate == Some(tu)
    ensures out == Block(header, prov, entity)
  {
    var base := BaseRow(header, prov, entity, tu);
    if |tu.stops| == 0 {
      return [Row(base, UNSET)];
    }
    out := [];
    for j := 0 to |tu.stops|
      invariant out == StopRows(base, tu.stops[..j])
    {
      var stop := StopRow(tu.stops[j]);
      assert StopRows(base, tu.stops[..j+1]) == StopRows(base, tu.stops[..j]) + [Row(base, stop)];
      out := out + [Row(base, stop)];
    }
    assert tu.stops[..|tu.stops|] == tu.stops;
  }

  /** ProjectTripUpdateStops. The RowCarries lemmas below say what `Flattened` is, field by field. */
  method ProjectTripUpdateStops(m: Option<Message>, prov: Provenance) returns (out: seq<Row>)
    ensures out == Flattened(m, prov)
  {
    out := [];
    if m.None? {
      return;
    }
    var entities, header := m.value.entities, m.value.header;
    for k := 0 to |entities|
      invariant out == Blocks(header, prov, entities[..k])
    {
      assert entities[..k+1][..k] == entities[..k];
      if entities[k].tripUpdate.None? {
        continue;
      }
      var rows := ProjectEntity(header, prov, entities[k], entities[k].tripUpdate.value);
      out := out + rows;
    }
    assert entities[..|entities|] == entities;
  }

  /** CountProjectedTripUpdateRows: the number of rows the projection emits, under any provenance. */
  method CountProjectedTripUpdateRows(m: Option<Message>) returns (total: nat)
    ensures forall prov :: total == |Flattened(m, prov)|
  {
    total := 0;
    if m.None? {
      return;
    }
    var entities := m.value.entities;
    for k := 0 to |entities|
      invariant total == StopTotal(entities[..k]) + BareTrips(entities[..k])
    {
      assert entities[..k+1][..k] == entities[..k];
      if entities[k].tripUpdate.None? {
        continue;
      }
      var n := |entities[k].tripUpdate.value.stops|;
      if n > 0 {
        total := total + n;
      } else {
        total := total + 1;
      }
    }
    assert entities[..|entities|] == entities;
    forall prov ensures total == |Flattened(m, prov)| {
      RowCount(m.value.header, prov, entities);
    }
  }

  /** CountStopTimeUpdates. */
  method CountStopTimeUpdates(m: Option<Message>) returns (total: nat)
    ensures total == if m.None? then 0 else StopTotal(m.value.entities)
  {
    total := 0;
    if m.None? {
      return;
    }
    var entities := m.value.entities;
    for k := 0 to |entities|
      invariant total == StopTotal(entities[..k])
    {
      assert entities[..k+1][..k] == entities[..k];
      if entities[k].tripUpdate.Some? {
        total := total + |entities[k].tripUpdate.value.stops|;
      }
    }
    assert entities[..|entities|] == entities;
  }

  // ---- what the rows say ----

  /** One row per stop time update, plus one per trip update that has none. */
  lemma {:induction false} RowCount(header: Option<Header>, prov: Provenance, entities: seq<Entity>)
    ensures |Blocks(header, prov, entities)| == StopTotal(entities) + BareTrips(entities)
  {
    if |entities| > 0 {
      RowCount(header, prov, entities[..|entities|-1]);
    }
  }

  /** Where the rows of entity `k` start. */
  function Offset(entities: seq<Entity>, k: nat): nat
    requires k <= |entities|
  {
    StopTotal(entities[..k]) + BareTrips(entities[..k])
  }

  lemma OffsetStep(entities: seq<Entity>, k: nat, header: Option<Header>, prov: Provenance)
    requires k < |entities|
    ensures Offset(entities, k + 1) == Offset(entities, k) + |Block(header, prov, entities[k])|
  {
    assert entities[..k+1][..k] == entities[..k];
  }

  lemma Slices<T>(a: seq<T>, b: seq<T>)
    ensures (a + b)[|a|..|a| + |b|] == b
    ensures forall i, j :: 0 <= i <= j <= |a| ==> (a + b)[i..j] == a[i..j]
  {
    forall i, j | 0 <= i <= j <= |a| ensures (a + b)[i..j] == a[i..j] {
    }
  }

  /** Offsets inside the first entities do not see the rest. */
  lemma FrontOffset(entities: seq<Entity>, last: nat, k: nat)
    requires k <= last <= |entities|
    ensures Offset(entities[..last], k) == Offset(entities, k)
  {
    assert entities[..last][..k] == entities[..k];
  }

  /** The rows of entity `k` are a contiguous run of max(1, stops) rows, in order, at its offset. */
  lemma {:induction false} BlockInPlace(header: Option<Header>, prov: Provenance, entities: seq<Entity>, k: nat)
    requires k < |entities|
    ensures Offset(entities, k) <= Offset(entities, k + 1) <= |Blocks(header, prov, entities)|
    ensures Blocks(header, prov, entities)[Offset(entities, k)..Offset(entities, k + 1)]
      == Block(header, prov, entities[k])
    decreases |entities|
  {
    var last := |entities| - 1;
    var a, b := Blocks(header, prov, entities[..last]), Block(header, prov, entities[last]);
    assert Blocks(header, prov, entities) == a + b;
    Slices(a, b);
    if k < last {
      BlockInPlace(header, prov, entities[..last], k);
      FrontOffset(entities, last, k);
      FrontOffset(entities, last, k + 1);
    } else {
      OffsetStep(entities, k, header, prov);
      RowCount(header, prov, entities[..last]);
    }
  }

  /** How many rows an entity has: none without a trip update, one without stops, else one for each stop. */
  function RowsOfEntity(e: Entity): nat {
    if e.tripUpdate.None? then 0 else if |e.tripUpdate.value.stops| == 0 then 1 else |e.tripUpdate.value.stops|
  }

  /** The rows of entity `k` are those of its block, from its offset on. */
  lemma RowInBlock(m: Message, prov: Provenance, k: nat, j: nat)
    requires k < |m.entities| && j < RowsOfEntity(m.entities[k])
    ensures Offset(m.entities, k) + j < |Flattened(Some(m), prov)| && m.entities[k].tripUpdate.Some?
    ensures j < |Block(m.header, prov, m.entities[k])|
    ensures Flattened(Some(m), prov)[Offset(m.entities, k) + j] == Block(m.header, prov, m.entities[k])[j]
  {
    BlockInPlace(m.header, prov, m.entities, k);
    OffsetStep(m.entities, k, m.header, prov);
    var rows, o := Flattened(Some(m), prov), Offset(m.entities, k);
    assert rows[o..Offset(m.entities, k + 1)][j] == rows[o + j];
  }

  /** The rows are those of the entities in order, and no others. */
  lemma RowsInOrder(m: Message, prov: Provenance, k: nat)
    requires k < |m.entities|
    ensures Offset(m.entities, 0) == 0
    ensures Offset(m.entities, k + 1) == Offset(m.entities, k) + RowsOfEntity(m.entities[k])
    ensures Offset(m.entities, |m.entities|) == |Flattened(Some(m), prov)|
  {
    OffsetStep(m.entities, k, m.header, prov);
    RowCount(m.header, prov, m.entities);
    assert m.entities[..|m.entities|] == m.entities;
  }

  /** Each row carries the feed header, its entity and the outer fields of its trip update. */
  lemma RowCarriesEntity(m: Message, prov: Provenance, k: nat, j: nat)
    requires k < |m.entities| && j < RowsOfEntity(m.entities[k])
    ensures var i, e, header := Offset(m.entities, k) + j, m.entities[k], m.header;
      && i < |Flattened(Some(m), prov)| && e.tripUpdate.Some?
      && var row, tu := Flattened(Some(m), prov)[i].entity, e.tripUpdate.value;
         && row.provenance == prov && row.entityId == e.id && row.isDeleted == e.isDeleted
         && row.feedVersion == (if header.Some? then header.value.version else "")
         && row.feedTimestamp == (if header.Some? then header.value.timestamp else None)
         && row.incrementality == (if header.Some? then header.value.incrementality else None)
         && row.tripTimestamp == tu.timestamp && row.tripDelay == tu.delay
  {
    RowInBlock(m, prov, k, j);
  }

  /** And each field of its trip, a string that is not set as the empty string and a relationship as 0. */
  lemma RowCarriesTrip(m: Message, prov: Provenance, k: nat, j: nat)
    requires k < |m.entities| && j < RowsOfEntity(m.entities[k])
    ensures var i, e := Offset(m.entities, k) + j, m.entities[k];
      && i < |Flattened(Some(m), prov)| && e.tripUpdate.Some?
      && var row, trip := Flattened(Some(m), prov)[i].entity, e.tripUpdate.value.trip;
         if trip.None? then
           && row.tripId == row.routeId == row.startTime == row.startDate == "" && row.directionId == None
           && row.scheduleRelationship == 0
         else
           && row.tripId == (if trip.value.tripId.Some? then trip.value.tripId.value else "")
           && row.routeId == (if trip.value.routeId.Some? then trip.value.routeId.value else "")
           && row.startTime == (if trip.value.startTime.Some? then trip.value.startTime.value else "")
           && row.startDate == (if trip.value.startDate.Some? then trip.value.startDate.value else "")
           && row.directionId == trip.value.directionId && row.scheduleRelationship
             == (if trip.value.scheduleRelationship.Some? then trip.value.scheduleRelationship.value else 0)
  {
    RowInBlock(m, prov, k, j);
  }

  /** And each field of its vehicle and of its trip properties. */
  lemma RowCarriesVehicle(m: Message, prov: Provenance, k: nat, j: nat)
    requires k < |m.entities| && j < RowsOfEntity(m.entities[k])
    ensures var i, e := Offset(m.entities, k) + j, m.entities[k];
      && i < |Flattened(Some(m), prov)| && e.tripUpdate.Some?
      && var row, vehicle, properties :=
           Flattened(Some(m), prov)[i].entity, e.tripUpdate.value.vehicle, e.tripUpdate.value.properties;
         && (if vehicle.None? then row.vehicleId == row.vehicleLabel == "" && row.licensePlate == None
             else
               && row.vehicleId == (if vehicle.value.id.Some? then vehicle.value.id.value else "")
               && row.vehicleLabel == (if vehicle.value.name.Some? then vehicle.value.name.value else "")
               && row.licensePlate == vehicle.value.licensePlate)
         && (if properties.None? then
               row.propertiesTripId == row.propertiesStartDate == row.propertiesStartTime == None
             else
               && row.propertiesTripId == properties.value.tripId
               && row.propertiesStartDate == properties.value.startDate
               && row.propertiesStartTime == properties.value.startTime)
  {
    RowInBlock(m, prov, k, j);
  }

  /** Row `j` of an entity carries each field of its stop `j`; where there is no stop all of them are unset. */
  lemma RowCarriesStop(m: Message, prov: Provenance, k: nat, j: nat)
    requires k < |m.entities| && j < RowsOfEntity(m.entities[k])
    ensures var i, e := Offset(m.entities, k) + j, m.entities[k];
      && i < |Flattened(Some(m), prov)| && e.tripUpdate.Some?
      && var row, stops := Flattened(Some(m), prov)[i].stop, e.tripUpdate.value.stops;
         if |stops| == 0 then row == StopColumns(None, None, None, None, None, None, None, None, None, None)
         else
           && var stop := stops[j];
           && row.stopSequence == stop.stopSequence && row.stopId == stop.stopId
           && row.scheduleRelationship == stop.scheduleRelationship
           && row.arrivalDelay == (if stop.arrival.Some? then stop.arrival.value.delay else None)
           && row.arrivalTime == (if stop.arrival.Some? then stop.arrival.value.time else None)
           && row.arrivalUncertainty == (if stop.arrival.Some? then stop.arrival.value.uncertainty else None)
           && row.departureDelay == (if stop.departure.Some? then stop.departure.value.delay else None)
           && row.departureTime == (if stop.departure.Some? then stop.departure.value.time else None)
           && row.departureUncertainty == (if stop.departure.Some? then stop.departure.value.uncertainty else None)
           && row.assignedStopId == (if stop.properties.Some? then stop.properties.value.assignedStopId else None)
  {
    RowInBlock(m, prov, k, j);
  }

  /** The stop-level values of an entity's rows, read back. */
  function Recovered(block: seq<Row>): seq<StopColumns> {
    if |block| == 1 && block[0].stop == UNSET then []
    else seq(|block|, i requires 0 <= i < |block| => block[i].stop)
  }

  function AllColumns(stops: seq<StopTimeUpdate>): seq<StopColumns> {
    seq(|stops|, i requires 0 <= i < |stops| => Columns(stops[i]))
  }

  /** The stop-level values are recovered exactly, except that a single update with nothing set reads
      back as no update. */
  lemma RecoversStops(header: Option<Header>, prov: Provenance, e: Entity)
    requires e.tripUpdate.Some?
    ensures var stops := e.tripUpdate.value.stops;
      Recovered(Block(header, prov, e)) == AllColumns(stops) <==> !(|stops| == 1 && Columns(stops[0]) == UNSET)
  {
    var stops := e.tripUpdate.value.stops;
    var block, all := Block(header, prov, e), AllColumns(stops);
    if !(|stops| == 1 && Columns(stops[0]) == UNSET) {
      assert |Recovered(block)| == |all|;
      assert forall i :: 0 <= i < |all| ==> Recovered(block)[i] == all[i];
      assert Recovered(block) == all;
    } else {
      assert |Recovered(block)| == 0 && |all| == 1;
    }
  }

  /** Two entities give the same rows exactly when their shared columns agree and their stop columns do,
      reading one all-unset update as none. */
  lemma SameBlock(header: Option<Header>, prov: Provenance, e: Entity, f: Entity)
    requires e.tripUpdate.Some? && f.tripUpdate.Some?
    ensures Block(header, prov, e) == Block(header, prov, f) <==>
      && Shared(header, prov, e, e.tripUpdate.value) == Shared(header, prov, f, f.tripUpdate.value)
      && Recovered(Block(header, prov, e)) == Recovered(Block(header, prov, f))
  {
    var a, b := Block(header, prov, e), Block(header, prov, f);
    assert a[0].entity == Shared(header, prov, e, e.tripUpdate.value);
    assert b[0].entity == Shared(header, prov, f, f.tripUpdate.value);
    if Shared(header, prov, e, e.tripUpdate.value) == Shared(header, prov, f, f.tripUpdate.value)
      && Recovered(a) == Recovered(b) {
      var r := Recovered(a);
      assert |a| == |b|;
      forall i | 0 <= i < |a| ensures a[i] == b[i] {
        if |r| > 0 {
          assert r[i] == a[i].stop && Recovered(b)[i] == b[i].stop;
        }
      }
    }
  }
}
