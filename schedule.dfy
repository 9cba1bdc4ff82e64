/** The `work_shifts` table: the date-range query and the staff-only
    handlers that create, update and delete shifts. Dates are day numbers. */
module Schedule {
  import opened Common
  import opened Policy

  /** A `work_shifts` row. */
  datatype Shift = Shift(userId: Id, shiftDate: int, startTime: Val, endTime: Val, hours: Val, notes: Val, createdBy: Id)

  /** The shift falls in `[startDate, endDate]`, both ends included. */
  predicate InRange(s: Shift, startDate: int, endDate: int) {
    startDate <= s.shiftDate <= endDate
  }

  /** The times, hours and notes (`notes || null`) can all be bound. */
  predicate ShiftValuesBind(startTime: Val, endTime: Val, hours: Val, notes: Val) {
    Bindable(startTime) && Bindable(endTime) && Bindable(hours) && Bindable(OrNull(notes))
  }

  class ShiftTable {
    var shifts: map<Id, Shift>
    var nextShiftId: Id

    /** The serial counter is ahead of every stored shift id. */
    ghost predicate Valid()
      reads this
    {
      forall id :: id in shifts ==> id < nextShiftId
    }

    constructor ()
      ensures Valid() && shifts == map[] && nextShiftId == 1
    {
      shifts := map[];
      nextShiftId := 1;
    }

    /** `getSchedule`: both dates are required; the answer holds exactly the
        shifts dated between them, both ends included. A date that is
        missing or empty is `None`. */
    method GetSchedule(startDate: Option<int>, endDate: Option<int>) returns (status: Status, found: set<Id>)
      ensures status == BadRequest <==> startDate.None? || endDate.None?
      ensures status != BadRequest ==> status == Ok
      ensures status == BadRequest ==> found == {}
      ensures status == Ok ==>
                forall id :: id in found <==> id in shifts && InRange(shifts[id], startDate.value, endDate.value)
    {
      if startDate.None? || endDate.None? {
        return BadRequest, {};
      }
      found := set id | id in shifts && startDate.value <= shifts[id].shiftDate <= endDate.value;
      status := Ok;
    }

    /** `createShift`: staff only (admin excluded); user, date, start, end
        and hours are required; the creator of the row is the caller's `id`,
        else its `userId`, and a caller with neither, or a time, hours or
        notes value Sequelize cannot bind, fails the insert.
        Here `None` for the user or the date stands for any falsy value
        (absent, null, 0, empty), which the `!field` check refuses. */
    method CreateShift(actor: Option<Actor>, userId: Option<Id>, shiftDate: Option<int>, startTime: Val, endTime: Val,
                       hours: Val, notes: Val)
      returns (status: Status, created: Option<Shift>)
      requires Valid()
      modifies this
      ensures Valid()
      ensures !IsStaff(actor) ==> status == Forbidden
      ensures status == BadRequest <==>
                IsStaff(actor) &&
                (userId.None? || shiftDate.None? || !Truthy(startTime) || !Truthy(endTime) || !Truthy(hours))
      ensures status == Created <==>
                IsStaff(actor) &&
                userId.Some? && shiftDate.Some? && Truthy(startTime) && Truthy(endTime) && Truthy(hours) &&
                ActorKey(actor.value).Some? && ShiftValuesBind(startTime, endTime, hours, notes)
      ensures status == ServerError <==>
                IsStaff(actor) &&
                userId.Some? && shiftDate.Some? && Truthy(startTime) && Truthy(endTime) && Truthy(hours) &&
                (ActorKey(actor.value).None? || !ShiftValuesBind(startTime, endTime, hours, notes))
      ensures status != Created ==> shifts == old(shifts) && nextShiftId == old(nextShiftId) && created.None?
      ensures status == Created ==>
                var row := Shift(userId.value, shiftDate.value, Bound(startTime), Bound(endTime), Bound(hours),
                                 Bound(OrNull(notes)), ActorKey(actor.value).value);
                shifts == old(shifts)[old(nextShiftId) := row] && nextShiftId == old(nextShiftId) + 1 &&
                created == Some(row)
    {
      if !IsStaff(actor) {
        return Forbidden, None;
      }
      if userId.None? || shiftDate.None? || !Truthy(startTime) || !Truthy(endTime) || !Truthy(hours) {
        return BadRequest, None;
      }
      var createdBy := ActorKey(actor.value);
      if createdBy.None? || !ShiftValuesBind(startTime, endTime, hours, notes) {
        return ServerError, None;
      }
      var row := Shift(userId.value, shiftDate.value, Bound(startTime), Bound(endTime), Bound(hours),
                       Bound(OrNull(notes)), createdBy.value);
      shifts := shifts[nextShiftId := row];
      nextShiftId := nextShiftId + 1;
      status, created := Created, Some(row);
    }

    /** `updateShift`: staff only; every column is rewritten from the body
        (an absent field, or one Sequelize cannot bind, fails the statement
        before any row is looked at); an unknown id is 404. The
        row's creator is kept. Here `None` for the user or the date stands
        for an absent key only: nothing is checked before the statement, and
        a JSON null in those two fields is not represented. */
    method UpdateShift(actor: Option<Actor>, id: Id, userId: Option<Id>, shiftDate: Option<int>, startTime: Val,
                       endTime: Val, hours: Val, notes: Val)
      returns (status: Status, updated: Option<Shift>)
      requires Valid()
      modifies this
      ensures Valid() && nextShiftId == old(nextShiftId)
      ensures !IsStaff(actor) ==> status == Forbidden
      ensures status == ServerError <==>
                IsStaff(actor) &&
                (userId.None? || shiftDate.None? || !ShiftValuesBind(startTime, endTime, hours, notes))
      ensures status == NotFound <==>
                IsStaff(actor) && userId.Some? && shiftDate.Some? && ShiftValuesBind(startTime, endTime, hours, notes) &&
                id !in old(shifts)
      ensures status == Ok <==>
                IsStaff(actor) && userId.Some? && shiftDate.Some? && ShiftValuesBind(startTime, endTime, hours, notes) &&
                id in old(shifts)
      ensures status != Ok ==> shifts == old(shifts) && updated.None?
      ensures status == Ok ==>
                var row := Shift(userId.value, shiftDate.value, Bound(startTime), Bound(endTime), Bound(hours),
                                 Bound(OrNull(notes)), old(shifts)[id].createdBy);
                shifts == old(shifts)[id := row] && updated == Some(row)
    {
      if !IsStaff(actor) {
        return Forbidden, None;
      }
      if userId.None? || shiftDate.None? || !ShiftValuesBind(startTime, endTime, hours, notes) {
        return ServerError, None;
      }
      if id !in shifts {
        return NotFound, None;
      }
      var row := Shift(userId.value, shiftDate.value, Bound(startTime), Bound(endTime), Bound(hours),
                       Bound(OrNull(notes)), shifts[id].createdBy);
      shifts := shifts[id := row];
      status, updated := Ok, Some(row);
    }

    /** `deleteShift`: staff only; succeeds whether or not the id exists. */
    method DeleteShift(actor: Option<Actor>, id: Id) returns (status: Status)
      requires Valid()
      modifies this
      ensures Valid() && nextShiftId == old(nextShiftId)
      ensures status == Ok <==> IsStaff(actor)
      ensures status != Ok ==> status == Forbidden && shifts == old(shifts)
      ensures status == Ok ==> shifts == old(shifts) - {id} && id !in shifts
    {
      if !IsStaff(actor) {
        return Forbidden;
      }
      shifts := shifts - {id};
      status := Ok;
    }
  }

  /** A shift that was just created shows up in every schedule query whose
      range covers its date, and in no other. */
  method CreatedShiftIsScheduled(table: ShiftTable, actor: Option<Actor>, userId: Id, shiftDate: int,
                                 startDate: int, endDate: int)
    returns (id: Id, visible: bool)
    requires table.Valid() && IsStaff(actor) && ActorKey(actor.value).Some?
    modifies table
    ensures visible <==> startDate <= shiftDate <= endDate
  {
    id := table.nextShiftId;
    var status, created := table.CreateShift(actor, Some(userId), Some(shiftDate), Str("09:00"), Str("17:00"), Num(8), Undefined);
    var queried, found := table.GetSchedule(Some(startDate), Some(endDate));
    visible := id in found;
  }
}
