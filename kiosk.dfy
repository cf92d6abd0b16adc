/**
 * The embark/disembark kiosk action (src/app/login/actions.ts, EmbarkAction, lines 257-447):
 * validate the form, look the staff member up by code, then either answer without touching
 * the store or perform exactly one transition.
 *
 * Each store call is modelled with the checked result-or-error contract that actions.ts
 * relies on (`result.error` / `result.data`), and each update as the intended atomic write.
 * NOTE: the wrappers in src/lib/data-access.ts do not keep that contract. findUnique and
 * findMany (lines 51-90) return the bare record or array and rethrow on failure; update
 * (lines 100-122) takes its `where` from a third argument that actions.ts never passes.
 * LookupAsWritten below models the lookup as written.
 */
module Kiosk {
  import opened Wrappers
  import opened KioskForm
  import opened ScheduleStore

  const StaffNotFound := "Staff not found."
  const ShipRequired := "Ship selection is required to embark."
  const AlreadyEmbarked := "Staff is already embarked."
  const AlreadyDisembarked := "Staff is already disembarked."
  const NoActiveSchedule := "No active schedule found. Staff may already be disembarked or data is inconsistent."
  const InternalError := "Could not update staff due to an internal database error."
  const ThankYou := "Thank you!"

  /** The store calls the action makes; a run names the ones that fail with a storage error. */
  datatype StoreCall = FindStaff | FindOpenSchedule | UpdateStaff

  /** What the kiosk shows about a staff member: full name, ship name (or ""), code, status. */
  datatype StaffView = StaffView(name: string, ship: string, code: string, status: bool)

  /** The action's answer: an optional error, an optional success message, an optional staff view. */
  datatype ActionState = ActionState(error: Option<string>, success: Option<string>, staff: Option<StaffView>)

  /** What a transition helper hands back: the updated record, null (a storage error) or an error object. */
  datatype OpResult = OpDone(updated: Staff) | OpFailed | OpError(message: string)

  /** The outcome of the early-return chain once the staff member is known. */
  datatype Step = Reply(state: ActionState) | DoEmbark(ship: ShipId) | DoDisembark

  /** getCurrentStaffUIState: the view of a record for the code the user typed. */
  function CurrentView(s: Staff, ships: map<ShipId, string>, code: string): (v: StaffView)
    ensures v.name == s.firstName + " " + s.lastName
    ensures v.status == s.status && v.code == code
    ensures s.shipId.Some? && s.shipId.value in ships ==> v.ship == ships[s.shipId.value]
    ensures s.shipId.None? ==> v.ship == ""
  {
    StaffView(s.firstName + " " + s.lastName,
              if s.shipId.Some? && s.shipId.value in ships then ships[s.shipId.value] else "",
              code, s.status)
  }

  /** findUnique on staff by code, as a checked call: a storage error, no record, or the record. */
  function Lookup(db: Db, code: string, failing: set<StoreCall>): (r: Result<Option<Staff>, StoreCall>)
    ensures r.Err? <==> FindStaff in failing
    ensures r.Ok? ==> (r.value.Some? <==> code in db.staff)
    ensures r.Ok? && r.value.Some? ==> r.value.value == db.staff[code]
  {
    if FindStaff in failing then Err(FindStaff)
    else if code in db.staff then Ok(Some(db.staff[code]))
    else Ok(None)
  }

  /** The early returns of lines 391-423 for a staff member whose embarked flag is `embarked`. */
  function Decide(req: Request, embarked: bool, view: StaffView): (r: Step)
    ensures r.Reply? ==> r.state.success.None? && r.state.staff == Some(view)
    ensures req.desired.None? ==> r == Reply(ActionState(None, None, Some(view)))
    ensures req.desired == Some(true) && req.ship.None? ==> r == Reply(ActionState(Some(ShipRequired), None, Some(view)))
    ensures r.DoEmbark? <==> req.desired == Some(true) && req.ship.Some? && !embarked
    ensures r.DoEmbark? ==> r.ship == req.ship.value
    ensures r.DoDisembark? <==> req.desired == Some(false) && embarked
    ensures r.Reply? && r.state.error == Some(AlreadyEmbarked) <==> req.desired == Some(true) && req.ship.Some? && embarked
    ensures r.Reply? && r.state.error == Some(AlreadyDisembarked) <==> req.desired == Some(false) && !embarked
  {
    match req.desired
    case None => Reply(ActionState(None, None, Some(view)))
    case Some(true) =>
      if req.ship.None? then Reply(ActionState(Some(ShipRequired), None, Some(view)))
      else if embarked then Reply(ActionState(Some(AlreadyEmbarked), None, Some(view)))
      else DoEmbark(req.ship.value)
    case Some(false) =>
      if !embarked then Reply(ActionState(Some(AlreadyDisembarked), None, Some(view)))
      else DoDisembark
  }

  /**
   * embarkStaff: one nested update of the staff record. It fails as a whole on a storage
   * error or when the ship to connect does not exist.
   */
  function EmbarkWrite(db: Db, code: string, ship: ShipId, now: int, failing: set<StoreCall>): (r: (OpResult, Db))
    requires code in db.staff
    ensures r.0.OpFailed? <==> UpdateStaff in failing || ship !in db.ships
    ensures r.0.OpFailed? ==> r.1 == db
    ensures !r.0.OpFailed? ==> r.1 == AfterEmbark(db, code, ship, now) && r.0 == OpDone(r.1.staff[code])
  {
    if UpdateStaff in failing || ship !in db.ships then (OpFailed, db)
    else
      var db' := AfterEmbark(db, code, ship, now);
      (OpDone(db'.staff[code]), db')
  }

  /**
   * disembarkStaff: find the latest open interval (a failed or empty search is one error),
   * then one nested update that closes it and clears the flag and the ship.
   */
  function DisembarkWrite(db: Db, code: string, now: int, failing: set<StoreCall>): (r: (OpResult, Db))
    requires code in db.staff
    ensures r.0 == OpError(NoActiveSchedule)
            <==> FindOpenSchedule in failing || LatestOpen(db.schedules, db.staff[code].id).None?
    ensures r.0.OpFailed? <==> FindOpenSchedule !in failing && UpdateStaff in failing
                               && LatestOpen(db.schedules, db.staff[code].id).Some?
    ensures r.0.OpDone? <==> FindOpenSchedule !in failing && UpdateStaff !in failing
                             && LatestOpen(db.schedules, db.staff[code].id).Some?
    ensures !r.0.OpDone? ==> r.1 == db
    ensures r.0.OpDone? ==> r.1 == AfterDisembark(db, code, LatestOpen(db.schedules, db.staff[code].id).value, now)
                            && r.0.updated == r.1.staff[code]
  {
    var found := if FindOpenSchedule in failing then Err(FindOpenSchedule)
                 else Ok(LatestOpen(db.schedules, db.staff[code].id));
    if found.Err? || found.value.None? then (OpError(NoActiveSchedule), db)
    else if UpdateStaff in failing then (OpFailed, db)
    else
      var db' := AfterDisembark(db, code, found.value.value, now);
      (OpDone(db'.staff[code]), db')
  }

  /** Lines 425-446: turn a helper's result into the action's answer. */
  function Conclude(op: OpResult, view: StaffView, ships: map<ShipId, string>, code: string): (r: ActionState)
    ensures r.staff.Some?
    ensures r.success.Some? <==> op.OpDone?
    ensures r.success.Some? ==> r.success == Some(ThankYou) && r.error.None? && r.staff == Some(CurrentView(op.updated, ships, code))
    ensures op.OpFailed? ==> r == ActionState(Some(InternalError), None, Some(view))
    ensures op.OpError? ==> r == ActionState(Some(op.message), None, Some(view))
  {
    match op
    case OpFailed => ActionState(Some(InternalError), None, Some(view))
    case OpError(m) => ActionState(Some(m), None, Some(view))
    case OpDone(u) => ActionState(None, Some(ThankYou), Some(CurrentView(u, ships, code)))
  }

  /** The staff record a request names, when the lookup succeeds and finds one. */
  predicate Found(db: Db, req: Request, failing: set<StoreCall>)
  {
    FindStaff !in failing && req.code in db.staff
  }

  /** A refusal after the lookup: the message, the current view of the staff member, no change. */
  function Refusal(message: string, db: Db, code: string): (ActionState, Db)
    requires code in db.staff
  {
    (ActionState(Some(message), None, Some(CurrentView(db.staff[code], db.ships, code))), db)
  }

  /**
   * The whole action as a function of the store snapshot, the form, the clock and the failing
   * store calls: the answer and the store afterwards.
   */
  function Respond(db: Db, form: Form, now: int, failing: set<StoreCall>): (r: (ActionState, Db))
    // A form that fails the schema is answered before any store call.
    ensures Validate(form).Err? ==> r == (ActionState(Some(Validate(form).error), None, None), db)
    ensures form.code.Some? && |form.code.value| != CodeLength
            ==> r.1 == db && r.0.staff.None? && r.0.success.None? && r.0.error.Some?
                && InvalidPrefix <= r.0.error.value
    // An unknown code, or a lookup that fails, is "Staff not found.".
    ensures var v := Validate(form);
            v.Ok? && !Found(db, v.value, failing) ==> r == (ActionState(Some(StaffNotFound), None, None), db)
    // Only a code: the current view, no message, no change.
    ensures var v := Validate(form);
            v.Ok? && Found(db, v.value, failing) && v.value.desired.None?
            ==> r == (ActionState(None, None, Some(CurrentView(db.staff[v.value.code], db.ships, v.value.code))), db)
    // Embark without a ship is refused whatever the flag says.
    ensures var v := Validate(form);
            v.Ok? && Found(db, v.value, failing) && v.value.desired == Some(true) && v.value.ship.None?
            ==> r == Refusal(ShipRequired, db, v.value.code)
    ensures var v := Validate(form);
            v.Ok? && Found(db, v.value, failing) && v.value.desired == Some(true) && v.value.ship.Some?
            && db.staff[v.value.code].status
            ==> r == Refusal(AlreadyEmbarked, db, v.value.code)
    // The embark update fails: a storage error, or a ship that does not exist.
    ensures var v := Validate(form);
            v.Ok? && Found(db, v.value, failing) && v.value.desired == Some(true) && v.value.ship.Some?
            && !db.staff[v.value.code].status && (UpdateStaff in failing || v.value.ship.value !in db.ships)
            ==> r == Refusal(InternalError, db, v.value.code)
    // A successful embark: flag and ship set, one open interval on that ship appended.
    ensures var v := Validate(form);
            v.Ok? && Found(db, v.value, failing) && v.value.desired == Some(true) && v.value.ship.Some?
            && !db.staff[v.value.code].status && UpdateStaff !in failing && v.value.ship.value in db.ships
            ==> r.1 == AfterEmbark(db, v.value.code, v.value.ship.value, now)
                && r.0 == ActionState(None, Some(ThankYou), Some(CurrentView(r.1.staff[v.value.code], db.ships, v.value.code)))
    ensures var v := Validate(form);
            v.Ok? && Found(db, v.value, failing) && v.value.desired == Some(false) && !db.staff[v.value.code].status
            ==> r == Refusal(AlreadyDisembarked, db, v.value.code)
    ensures var v := Validate(form);
            v.Ok? && Found(db, v.value, failing) && v.value.desired == Some(false) && db.staff[v.value.code].status
            && (FindOpenSchedule in failing || LatestOpen(db.schedules, db.staff[v.value.code].id).None?)
            ==> r == Refusal(NoActiveSchedule, db, v.value.code)
    // The disembark update fails after the open interval was found.
    ensures var v := Validate(form);
            v.Ok? && Found(db, v.value, failing) && v.value.desired == Some(false) && db.staff[v.value.code].status
            && FindOpenSchedule !in failing && LatestOpen(db.schedules, db.staff[v.value.code].id).Some?
            && UpdateStaff in failing
            ==> r == Refusal(InternalError, db, v.value.code)
    // A successful disembark closes the latest open interval.
    ensures var v := Validate(form);
            v.Ok? && Found(db, v.value, failing) && v.value.desired == Some(false) && db.staff[v.value.code].status
            && FindOpenSchedule !in failing && UpdateStaff !in failing
            && LatestOpen(db.schedules, db.staff[v.value.code].id).Some?
            ==> r.1 == AfterDisembark(db, v.value.code, LatestOpen(db.schedules, db.staff[v.value.code].id).value, now)
                && r.0 == ActionState(None, Some(ThankYou), Some(CurrentView(r.1.staff[v.value.code], db.ships, v.value.code)))
    // Rejected means unchanged; success means exactly one transition.
    ensures r.0.success.None? ==> r.1 == db
    ensures r.0.success.Some? <==> r.0.error.None? && r.1 != db
  {
    match Validate(form)
    case Err(msg) => (ActionState(Some(msg), None, None), db)
    case Ok(req) =>
      var found := Lookup(db, req.code, failing);
      if found.Err? || found.value.None? then (ActionState(Some(StaffNotFound), None, None), db)
      else
        var s := found.value.value;
        var view := CurrentView(s, db.ships, req.code);
        match Decide(req, s.status, view)
        case Reply(st) => (st, db)
        case DoEmbark(ship) =>
          var w := EmbarkWrite(db, req.code, ship, now, failing);
          (Conclude(w.0, view, db.ships, req.code), w.1)
        case DoDisembark =>
          var w := DisembarkWrite(db, req.code, now, failing);
          (Conclude(w.0, view, db.ships, req.code), w.1)
  }

  /** The successful embark appends exactly one interval and changes no other staff record. */
  lemma EmbarkFrame(db: Db, form: Form, now: int, failing: set<StoreCall>)
    requires Validate(form).Ok? && Validate(form).value.desired == Some(true)
    requires Respond(db, form, now, failing).0.success.Some?
    ensures var code := form.code.value; var db' := Respond(db, form, now, failing).1;
            && code in db.staff && code in db'.staff && form.ship.Some?
            && db'.staff[code] == db.staff[code].(status := true, shipId := form.ship)
            && db'.schedules == db.schedules + [Schedule(db.nextId, db.staff[code].id, form.ship.value, now, None)]
            && db'.staff.Keys == db.staff.Keys
            && (forall c :: c in db.staff && c != code ==> db'.staff[c] == db.staff[c])
            && db'.ships == db.ships
  {
  }

  /** The successful disembark closes one interval, of that staff member only, and changes no other record. */
  lemma DisembarkFrame(db: Db, form: Form, now: int, failing: set<StoreCall>)
    requires Validate(form).Ok? && Validate(form).value.desired == Some(false)
    requires Respond(db, form, now, failing).0.success.Some?
    ensures var code := form.code.value; var db' := Respond(db, form, now, failing).1;
            && code in db.staff && code in db'.staff
            && var k := LatestOpen(db.schedules, db.staff[code].id);
            && k.Some?
            && db'.staff[code] == db.staff[code].(status := false, shipId := None)
            && |db'.schedules| == |db.schedules|
            && db'.schedules[k.value] == db.schedules[k.value].(desembark := Some(now))
            && IsOpenFor(db.schedules[k.value], db.staff[code].id)
            && (forall i :: 0 <= i < |db.schedules| && i != k.value ==> db'.schedules[i] == db.schedules[i])
            && (forall c :: c in db.staff && c != code ==> db'.staff[c] == db.staff[c])
            && db'.nextId == db.nextId
  {
  }

  /** Whatever the form and the failures, the action keeps a well-formed store well formed. */
  lemma RespondPreservesWellFormed(db: Db, form: Form, now: int, failing: set<StoreCall>)
    requires WellFormed(db)
    requires forall i :: 0 <= i < |db.schedules| ==> db.schedules[i].embark <= now
    ensures WellFormed(Respond(db, form, now, failing).1)
  {
    var r := Respond(db, form, now, failing);
    if r.0.success.Some? {
      var req := Validate(form).value;
      if req.desired == Some(true) {
        EmbarkPreservesWellFormed(db, req.code, req.ship.value, now);
      } else {
        DisembarkPreservesWellFormed(db, req.code, now);
      }
    }
  }

  /** Embarking twice in a row: the second attempt is refused and changes nothing. */
  lemma SecondEmbarkRefused(db: Db, form: Form, now: int, later: int, failing: set<StoreCall>, failing': set<StoreCall>)
    requires form.status == Some("true")
    requires Respond(db, form, now, failing).0.success.Some?
    requires FindStaff !in failing'
    ensures var db' := Respond(db, form, now, failing).1;
            Respond(db', form, later, failing') == (Respond(db', form, later, failing').0, db')
            && Respond(db', form, later, failing').0.error == Some(AlreadyEmbarked)
  {
  }

  /** Disembarking twice in a row: the second attempt is refused and changes nothing. */
  lemma SecondDisembarkRefused(db: Db, form: Form, now: int, later: int, failing: set<StoreCall>, failing': set<StoreCall>)
    requires form.status == Some("false")
    requires Respond(db, form, now, failing).0.success.Some?
    requires FindStaff !in failing'
    ensures var db' := Respond(db, form, now, failing).1;
            Respond(db', form, later, failing') == (Respond(db', form, later, failing').0, db')
            && Respond(db', form, later, failing').0.error == Some(AlreadyDisembarked)
  {
  }

  /** What src/lib/data-access.ts:51-66 hands back: the thrown error, null, or the bare record. */
  datatype RawRecord = Thrown | NullRecord | Record(record: Staff)

  /** What lines 384-388 make of a raw value: a thrown TypeError, the not-found answer, or a staff member. */
  datatype LookupAsRead = Rethrows | ThrowsTypeError | AnswersStaffNotFound | ProceedsWith(staff: Staff)

  /** The wrapper's result: the storage error rethrown, null for an unknown code, else the bare record. */
  function RawFindUnique(db: Db, code: string, failing: set<StoreCall>): (r: RawRecord)
    ensures r.Thrown? <==> FindStaff in failing
    ensures r.NullRecord? <==> FindStaff !in failing && code !in db.staff
    ensures r.Record? ==> code in db.staff && r.record == db.staff[code]
  {
    if FindStaff in failing then Thrown
    else if code in db.staff then Record(db.staff[code])
    else NullRecord
  }

  /**
   * The lookup as written: the wrapper rethrows, `null.error` throws, and a bare staff record
   * has neither an `error` nor a `data` property, so `!staffResult.data` always holds.
   */
  function LookupAsWritten(db: Db, code: string, failing: set<StoreCall>): (r: LookupAsRead)
    ensures !r.ProceedsWith?
    ensures r == AnswersStaffNotFound <==> FindStaff !in failing && code in db.staff
    ensures r == Rethrows <==> FindStaff in failing
    ensures r == ThrowsTypeError <==> FindStaff !in failing && code !in db.staff
  {
    match RawFindUnique(db, code, failing)
    case Thrown => Rethrows
    case NullRecord => ThrowsTypeError
    case Record(_) => AnswersStaffNotFound
  }

  /** A registered code is refused as written, while the checked contract finds the record. */
  lemma RegisteredCodeRefusedAsWritten(db: Db, code: string, failing: set<StoreCall>)
    requires code in db.staff && FindStaff !in failing
    ensures LookupAsWritten(db, code, failing) == AnswersStaffNotFound
    ensures Lookup(db, code, failing) == Ok(Some(db.staff[code]))
  {
  }

  /** The staff and schedule tables the kiosk works on. */
  class Store {
    var staff: map<string, Staff>
    var schedules: seq<Schedule>
    var ships: map<ShipId, string>
    var nextId: nat

    function State(): Db
      reads this
    {
      Db(staff, schedules, ships, nextId)
    }

    constructor (db: Db)
      ensures State() == db
    {
      staff, schedules, ships, nextId := db.staff, db.schedules, db.ships, db.nextId;
    }

    /** The staff lookup by code (actions.ts:379-386). */
    method FindByCode(code: string, failing: set<StoreCall>) returns (r: Result<Option<Staff>, StoreCall>)
      ensures r == Lookup(State(), code, failing)
    {
      if FindStaff in failing {
        r := Err(FindStaff);
      } else if code in staff {
        r := Ok(Some(staff[code]));
      } else {
        r := Ok(None);
      }
    }

    /** The open-interval search of disembarkStaff (lines 288-295), answering a row position. */
    method FindLatestOpen(staffId: StaffId, failing: set<StoreCall>) returns (r: Result<Option<nat>, StoreCall>)
      ensures r.Err? <==> FindOpenSchedule in failing
      ensures r.Ok? ==> r.value == LatestOpen(schedules, staffId)
    {
      if FindOpenSchedule in failing {
        r := Err(FindOpenSchedule);
      } else {
        r := Ok(LatestOpen(schedules, staffId));
      }
    }

    /** embarkStaff (lines 264-285). */
    method EmbarkStaff(code: string, ship: ShipId, now: int, failing: set<StoreCall>) returns (op: OpResult)
      requires code in staff
      modifies this
      ensures (op, State()) == EmbarkWrite(old(State()), code, ship, now, failing)
    {
      if UpdateStaff in failing || ship !in ships {
        op := OpFailed;
        return;
      }
      var s := staff[code];
      schedules := schedules + [Schedule(nextId, s.id, ship, now, None)];
      nextId := nextId + 1;
      staff := staff[code := s.(status := true, shipId := Some(ship))];
      op := OpDone(staff[code]);
    }

    /** disembarkStaff (lines 287-335). */
    method DisembarkStaff(code: string, now: int, failing: set<StoreCall>) returns (op: OpResult)
      requires code in staff
      modifies this
      ensures (op, State()) == DisembarkWrite(old(State()), code, now, failing)
    {
      var s := staff[code];
      var found := FindLatestOpen(s.id, failing);
      if found.Err? || found.value.None? {
        op := OpError(NoActiveSchedule);
        return;
      }
      if UpdateStaff in failing {
        op := OpFailed;
        return;
      }
      var k := found.value.value;
      schedules := schedules[k := schedules[k].(desembark := Some(now))];
      staff := staff[code := s.(status := false, shipId := None)];
      op := OpDone(staff[code]);
    }

    /** EmbarkAction (lines 257-447) against this store, with `now` for the clock. */
    method EmbarkAction(form: Form, now: int, failing: set<StoreCall>) returns (st: ActionState)
      modifies this
      ensures (st, State()) == Respond(old(State()), form, now, failing)
    {
      var v := Validate(form);
      if v.Err? {
        return ActionState(Some(v.error), None, None);
      }
      var req := v.value;
      var found := FindByCode(req.code, failing);
      if found.Err? || found.value.None? {
        return ActionState(Some(StaffNotFound), None, None);
      }
      var s := found.value.value;
      var view := CurrentView(s, ships, req.code);
      var step := Decide(req, s.status, view);
      match step
      case Reply(answer) =>
        st := answer;
      case DoEmbark(ship) =>
        var op := EmbarkStaff(req.code, ship, now, failing);
        st := Conclude(op, view, ships, req.code);
      case DoDisembark =>
        var op := DisembarkStaff(req.code, now, failing);
        st := Conclude(op, view, ships, req.code);
    }
  }
}
