/**
 * The staff and schedule records the kiosk reads and writes, and the two transitions
 * embarkStaff and disembarkStaff apply to them (src/app/login/actions.ts:264-335),
 * as functions on a snapshot of the store. Timestamps are integers.
 */
module ScheduleStore {
  import opened Wrappers

  type StaffId = string
  type ShipId = string

  /** A staff record: its id, its name, the embarked flag and the current ship, if any. */
  datatype Staff = Staff(id: StaffId, firstName: string, lastName: string, status: bool, shipId: Option<ShipId>)

  /** One schedule interval; `desembark == None` is an open interval (still aboard). */
  datatype Schedule = Schedule(id: nat, staffId: StaffId, shipId: ShipId, embark: int, desembark: Option<int>)

  /**
   * A snapshot of the store: staff keyed by their access code, the schedule table in
   * storage order, the ship directory (id to name) and the next schedule id to hand out.
   */
  datatype Db = Db(staff: map<string, Staff>, schedules: seq<Schedule>, ships: map<ShipId, string>, nextId: nat)

  predicate IsOpenFor(s: Schedule, staffId: StaffId)
  {
    s.staffId == staffId && s.desembark.None?
  }

  /** How many open intervals the staff member has. */
  function OpenCount(schedules: seq<Schedule>, staffId: StaffId): (n: nat)
    ensures n <= |schedules|
  {
    if schedules == [] then 0
    else OpenCount(schedules[..|schedules| - 1], staffId)
         + (if IsOpenFor(schedules[|schedules| - 1], staffId) then 1 else 0)
  }

  /**
   * The open interval of the staff member with the greatest `embark` (the query ordered by
   * `embark` descending, taking one); among equal `embark` values the earliest stored wins.
   */
  function LatestOpen(schedules: seq<Schedule>, staffId: StaffId): (r: Option<nat>)
    ensures r.None? <==> forall i :: 0 <= i < |schedules| ==> !IsOpenFor(schedules[i], staffId)
    ensures r.Some? ==> r.value < |schedules| && IsOpenFor(schedules[r.value], staffId)
    ensures r.Some? ==> forall i :: 0 <= i < |schedules| && IsOpenFor(schedules[i], staffId)
                          ==> schedules[i].embark <= schedules[r.value].embark
  {
    if schedules == [] then None
    else
      var last := |schedules| - 1;
      var before := LatestOpen(schedules[..last], staffId);
      if IsOpenFor(schedules[last], staffId)
         && (before.None? || schedules[before.value].embark < schedules[last].embark)
      then Some(last)
      else before
  }

  /** Staff ids are primary keys: two codes never name the same record. */
  ghost predicate UniqueStaffIds(db: Db)
  {
    forall c, d :: c in db.staff && d in db.staff && db.staff[c].id == db.staff[d].id ==> c == d
  }

  /** Schedule ids are primary keys, all below the next id the store hands out. */
  ghost predicate ScheduleIdsFresh(db: Db)
  {
    && (forall i :: 0 <= i < |db.schedules| ==> db.schedules[i].id < db.nextId)
    && (forall i, j :: 0 <= i < j < |db.schedules| ==> db.schedules[i].id != db.schedules[j].id)
  }

  /** The open-interval invariant: an embarked staff member has exactly one open interval, any other none. */
  ghost predicate OpenIntervalsMatchStatus(db: Db)
  {
    forall c :: c in db.staff ==>
      OpenCount(db.schedules, db.staff[c].id) == if db.staff[c].status then 1 else 0
  }

  /** Every closed interval ends no earlier than it starts. */
  ghost predicate Chronological(db: Db)
  {
    forall i :: 0 <= i < |db.schedules| && db.schedules[i].desembark.Some?
      ==> db.schedules[i].embark <= db.schedules[i].desembark.value
  }

  ghost predicate WellFormed(db: Db)
  {
    UniqueStaffIds(db) && ScheduleIdsFresh(db) && OpenIntervalsMatchStatus(db) && Chronological(db)
  }

  /** The embark write: flag set, ship set, one open interval on that ship appended. */
  function AfterEmbark(db: Db, code: string, ship: ShipId, now: int): (r: Db)
    requires code in db.staff
    ensures r.staff.Keys == db.staff.Keys && r.ships == db.ships && r.nextId == db.nextId + 1
    ensures r.staff[code].id == db.staff[code].id && r.staff[code].status && r.staff[code].shipId == Some(ship)
    ensures r.staff[code].firstName == db.staff[code].firstName && r.staff[code].lastName == db.staff[code].lastName
    ensures forall c :: c in db.staff && c != code ==> r.staff[c] == db.staff[c]
    ensures |r.schedules| == |db.schedules| + 1 && r.schedules[..|db.schedules|] == db.schedules
    ensures var x := r.schedules[|db.schedules|];
            IsOpenFor(x, db.staff[code].id) && x.shipId == ship && x.embark == now && x.id == db.nextId
  {
    var s := db.staff[code];
    db.(staff := db.staff[code := s.(status := true, shipId := Some(ship))],
        schedules := db.schedules + [Schedule(db.nextId, s.id, ship, now, None)],
        nextId := db.nextId + 1)
  }

  /** The disembark write: interval `k` closed at `now`, flag and ship cleared. */
  function AfterDisembark(db: Db, code: string, k: nat, now: int): (r: Db)
    requires code in db.staff && k < |db.schedules|
    ensures r.staff.Keys == db.staff.Keys && r.ships == db.ships && r.nextId == db.nextId
    ensures r.staff[code].id == db.staff[code].id && !r.staff[code].status && r.staff[code].shipId.None?
    ensures r.staff[code].firstName == db.staff[code].firstName && r.staff[code].lastName == db.staff[code].lastName
    ensures forall c :: c in db.staff && c != code ==> r.staff[c] == db.staff[c]
    ensures |r.schedules| == |db.schedules|
    ensures forall i :: 0 <= i < |db.schedules| && i != k ==> r.schedules[i] == db.schedules[i]
    ensures var x := r.schedules[k]; var y := db.schedules[k];
            x.desembark == Some(now) && x.id == y.id && x.staffId == y.staffId && x.shipId == y.shipId
            && x.embark == y.embark
  {
    var s := db.staff[code];
    db.(staff := db.staff[code := s.(status := false, shipId := None)],
        schedules := db.schedules[k := db.schedules[k].(desembark := Some(now))])
  }

  /** Appending one interval adds one to its owner's open count exactly when it is open. */
  lemma OpenCountAppend(schedules: seq<Schedule>, x: Schedule, staffId: StaffId)
    ensures OpenCount(schedules + [x], staffId)
            == OpenCount(schedules, staffId) + (if IsOpenFor(x, staffId) then 1 else 0)
  {
  }

  /** No interval of the staff member is open exactly when the count is zero. */
  lemma {:induction false} OpenCountZero(schedules: seq<Schedule>, staffId: StaffId)
    ensures OpenCount(schedules, staffId) == 0
            <==> forall i :: 0 <= i < |schedules| ==> !IsOpenFor(schedules[i], staffId)
  {
    if schedules != [] {
      var last := |schedules| - 1;
      OpenCountZero(schedules[..last], staffId);
      assert forall i :: 0 <= i < last ==> schedules[..last][i] == schedules[i];
    }
  }

  /** Closing interval `k` removes one open interval from its owner and from nobody else. */
  lemma {:induction false} OpenCountClose(schedules: seq<Schedule>, k: nat, now: int, staffId: StaffId)
    requires k < |schedules|
    ensures OpenCount(schedules[k := schedules[k].(desembark := Some(now))], staffId)
            == OpenCount(schedules, staffId) - (if IsOpenFor(schedules[k], staffId) then 1 else 0)
  {
    var t := schedules[k := schedules[k].(desembark := Some(now))];
    var last := |schedules| - 1;
    if k == last {
      assert t[..last] == schedules[..last];
    } else {
      OpenCountClose(schedules[..last], k, now, staffId);
      assert t[..last] == schedules[..last][k := schedules[k].(desembark := Some(now))];
    }
  }

  /** A successful embark of a disembarked staff member keeps the store well formed. */
  lemma EmbarkPreservesWellFormed(db: Db, code: string, ship: ShipId, now: int)
    requires WellFormed(db) && code in db.staff && !db.staff[code].status
    ensures WellFormed(AfterEmbark(db, code, ship, now))
  {
  }

  /** A successful disembark of the latest open interval keeps the store well formed. */
  lemma DisembarkPreservesWellFormed(db: Db, code: string, now: int)
    requires WellFormed(db) && code in db.staff && db.staff[code].status
    requires LatestOpen(db.schedules, db.staff[code].id).Some?
    requires now >= db.schedules[LatestOpen(db.schedules, db.staff[code].id).value].embark
    ensures WellFormed(AfterDisembark(db, code, LatestOpen(db.schedules, db.staff[code].id).value, now))
  {
    var k := LatestOpen(db.schedules, db.staff[code].id).value;
    var db' := AfterDisembark(db, code, k, now);
    forall c | c in db'.staff
      ensures OpenCount(db'.schedules, db'.staff[c].id) == if db'.staff[c].status then 1 else 0
    {
      OpenCountClose(db.schedules, k, now, db.staff[c].id);
    }
  }

  /** For a staff member with at most one open interval, a disembark leaves none. */
  lemma DisembarkClosesLastOpen(db: Db, code: string, now: int)
    requires code in db.staff
    requires OpenCount(db.schedules, db.staff[code].id) <= 1
    requires LatestOpen(db.schedules, db.staff[code].id).Some?
    ensures OpenCount(AfterDisembark(db, code, LatestOpen(db.schedules, db.staff[code].id).value, now).schedules,
                      db.staff[code].id) == 0
  {
    var id := db.staff[code].id;
    var k := LatestOpen(db.schedules, id).value;
    OpenCountClose(db.schedules, k, now, id);
    OpenCountZero(db.schedules, id);
  }
}
