/**
 * The record shapes of user/models.py and the constraints the schema
 * declares on them: field lengths, unique columns, the reservation slot
 * uniqueness, defaults and the cascades that follow a doctor's deletion.
 * Tables are sequences of rows in storage order.
 */
module Schema {
  import opened Util

  type DoctorId = nat
  type PatientId = nat
  type UserId = nat

  /** A calendar day as its proleptic Gregorian ordinal (0001-01-01 is day 1), like Python's `date.toordinal()`. */
  datatype Date = Date(ordinal: nat)

  /** Python's `date.weekday()`: Monday is 0, Friday is 4, Sunday is 6 (day 1 was a Monday). */
  function Weekday(d: Date): (w: nat)
    ensures w < 7
  {
    (d.ordinal + 6) % 7
  }

  const Friday: nat := 4

  /** Anchors the numbering: 0001-01-01 was a Monday, each day moves one step, and 2024-01-05 was a Friday. */
  lemma WeekdayCalendar(n: nat)
    ensures Weekday(Date(1)) == 0
    ensures Weekday(Date(n + 1)) == (Weekday(Date(n)) + 1) % 7
    ensures Weekday(Date(738890)) == Friday
  {
  }

  /** A `TimeField` value at minute precision; only `IsClockTime` values occur in the database. */
  datatype TimeOfDay = TimeOfDay(hour: nat, minute: nat)

  predicate IsClockTime(t: TimeOfDay) {
    t.hour < 24 && t.minute < 60
  }

  function Minutes(t: TimeOfDay): nat {
    t.hour * 60 + t.minute
  }

  /** On clock times, the minute of the day identifies the time. */
  lemma MinutesIdentifyClockTime(a: TimeOfDay, b: TimeOfDay)
    requires IsClockTime(a) && IsClockTime(b) && Minutes(a) == Minutes(b)
    ensures a == b
  {
    assert Minutes(a) / 60 == a.hour && Minutes(a) % 60 == a.minute;
    assert Minutes(b) / 60 == b.hour && Minutes(b) % 60 == b.minute;
  }

  /** A `Queue` row: `position` is a `PositiveIntegerField` (zero allowed) with no uniqueness declared. */
  datatype QueueEntry = QueueEntry(id: nat, patient: PatientId, doctor: DoctorId, position: nat, timestamp: int)

  /** A `Reservation` row; `id` stands for the UUID primary key. */
  datatype Reservation = Reservation(id: nat, doctor: DoctorId, date: Date, time: TimeOfDay,
                                     patient: UserId, reservationTime: int)

  /** A `Service` row (prices and image are not modelled). */
  datatype Service = Service(code: string, doctor: DoctorId, name: string)

  datatype NationalIdCard = NationalIdCard(nationalId: string, firstName: string, lastName: string,
                                           fatherName: string, birthDate: Date)

  datatype Patient = Patient(firstName: string, lastName: string, nationalCode: string,
                             dateOfBirth: Date, insurance: string, user: UserId)

  /** `max_length` bounds of `NationalIDCard`. */
  predicate CardFits(c: NationalIdCard) {
    |c.nationalId| <= 10 && |c.firstName| <= 50 && |c.lastName| <= 100 && |c.fatherName| <= 100
  }

  /** `max_length` bounds of `Patient`. */
  predicate PatientFits(p: Patient) {
    |p.firstName| <= 100 && |p.lastName| <= 100 && |p.nationalCode| <= 10 && |p.insurance| <= 100
  }

  /** `max_length` bounds of `Service`. */
  predicate ServiceFits(s: Service) {
    |s.code| <= 20 && |s.name| <= 100
  }

  /** No two rows of a table agree on `key`. */
  predicate UniqueBy<T, K(==)>(rows: seq<T>, key: T -> K) {
    forall i, j :: 0 <= i < |rows| && 0 <= j < |rows| && i != j ==> key(rows[i]) != key(rows[j])
  }

  function ReservationSlot(r: Reservation): (DoctorId, Date, TimeOfDay) {
    (r.doctor, r.date, r.time)
  }

  function CardNationalId(c: NationalIdCard): string { c.nationalId }
  function PatientNationalCode(p: Patient): string { p.nationalCode }
  function ServiceCode(s: Service): string { s.code }

  /** Why the database or its validation refuses a row. */
  datatype WriteError = FieldTooLong | DuplicateKey

  /** Insertion into a table with a unique key: refused when the key is taken. */
  function InsertUnique<T, K(==)>(rows: seq<T>, row: T, key: T -> K): (r: Result<seq<T>, WriteError>)
    ensures r.Err? <==> exists i :: 0 <= i < |rows| && key(rows[i]) == key(row)
    ensures r.Err? ==> r.error == DuplicateKey
    ensures r.Ok? ==> r.value == rows + [row]
    ensures r.Ok? && UniqueBy(rows, key) ==> UniqueBy(r.value, key)
  {
    if exists i :: 0 <= i < |rows| && key(rows[i]) == key(row) then Err(DuplicateKey)
    else Ok(rows + [row])
  }

  /** Saving a reservation: `unique_together = ('doctor', 'date', 'time')`. */
  function BookReservation(rows: seq<Reservation>, r: Reservation): (res: Result<seq<Reservation>, WriteError>)
    ensures res.Ok? <==> forall i :: 0 <= i < |rows| ==> ReservationSlot(rows[i]) != ReservationSlot(r)
    ensures res.Ok? && UniqueBy(rows, ReservationSlot) ==> UniqueBy(res.value, ReservationSlot)
    ensures res.Ok? ==> res.value == rows + [r]
  {
    InsertUnique(rows, r, ReservationSlot)
  }

  /** Admitting a national-ID card: field bounds first, then the unique `national_id`. */
  function AdmitCard(cards: seq<NationalIdCard>, c: NationalIdCard): (res: Result<seq<NationalIdCard>, WriteError>)
    ensures !CardFits(c) ==> res == Err(FieldTooLong)
    ensures res.Ok? <==> CardFits(c) && forall i :: 0 <= i < |cards| ==> cards[i].nationalId != c.nationalId
    ensures CardFits(c) && (exists i :: 0 <= i < |cards| && cards[i].nationalId == c.nationalId) ==> res == Err(DuplicateKey)
    ensures res.Ok? ==> res.value == cards + [c]
    ensures res.Ok? && UniqueBy(cards, CardNationalId) && (forall i :: 0 <= i < |cards| ==> CardFits(cards[i]))
            ==> UniqueBy(res.value, CardNationalId) && forall i :: 0 <= i < |res.value| ==> CardFits(res.value[i])
  {
    if !CardFits(c) then Err(FieldTooLong) else InsertUnique(cards, c, CardNationalId)
  }

  /** Admitting a patient: field bounds first, then the unique `national_code`. */
  function AdmitPatient(patients: seq<Patient>, p: Patient): (res: Result<seq<Patient>, WriteError>)
    ensures !PatientFits(p) ==> res == Err(FieldTooLong)
    ensures res.Ok? <==> PatientFits(p) && forall i :: 0 <= i < |patients| ==> patients[i].nationalCode != p.nationalCode
    ensures PatientFits(p) && (exists i :: 0 <= i < |patients| && patients[i].nationalCode == p.nationalCode) ==> res == Err(DuplicateKey)
    ensures res.Ok? ==> res.value == patients + [p]
    ensures res.Ok? && UniqueBy(patients, PatientNationalCode) && (forall i :: 0 <= i < |patients| ==> PatientFits(patients[i]))
            ==> UniqueBy(res.value, PatientNationalCode) && forall i :: 0 <= i < |res.value| ==> PatientFits(res.value[i])
  {
    if !PatientFits(p) then Err(FieldTooLong) else InsertUnique(patients, p, PatientNationalCode)
  }

  const DefaultReservationTime: TimeOfDay := TimeOfDay(9, 0)

  /**
   * A new reservation row: the date defaults to today, the time to 09:00,
   * and `reservation_time` is stamped with the creation instant.
   */
  function NewReservation(id: nat, doctor: DoctorId, patient: UserId, date: Option<Date>,
                          time: Option<TimeOfDay>, today: Date, now: int): (r: Reservation)
    ensures date.None? ==> r.date == today
    ensures time.None? ==> r.time == TimeOfDay(9, 0)
    ensures date.Some? ==> r.date == date.value
    ensures time.Some? ==> r.time == time.value
    ensures r.reservationTime == now && r.doctor == doctor && r.patient == patient && r.id == id
  {
    Reservation(id, doctor, date.GetOr(today), time.GetOr(DefaultReservationTime), patient, now)
  }

  /** The rows of `rows` that satisfy `keep`, in storage order. */
  function Keep<T(!new)>(rows: seq<T>, keep: T -> bool): (r: seq<T>)
    ensures forall x :: x in r <==> x in rows && keep(x)
    ensures |r| <= |rows|
  {
    if |rows| == 0 then []
    else if keep(rows[0]) then [rows[0]] + Keep(rows[1..], keep)
    else Keep(rows[1..], keep)
  }

  /** Filtering a table never breaks a uniqueness constraint. */
  lemma {:induction false} KeepPreservesUnique<T(!new), K>(rows: seq<T>, keep: T -> bool, key: T -> K)
    ensures UniqueBy(rows, key) ==> UniqueBy(Keep(rows, keep), key)
  {
    if |rows| > 0 && UniqueBy(rows, key) {
      var rest := rows[1..];
      assert UniqueBy(rest, key) by {
        forall i, j | 0 <= i < |rest| && 0 <= j < |rest| && i != j
          ensures key(rest[i]) != key(rest[j])
        {
          assert rest[i] == rows[i + 1] && rest[j] == rows[j + 1];
        }
      }
      KeepPreservesUnique(rest, keep, key);
      var tail := Keep(rest, keep);
      if keep(rows[0]) {
        var r := [rows[0]] + tail;
        forall j | 0 <= j < |tail|
          ensures key(rows[0]) != key(tail[j])
        {
          assert tail[j] in rest;
          var k :| 0 <= k < |rest| && rest[k] == tail[j];
          assert rows[k + 1] == tail[j];
        }
        forall i, j | 0 <= i < |r| && 0 <= j < |r| && i != j
          ensures key(r[i]) != key(r[j])
        {
          if i > 0 && j > 0 {
            assert r[i] == tail[i - 1] && r[j] == tail[j - 1];
          } else if i == 0 {
            assert r[j] == tail[j - 1];
          } else {
            assert r[i] == tail[i - 1];
          }
        }
      }
    }
  }

  /** The part of the database that a doctor's rows live in. */
  datatype Db = Db(doctors: set<DoctorId>, queue: seq<QueueEntry>,
                   reservations: seq<Reservation>, services: seq<Service>)

  /**
   * Deleting a doctor: `on_delete=CASCADE` on `Queue.doctor`,
   * `Reservation.doctor` and `Service.doctor` removes the doctor's rows and
   * keeps every other row.
   */
  function DeleteDoctor(db: Db, d: DoctorId): (r: Db)
    ensures r.doctors == db.doctors - {d}
    ensures forall e :: e in r.queue <==> e in db.queue && e.doctor != d
    ensures forall x :: x in r.reservations <==> x in db.reservations && x.doctor != d
    ensures forall s :: s in r.services <==> s in db.services && s.doctor != d
    ensures UniqueBy(db.reservations, ReservationSlot) ==> UniqueBy(r.reservations, ReservationSlot)
    ensures UniqueBy(db.services, ServiceCode) ==> UniqueBy(r.services, ServiceCode)
  {
    var kept := (x: Reservation) => x.doctor != d;
    var keptService := (s: Service) => s.doctor != d;
    KeepPreservesUnique(db.reservations, kept, ReservationSlot);
    KeepPreservesUnique(db.services, keptService, ServiceCode);
    Db(db.doctors - {d},
       Keep(db.queue, (e: QueueEntry) => e.doctor != d),
       Keep(db.reservations, kept),
       Keep(db.services, keptService))
  }
}
