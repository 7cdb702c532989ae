/**
 * The free appointment times of a doctor on a day (`AvailableTimesView.get`
 * in user/views.py): Fridays are refused, otherwise the eight default
 * times are offered minus those already reserved, in their default order.
 * Date parsing is not modelled: the request's date arrives already read.
 */
module Availability {
  import opened Schema

  /** The `date` query parameter after parsing with `%Y-%m-%d`. */
  datatype DateParam = Missing | Malformed | Given(date: Date)

  /** The reasons for a 400 response. */
  datatype Refusal = NoDateProvided | InvalidDateFormat | ClosedOnFriday

  datatype TimesResult =
    | Available(times: seq<TimeOfDay>)  // 200
    | Refused(reason: Refusal)          // 400
    | DoctorNotFound                    // 404

  /** The consultation times offered every day but Friday. */
  const DefaultTimes: seq<TimeOfDay> := [
    TimeOfDay(9, 0), TimeOfDay(10, 0), TimeOfDay(11, 0), TimeOfDay(12, 0),
    TimeOfDay(16, 0), TimeOfDay(17, 0), TimeOfDay(18, 0), TimeOfDay(19, 0)
  ]

  /** Every default time is a valid clock time. */
  lemma DefaultTimesAreClockTimes()
    ensures forall i :: 0 <= i < |DefaultTimes| ==> IsClockTime(DefaultTimes[i])
  {
  }

  /** Strictly earlier to later. */
  predicate Chronological(ts: seq<TimeOfDay>) {
    forall i, j :: 0 <= i < j < |ts| ==> Minutes(ts[i]) < Minutes(ts[j])
  }

  /** The times reserved with doctor `d` on `day`, in storage order (`values_list('time', flat=True)`). */
  function BookedTimes(reservations: seq<Reservation>, d: DoctorId, day: Date): (booked: seq<TimeOfDay>)
    ensures forall t :: t in booked <==>
      exists k :: 0 <= k < |reservations| && reservations[k].doctor == d && reservations[k].date == day && reservations[k].time == t
  {
    if |reservations| == 0 then []
    else
      var rest := BookedTimes(reservations[1..], d, day);
      var r := reservations[0];
      assert forall k :: 0 < k < |reservations| ==> reservations[k] == reservations[1..][k - 1];
      if r.doctor == d && r.date == day then [r.time] + rest else rest
  }

  /** `[x for x in xs if x not in excluded]`. */
  function Without<T(==,!new)>(xs: seq<T>, excluded: seq<T>): (r: seq<T>)
    ensures forall x :: x in r <==> x in xs && x !in excluded
    ensures |r| <= |xs|
  {
    if |xs| == 0 then []
    else if xs[0] in excluded then Without(xs[1..], excluded)
    else [xs[0]] + Without(xs[1..], excluded)
  }

  /** Dropping elements keeps the survivors in their order. */
  lemma {:induction false} WithoutKeepsOrder(ts: seq<TimeOfDay>, excluded: seq<TimeOfDay>)
    requires Chronological(ts)
    ensures Chronological(Without(ts, excluded))
  {
    if |ts| > 0 {
      var rest := ts[1..];
      assert Chronological(rest) by {
        forall i, j | 0 <= i < j < |rest| ensures Minutes(rest[i]) < Minutes(rest[j]) {
          assert rest[i] == ts[i + 1] && rest[j] == ts[j + 1];
        }
      }
      WithoutKeepsOrder(rest, excluded);
      if ts[0] !in excluded {
        var tail := Without(rest, excluded);
        var r := [ts[0]] + tail;
        forall j | 0 <= j < |tail| ensures Minutes(ts[0]) < Minutes(tail[j]) {
          assert tail[j] in rest;
          var k :| 0 <= k < |rest| && rest[k] == tail[j];
          assert ts[k + 1] == tail[j];
        }
        forall i, j | 0 <= i < j < |r| ensures Minutes(r[i]) < Minutes(r[j]) {
          assert r[j] == tail[j - 1];
          if i > 0 {
            assert r[i] == tail[i - 1];
          }
        }
      }
    }
  }

  /**
   * `AvailableTimesView.get`, with the doctor lookup, the date parameter and
   * the reservations table as inputs. The checks run in the view's order:
   * doctor, missing date, malformed date, Friday.
   */
  function AvailableTimes(doctorExists: bool, d: DoctorId, param: DateParam,
                          reservations: seq<Reservation>): (r: TimesResult)
    ensures !doctorExists <==> r == DoctorNotFound
    ensures doctorExists && param.Missing? ==> r == Refused(NoDateProvided)
    ensures doctorExists && param.Malformed? ==> r == Refused(InvalidDateFormat)
    ensures doctorExists && param.Given? && Weekday(param.date) == Friday ==> r == Refused(ClosedOnFriday)
    ensures r.Available? <==> doctorExists && param.Given? && Weekday(param.date) != Friday
    ensures r.Available? ==>
      Chronological(r.times) &&
      forall t :: t in r.times <==>
        t in DefaultTimes &&
        forall k :: 0 <= k < |reservations| && reservations[k].doctor == d && reservations[k].date == param.date
          ==> reservations[k].time != t
  {
    if !doctorExists then DoctorNotFound
    else if param.Missing? then Refused(NoDateProvided)
    else if param.Malformed? then Refused(InvalidDateFormat)
    else if Weekday(param.date) == Friday then Refused(ClosedOnFriday)
    else
      var booked := BookedTimes(reservations, d, param.date);
      WithoutKeepsOrder(DefaultTimes, booked);
      Available(Without(DefaultTimes, booked))
  }

  /**
   * A value the view's membership test compares: the default list holds
   * strings such as "9:00", while a `TimeField` column yields time values.
   * Python's `==` between a string and a time is always false.
   */
  datatype PyValue = PyStr(s: string) | PyTime(t: TimeOfDay)

  /** The default times as the view writes them. */
  const DefaultTimeStrings: seq<string> := ["9:00", "10:00", "11:00", "12:00", "16:00", "17:00", "18:00", "19:00"]

  function AsStrings(ss: seq<string>): (vs: seq<PyValue>)
    ensures |vs| == |ss| && forall i :: 0 <= i < |ss| ==> vs[i] == PyStr(ss[i])
  {
    seq(|ss|, i requires 0 <= i < |ss| => PyStr(ss[i]))
  }

  function AsTimes(ts: seq<TimeOfDay>): (vs: seq<PyValue>)
    ensures |vs| == |ts| && forall i :: 0 <= i < |ts| ==> vs[i] == PyTime(ts[i])
  {
    seq(|ts|, i requires 0 <= i < |ts| => PyTime(ts[i]))
  }

  /** The comprehension on line 50 as written: string defaults filtered against time values. */
  function AvailableAsWritten(booked: seq<TimeOfDay>): (r: seq<PyValue>)
    ensures forall v :: v in r <==> v in AsStrings(DefaultTimeStrings) && v !in AsTimes(booked)
  {
    Without(AsStrings(DefaultTimeStrings), AsTimes(booked))
  }

  lemma {:induction false} WithoutNothingShared<T(!new)>(xs: seq<T>, excluded: seq<T>)
    requires forall x :: x in xs ==> x !in excluded
    ensures Without(xs, excluded) == xs
  {
    if |xs| > 0 {
      assert forall x :: x in xs[1..] ==> x in xs;
      WithoutNothingShared(xs[1..], excluded);
      assert xs == [xs[0]] + xs[1..];
    }
  }

  /** As written, bookings never remove anything: all eight defaults are always offered. */
  lemma AsWrittenIgnoresBookings(booked: seq<TimeOfDay>)
    ensures AvailableAsWritten(booked) == AsStrings(DefaultTimeStrings)
  {
    var xs, ex := AsStrings(DefaultTimeStrings), AsTimes(booked);
    forall x | x in xs ensures x !in ex {
      assert x.PyStr?;
    }
    WithoutNothingShared(xs, ex);
  }

  /** A 9:00 reservation exists, yet "9:00" is still offered as written, while the model withholds it. */
  lemma BookedNineStillOffered()
    ensures PyStr("9:00") in AvailableAsWritten([TimeOfDay(9, 0)])
    ensures var res := Reservation(0, 1, Date(739000), TimeOfDay(9, 0), 2, 0);
            var r := AvailableTimes(true, 1, Given(Date(739000)), [res]);
            r.Available? && TimeOfDay(9, 0) !in r.times
  {
    AsWrittenIgnoresBookings([TimeOfDay(9, 0)]);
    assert AsStrings(DefaultTimeStrings)[0] == PyStr("9:00");
    assert Weekday(Date(739000)) != Friday;
  }
}
