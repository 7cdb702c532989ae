/**
 * The per-doctor visit queue and its call-out views (user/views.py):
 * `CallPatientView.get` announces the head (`initial`), removes and announces
 * the head (`next`) or announces the tail (`last`) of a doctor's queue;
 * `NextPatientView.get` removes the head; `QueueListCreateView` adds an
 * entry. The table keeps rows in storage order; `HeadIndex` and
 * `TailIndex` pick a doctor's row of least and greatest `position`, as the
 * views' `order_by('position')` does, and `DoctorQueue` is the doctor's
 * rows in storage order.
 */
module VisitQueue {
  import opened Util
  import opened Schema
  import Announcement

  /** The responses of `CallPatientView.get`. */
  datatype CallResult =
    | Announce(voiceFiles: seq<string>)  // 200, the clips announcing the selected position
    | NoPatients                         // 200, "No patients in queue"
    | InvalidCallType                    // 400
    | DoctorNotFound                     // 404

  /** The responses of `NextPatientView.get`. */
  datatype NextResult =
    | NextPatient(patient: PatientId)    // 200, "Next patient: <the patient's username>"
    | QueueEmpty                         // 200, "No patients in queue"
    | UnknownDoctor                      // 404

  /** The responses of creating a queue entry. */
  datatype CreateResult =
    | Created(entry: QueueEntry)         // 201
    | InvalidReference                   // 400, the doctor or the patient does not exist

  predicate IsCallType(callType: string) {
    callType == "initial" || callType == "next" || callType == "last"
  }

  /** Doctor `d` has no entry in `es`. */
  predicate NoEntriesOf(es: seq<QueueEntry>, d: DoctorId) {
    forall i :: 0 <= i < |es| ==> es[i].doctor != d
  }

  /** No entry of doctor `d` has a position below `p`. */
  predicate NoneBelow(es: seq<QueueEntry>, d: DoctorId, p: nat) {
    forall j :: 0 <= j < |es| && es[j].doctor == d ==> p <= es[j].position
  }

  /** No entry of doctor `d` has a position above `p`. */
  predicate NoneAbove(es: seq<QueueEntry>, d: DoctorId, p: nat) {
    forall j :: 0 <= j < |es| && es[j].doctor == d ==> es[j].position <= p
  }

  /** No two entries of doctor `d` share a position (the schema does not promise it). */
  predicate DistinctPositions(es: seq<QueueEntry>, d: DoctorId) {
    forall i, j :: 0 <= i < |es| && 0 <= j < |es| && i != j && es[i].doctor == d && es[j].doctor == d
      ==> es[i].position != es[j].position
  }

  /**
   * Where `filter(doctor=d).order_by('position').first()` is: an entry of
   * `d` of least position (the earliest stored one on a tie), or nothing.
   */
  function HeadIndex(es: seq<QueueEntry>, d: DoctorId): (r: Option<nat>)
    ensures r.None? <==> NoEntriesOf(es, d)
    ensures r.Some? ==> r.value < |es| && es[r.value].doctor == d && NoneBelow(es, d, es[r.value].position)
  {
    if |es| == 0 then None
    else
      var rest := HeadIndex(es[..|es| - 1], d);
      var last := |es| - 1;
      if es[last].doctor != d then rest
      else if rest.Some? && es[rest.value].position <= es[last].position then rest
      else Some(last)
  }

  /**
   * Where `filter(doctor=d).order_by('position').last()` is: an entry of
   * `d` of greatest position (the latest stored one on a tie), or nothing.
   */
  function TailIndex(es: seq<QueueEntry>, d: DoctorId): (r: Option<nat>)
    ensures r.None? <==> NoEntriesOf(es, d)
    ensures r.Some? ==> r.value < |es| && es[r.value].doctor == d && NoneAbove(es, d, es[r.value].position)
  {
    if |es| == 0 then None
    else
      var rest := TailIndex(es[..|es| - 1], d);
      var last := |es| - 1;
      if es[last].doctor != d then rest
      else if rest.Some? && es[rest.value].position > es[last].position then rest
      else Some(last)
  }

  /** The head entry of doctor `d`'s queue. */
  function Head(es: seq<QueueEntry>, d: DoctorId): Option<QueueEntry> {
    match HeadIndex(es, d)
    case None => None
    case Some(i) => Some(es[i])
  }

  /** The tail entry of doctor `d`'s queue. */
  function Tail(es: seq<QueueEntry>, d: DoctorId): Option<QueueEntry> {
    match TailIndex(es, d)
    case None => None
    case Some(i) => Some(es[i])
  }

  /** The table without its `i`-th row (`delete()` of that row). */
  function RemoveAt(es: seq<QueueEntry>, i: nat): (r: seq<QueueEntry>)
    requires i < |es|
    ensures |r| == |es| - 1
    ensures forall k :: 0 <= k < |r| ==> r[k] == if k < i then es[k] else es[k + 1]
    ensures multiset(r) + multiset{es[i]} == multiset(es)
  {
    assert es == es[..i] + [es[i]] + es[i + 1..];
    es[..i] + es[i + 1..]
  }

  /** The table after serving doctor `d`: the head entry deleted, if there is one. */
  function AfterNext(es: seq<QueueEntry>, d: DoctorId): seq<QueueEntry> {
    match HeadIndex(es, d)
    case None => es
    case Some(i) => RemoveAt(es, i)
  }

  /** The announcement for a selected entry, or the empty-queue message. */
  function Announced(selected: Option<QueueEntry>): CallResult {
    match selected
    case None => NoPatients
    case Some(e) => Announce(Announcement.VoiceFiles(e.position))
  }

  /** Doctor `d`'s entries in storage order (`filter(doctor=d)`). */
  function DoctorQueue(es: seq<QueueEntry>, d: DoctorId): (q: seq<QueueEntry>)
    ensures forall e :: e in q <==> e in es && e.doctor == d
  {
    if |es| == 0 then []
    else if es[0].doctor == d then [es[0]] + DoctorQueue(es[1..], d)
    else DoctorQueue(es[1..], d)
  }

  lemma {:induction false} DoctorQueueAppend(a: seq<QueueEntry>, b: seq<QueueEntry>, d: DoctorId)
    ensures DoctorQueue(a + b, d) == DoctorQueue(a, d) + DoctorQueue(b, d)
  {
    if |a| > 0 {
      assert (a + b)[1..] == a[1..] + b;
      DoctorQueueAppend(a[1..], b, d);
    } else {
      assert a + b == b;
    }
  }

  /** Deleting a row of one doctor leaves every other doctor's queue exactly as it was. */
  lemma RemoveAtKeepsOtherQueues(es: seq<QueueEntry>, i: nat, d: DoctorId)
    requires i < |es| && es[i].doctor != d
    ensures DoctorQueue(RemoveAt(es, i), d) == DoctorQueue(es, d)
  {
    assert es == es[..i] + ([es[i]] + es[i + 1..]);
    DoctorQueueAppend(es[..i], [es[i]] + es[i + 1..], d);
    DoctorQueueAppend([es[i]], es[i + 1..], d);
    DoctorQueueAppend(es[..i], es[i + 1..], d);
    assert DoctorQueue([es[i]], d) == [] by {
      assert [es[i]][1..] == [];
    }
  }

  /** Serving doctor `d` does not touch any other doctor's queue. */
  lemma AfterNextKeepsOtherQueues(es: seq<QueueEntry>, d: DoctorId, other: DoctorId)
    requires other != d
    ensures DoctorQueue(AfterNext(es, d), other) == DoctorQueue(es, other)
  {
    if HeadIndex(es, d).Some? {
      RemoveAtKeepsOtherQueues(es, HeadIndex(es, d).value, other);
    }
  }

  /**
   * Serving doctor `d` deletes exactly the head entry: the table loses that
   * one row and nothing else, and `d`'s queue is one shorter.
   */
  lemma AfterNextRemovesHead(es: seq<QueueEntry>, d: DoctorId)
    ensures Head(es, d).None? ==> AfterNext(es, d) == es
    ensures Head(es, d).Some? ==>
      multiset(AfterNext(es, d)) + multiset{Head(es, d).value} == multiset(es) &&
      |DoctorQueue(AfterNext(es, d), d)| + 1 == |DoctorQueue(es, d)|
  {
    if HeadIndex(es, d).Some? {
      var i := HeadIndex(es, d).value;
      assert es == es[..i] + ([es[i]] + es[i + 1..]);
      DoctorQueueAppend(es[..i], [es[i]] + es[i + 1..], d);
      DoctorQueueAppend([es[i]], es[i + 1..], d);
      DoctorQueueAppend(es[..i], es[i + 1..], d);
      assert DoctorQueue([es[i]], d) == [es[i]] by {
        assert [es[i]][1..] == [];
      }
    }
  }

  /** With distinct row ids, the served entry is gone from the table. */
  lemma AfterNextDropsServedId(es: seq<QueueEntry>, d: DoctorId)
    requires forall i, j :: 0 <= i < |es| && 0 <= j < |es| && i != j ==> es[i].id != es[j].id
    requires Head(es, d).Some?
    ensures forall e :: e in AfterNext(es, d) ==> e.id != Head(es, d).value.id
  {
    var i := HeadIndex(es, d).value;
    var r := RemoveAt(es, i);
    forall e | e in r
      ensures e.id != es[i].id
    {
      var k :| 0 <= k < |r| && r[k] == e;
    }
  }

  /** Patients are served in position order: the next head is never ahead of the one just served. */
  lemma AfterNextServesInOrder(es: seq<QueueEntry>, d: DoctorId)
    requires Head(es, d).Some? && Head(AfterNext(es, d), d).Some?
    ensures Head(es, d).value.position <= Head(AfterNext(es, d), d).value.position
  {
    var i := HeadIndex(es, d).value;
    var r := RemoveAt(es, i);
    var k := HeadIndex(r, d).value;
    assert r[k] == if k < i then es[k] else es[k + 1];
  }

  /** When `d`'s positions are distinct, the head is the only entry of least position. */
  lemma HeadIsUniqueWhenPositionsDistinct(es: seq<QueueEntry>, d: DoctorId, i: nat)
    requires DistinctPositions(es, d)
    requires i < |es| && es[i].doctor == d && NoneBelow(es, d, es[i].position)
    ensures HeadIndex(es, d) == Some(i)
  {
    var h := HeadIndex(es, d).value;
    assert es[h].position <= es[i].position && es[i].position <= es[h].position;
  }

  /** The queue table with the doctors and patients its rows refer to. */
  class ClinicQueue {
    var doctors: set<DoctorId>
    var patients: set<PatientId>
    var entries: seq<QueueEntry>
    /** The next auto-increment primary key. */
    var nextId: nat

    /** Row ids are distinct and already issued; every row refers to an existing doctor and patient. */
    ghost predicate Valid()
      reads this
    {
      (forall i :: 0 <= i < |entries| ==>
         entries[i].id < nextId && entries[i].doctor in doctors && entries[i].patient in patients) &&
      (forall i, j :: 0 <= i < |entries| && 0 <= j < |entries| && i != j ==> entries[i].id != entries[j].id)
    }

    constructor (doctors: set<DoctorId>, patients: set<PatientId>)
      ensures Valid()
      ensures this.doctors == doctors && this.patients == patients && entries == []
    {
      this.doctors := doctors;
      this.patients := patients;
      entries := [];
      nextId := 0;
    }

    /**
     * `QueueListCreateView` POST: the request supplies patient, doctor and
     * position; the row gets a fresh id and its creation time. Any position
     * is accepted, including one already queued for the doctor.
     */
    method Enqueue(patient: PatientId, doctor: DoctorId, position: nat, now: int) returns (r: CreateResult)
      requires Valid()
      modifies this
      ensures Valid()
      ensures doctors == old(doctors) && patients == old(patients)
      ensures r.Created? <==> doctor in doctors && patient in patients
      ensures r.Created? ==>
        r.entry == QueueEntry(old(nextId), patient, doctor, position, now) &&
        entries == old(entries) + [r.entry] && nextId == old(nextId) + 1 &&
        forall e :: e in old(entries) ==> e.id != r.entry.id
      ensures r.InvalidReference? ==> entries == old(entries) && nextId == old(nextId)
    {
      if doctor !in doctors || patient !in patients {
        return InvalidReference;
      }
      var e := QueueEntry(nextId, patient, doctor, position, now);
      entries := entries + [e];
      nextId := nextId + 1;
      r := Created(e);
    }

    /** Deletes doctor `d`'s head entry, if any, and returns it. */
    method PopHead(d: DoctorId) returns (head: Option<QueueEntry>)
      requires Valid()
      modifies this
      ensures Valid()
      ensures doctors == old(doctors) && patients == old(patients) && nextId == old(nextId)
      ensures head == Head(old(entries), d)
      ensures entries == AfterNext(old(entries), d)
    {
      var h := HeadIndex(entries, d);
      if h.None? {
        return None;
      }
      head := Some(entries[h.value]);
      entries := RemoveAt(entries, h.value);
    }

    /**
     * `CallPatientView.get`: the doctor is looked up first (404), then the
     * call type (400); an empty queue is a success with a message.
     */
    method Call(d: DoctorId, callType: string) returns (r: CallResult)
      requires Valid()
      modifies this
      ensures Valid()
      ensures doctors == old(doctors) && patients == old(patients) && nextId == old(nextId)
      ensures d !in doctors ==> r == DoctorNotFound && entries == old(entries)
      ensures d in doctors && !IsCallType(callType) ==> r == InvalidCallType && entries == old(entries)
      ensures d in doctors && IsCallType(callType) && NoEntriesOf(old(entries), d) ==>
        r == NoPatients && entries == old(entries)
      ensures d in doctors && callType == "initial" ==>
        r == Announced(Head(old(entries), d)) && entries == old(entries)
      ensures d in doctors && callType == "next" ==>
        r == Announced(Head(old(entries), d)) && entries == AfterNext(old(entries), d)
      ensures d in doctors && callType == "last" ==>
        r == Announced(Tail(old(entries), d)) && entries == old(entries)
    {
      if d !in doctors {
        return DoctorNotFound;
      }
      var selected: Option<QueueEntry>;
      if callType == "initial" {
        selected := Head(entries, d);
      } else if callType == "next" {
        selected := PopHead(d);
      } else if callType == "last" {
        selected := Tail(entries, d);
      } else {
        return InvalidCallType;
      }
      if selected.None? {
        return NoPatients;
      }
      r := Announce(Announcement.VoiceFiles(selected.value.position));
    }

    /** `NextPatientView.get`: deletes the head entry and names its patient. */
    method Next(d: DoctorId) returns (r: NextResult)
      requires Valid()
      modifies this
      ensures Valid()
      ensures doctors == old(doctors) && patients == old(patients) && nextId == old(nextId)
      ensures d !in doctors ==> r == UnknownDoctor && entries == old(entries)
      ensures d in doctors ==> entries == AfterNext(old(entries), d)
      ensures d in doctors && Head(old(entries), d).None? ==> r == QueueEmpty
      ensures d in doctors && Head(old(entries), d).Some? ==> r == NextPatient(Head(old(entries), d).value.patient)
    {
      if d !in doctors {
        return UnknownDoctor;
      }
      var served := PopHead(d);
      if served.None? {
        return QueueEmpty;
      }
      r := NextPatient(served.value.patient);
    }
  }
}
