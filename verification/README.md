# Clinic visit queue, announcements, free times and ID-card fields

A Dafny model of the logic inside a Django clinic backend (`user/views.py`
over the tables of `user/models.py`):

- **Visit queue** (`VisitQueue`): each doctor's queue is that doctor's
  `Queue` rows ordered by `position`. The class `ClinicQueue` holds the table
  as a sequence of rows and the sets of existing doctors and patients.
  - `Call` is the call-out view. For `initial` it announces the head (least
    position) and keeps it. For `next` it deletes the head and announces it.
    For `last` it announces the tail (greatest position).
  - The doctor is looked up before the call type is checked, so an unknown
    doctor gives 404 even when the call type is invalid. An invalid call type
    gives 400. An empty queue is a success with the "No patients in queue"
    message.
  - `Next` is the next-patient view: it deletes the head and names its patient.
  - `Enqueue` is the queue create view: the request supplies the position.
- **Announcement** (`Announcement`): a queue number up to 20 is one clip,
  `voice/PS1505-iww234963dgd-www/<n>.mp3`. A larger number is a tens clip
  `<tens>o.mp3` followed by a units clip `<units>.mp3`. A decoder reads a
  clip list back as a number, and every announcement decodes to the number
  it announces.
- **Free times** (`Availability`): a Friday is refused. On any other day the
  eight default times are offered minus the ones already booked with that
  doctor on that day, in chronological order.
- **ID-card fields** (`IdCardOcr`): the recognised text is stripped and split
  at runs of line breaks. Field *i* is line *i*, or `Unknown` when there are
  fewer lines.
- **Schema** (`Schema`): the row shapes, `max_length` bounds, unique
  columns, the `(doctor, date, time)` uniqueness of reservations, reservation
  defaults, and the cascade that follows a doctor's deletion.

Two points of the code shape the model:

- Positions are not assigned by the system and are not unique. They come
  from the request, and the column is a `PositiveIntegerField`, which
  accepts 0. So the head is "an entry of least position". When two entries
  of a doctor share a position, the model picks the earliest stored one for
  the head and the latest stored one for the tail.
  `HeadIsUniqueWhenPositionsDistinct` shows that the choice is forced when
  positions are distinct.
- The announcement is defined for every non-negative number, 0 included.

Because the text is split with `re.split` after stripping, there is always
at least one line. So `national_id` is never the `Unknown` default; for
blank text it is the empty string (`CardFromTextFields`).

## Model

| member | source | states |
|---|---|---|
| `Announcement.Decimal` | user/views.py:127 | the rendering of a number is a non-empty string of decimal digits without a leading zero; 0 is rendered as the single digit `0` |
| `Announcement.ParseDecimalOfDecimal` | user/views.py:127 | reading the decimal rendering of `n` back gives `n` |
| `Announcement.ClipNameOfClip` | user/views.py:127 | the clip name can be recovered from a clip path (`VOICE_PATH` prefix, `.mp3` suffix) |
| `Announcement.VoiceFiles` | user/views.py:125-131 | one clip exactly when n <= 20, whose name is the decimal of n. Otherwise two clips: the first named by the decimal of (n//10)*10 followed by `o`, the second by the decimal of n%10. These are a multiple of ten and a digit that add up to n |
| `Announcement.VoiceFilesRoundTrip` | user/views.py:125-131 | every announcement decodes to the number announced. The decoder reads one clip as its number, and two clips as the sum of the `o`-suffixed first clip's number and the second clip's number |
| `Announcement.VoiceFilesInjective` | user/views.py:125-131 | different queue numbers never get the same clip list |
| `Announcement.VoiceFilesExamples` | user/views.py:96-131 | the exact clip paths for 5, 20, 21, 30 and 47 |
| `VisitQueue.HeadIndex` | user/views.py:104-109 | `first()` of the doctor's position-ordered rows: nothing exactly when the doctor has no rows, otherwise one of their rows with no smaller position |
| `VisitQueue.TailIndex` | user/views.py:112-113 | `last()` of the doctor's position-ordered rows: nothing exactly when the doctor has no rows, otherwise one of their rows with no greater position |
| `VisitQueue.RemoveAt` | user/views.py:111 | deleting one row loses exactly that row: the other rows stay in their order and the multiset drops only that row |
| `VisitQueue.DoctorQueue` | user/views.py:104 | a doctor's queue holds exactly the rows of that doctor |
| `VisitQueue.RemoveAtKeepsOtherQueues` | user/views.py:111 | deleting a row of one doctor leaves every other doctor's queue identical |
| `VisitQueue.AfterNextKeepsOtherQueues` | user/views.py:108-111 | serving one doctor never changes another doctor's queue |
| `VisitQueue.AfterNextRemovesHead` | user/views.py:172-174 | serving removes exactly the head row (multiset difference of one), shortens the doctor's queue by one, and changes nothing on an empty queue |
| `VisitQueue.AfterNextDropsServedId` | user/views.py:174 | with distinct row ids, the served row is no longer in the table |
| `VisitQueue.AfterNextServesInOrder` | user/views.py:172-174 | the next head never has a smaller position than the row just served |
| `VisitQueue.HeadIsUniqueWhenPositionsDistinct` | user/models.py:91 | when a doctor's positions are distinct, the only least-position row is the head |
| `VisitQueue.ClinicQueue.Enqueue` | user/views.py:157-163 | a row is created exactly when the doctor and patient exist, whatever its position. It gets a fresh id and its creation timestamp, is appended, and the id counter advances by one. Otherwise nothing changes |
| `VisitQueue.ClinicQueue.PopHead` | user/views.py:108-111 | returns the doctor's head row and deletes exactly it; with no head nothing changes |
| `VisitQueue.ClinicQueue.Call` | user/views.py:102-123 | 404 for an unknown doctor, checked before the call type; 400 for another call type; "No patients in queue" for an empty queue. `initial` and `last` announce the head and tail positions and leave the table unchanged; `next` announces the head's position and deletes that row. Every case keeps the table invariant |
| `VisitQueue.ClinicQueue.Next` | user/views.py:169-178 | 404 for an unknown doctor, leaving the table unchanged. Otherwise the head row is deleted and its patient named, or "No patients in queue" when there is none |
| `Schema.Weekday` | user/views.py:45 | Python's weekday number of a date is in 0..6 |
| `Schema.WeekdayCalendar` | user/views.py:45 | 0001-01-01 is a Monday (0), each next day is the next weekday modulo 7, and 2024-01-05 (ordinal 738890) is a Friday (4) |
| `Schema.MinutesIdentifyClockTime` | user/models.py:77 | two valid clock times (hour < 24, minute < 60) with the same minute of the day are the same time |
| `Schema.InsertUnique` | user/models.py:81-82 | an insert is refused exactly when its key is taken; an accepted insert appends the row and keeps the key unique |
| `Schema.BookReservation` | user/models.py:81-82 | a reservation is saved exactly when its (doctor, date, time) is free. The saved table is the old rows followed by the new one, and it stays free of duplicate slots |
| `Schema.AdmitCard` | user/models.py:8-13 | a card with a field over its `max_length` is refused as too long. One that fits but whose `national_id` (at most 10 characters) is taken is refused as a duplicate. Otherwise the table becomes the old rows followed by the card, still unique and within bounds |
| `Schema.AdmitPatient` | user/models.py:52-58 | a patient with a field over its `max_length` is refused as too long. One that fits but whose `national_code` (at most 10 characters) is taken is refused as a duplicate. Otherwise the table becomes the old rows followed by the patient, still unique and within bounds |
| `Schema.NewReservation` | user/models.py:73-79 | a missing date defaults to today, a missing time to 09:00, and the reservation instant is the creation time |
| `Schema.Keep` | user/models.py:75 | a cascaded delete keeps exactly the rows that do not refer to the deleted parent |
| `Schema.KeepPreservesUnique` | user/models.py:81-82 | removing rows never breaks a uniqueness constraint |
| `Schema.DeleteDoctor` | user/models.py:73-99 | deleting a doctor removes exactly that doctor's queue, reservation and service rows and keeps all others; slot and service-code uniqueness survive |
| `Availability.BookedTimes` | user/views.py:49 | the booked times are exactly the times of that doctor's reservations on that date |
| `Availability.Without` | user/views.py:50 | the comprehension keeps exactly the elements not in the excluded list |
| `Availability.WithoutKeepsOrder` | user/views.py:48-50 | filtering a chronological list leaves it chronological |
| `Availability.DefaultTimesAreClockTimes` | user/views.py:48 | every default time is a valid clock time |
| `Availability.AvailableTimes` | user/views.py:29-52 | 404 exactly for an unknown doctor; then 400 for a missing date, a malformed date, and a Friday. Any other day gives a chronological list holding exactly the default times that no reservation of that doctor on that date takes |
| `Availability.AvailableAsWritten` | user/views.py:48-50 | as written, the list holds the default strings that are not equal to any booked time value |
| `Availability.AsWrittenIgnoresBookings` | user/views.py:48-50 | as written, every default time is offered whatever is booked |
| `Availability.BookedNineStillOffered` | user/views.py:48-50 | with a 09:00 booking, the code as written still offers "9:00", while `AvailableTimes` withholds it |
| `IdCardOcr.TrimStart` | user/views.py:72 | drops exactly the leading whitespace |
| `IdCardOcr.TrimEnd` | user/views.py:72 | drops exactly the trailing whitespace |
| `IdCardOcr.Strip` | user/views.py:72 | neither end of the stripped text is whitespace; text already trimmed is unchanged |
| `IdCardOcr.StripIsTrimmedSlice` | user/views.py:72 | the stripped text is the slice of the text between a whitespace prefix and a whitespace suffix |
| `IdCardOcr.SplitLines` | user/views.py:72 | splitting gives at least one line and no line holds a line break |
| `IdCardOcr.DropBreaksOfSplit` | user/views.py:72 | removing breaks from a line, a run of breaks and the rest gives the line followed by the rest's characters |
| `IdCardOcr.SplitLinesKeepsText` | user/views.py:72 | the lines, concatenated, are the text without its line breaks |
| `IdCardOcr.JoinSplitLinesAll` | user/views.py:72 | for every text, joining the lines with single breaks gives the text with each run of line breaks shortened to one break (`Collapse`): the text is cut exactly at each maximal run of breaks, which fixes every line |
| `IdCardOcr.JoinSplitLines` | user/views.py:72 | when no two line breaks are adjacent, joining the lines with single breaks gives the text back (a corollary: such text has nothing to collapse) |
| `IdCardOcr.SplitLinesNoEmptyLine` | user/views.py:72 | stripped, non-blank text splits into non-empty lines |
| `IdCardOcr.CardInfo` | user/views.py:75-81 | the card has exactly the five keys, and field i is line i or "Unknown" when there are fewer lines |
| `IdCardOcr.CardInfoListsFirstLines` | user/views.py:75-81 | with five or more lines the fields are the first five lines in order |
| `IdCardOcr.CardFromTextFields` | user/views.py:69-81 | `national_id` is always the first line, never the default. Every field is "Unknown" or a line without breaks, and it is non-empty when the text has a visible character |

## Left out

- Concurrency: each view call is one sequential method call. The source reads the head and then deletes it with nothing guarding the two steps, so simultaneous callers are not modelled.
- HTTP and authentication: token authentication, the permission classes, and response bodies other than the result datatypes are not modelled.
- The "Next patient" message names the patient's username. The model returns the patient id, because the user lookup is outside the model.
- Date parsing with `strptime` is not modelled: the date arrives as missing, malformed or a day ordinal. Times are kept at minute precision.
- `Schema.TimeOfDay`: the datatype admits out-of-range values such as 8:60. Only `IsClockTime` values stand for `TimeField` contents, but reservation rows are not required to satisfy it.
- The recogniser, base64 decoding and image opening in the OCR view (user/views.py:59-69) are not modelled, and neither is the 400 for a missing image. The recognised text is the input. A data URL without a comma, which raises in the source, is not modelled either.
- Serializer validation of the queue request: only the existence of the doctor and the patient is modelled. Missing or ill-typed fields are not.
- Registration, login, token issuance, specialty, service and reservation CRUD views, the serializers and the URL configuration are not modelled: they are framework glue.
- `__str__` and `full_details` formatting, `User`, `Specialty`, service prices and images, and the cascades from deleting a user or patient are not modelled.
- The `Queue.timestamp` auto-set is modelled only as `Enqueue` stamping the creation time. Rows are never modified afterwards, because the only other operations delete rows.
- `VisitQueue.HeadIndex`, `VisitQueue.TailIndex`: when positions tie, the database's order is unspecified. The model fixes one choice, and the contracts promise only "a least (greatest) position".

## Findings

| source | as written | input that shows it | evidently intended | confidence | as-written member | corrected member |
|---|---|---|---|---|---|---|
| user/views.py:48-50 | the default times are strings such as "9:00", and the booked times come from a `TimeField`, so `time not in booked_times` compares a string with a time value and is always true | a reservation of the doctor at 09:00 on a Wednesday: "9:00" is still listed as available | booked times are removed from the offer | not executed | `Availability.AvailableAsWritten` | `Availability.AvailableTimes` |
