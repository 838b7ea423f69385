// The clinic endpoints' pure core: reading a shift bound as hour and
// minute, the hourly appointment slots a shift offers once booked hours are
// removed, the booked hours taken from stored appointment date-times, and
// the doctor list that puts a customer's previously visited doctors first.
module ClinicHandlers {
  import opened Common
  import opened Text
  import opened Seqs
  import opened Store

  // -----------------------------------------------------------------------
  // parseTime
  // -----------------------------------------------------------------------

  /**
   * The time part of a driver value: for "0001-01-01T07:00:00Z" the piece
   * between the first and the second 'T', cut at its first 'Z'; a string
   * without 'T' is taken as it is.
   */
  function TimePart(s: string): string
  {
    if 'T' in s then
      var parts := Split(s, 'T');
      var timePart := parts[1];
      if 'Z' in timePart then Split(timePart, 'Z')[0] else timePart
    else s
  }

  /**
   * parseTime: the first two ':'-separated fields of the time part as
   * integers (a field that does not parse reads as 0); 9:00 when there are
   * fewer than two fields.
   */
  function ParseTime(s: string): (hm: (int, int))
    ensures ':' !in TimePart(s) ==> hm == (9, 0)
  {
    var parts := Split(TimePart(s), ':');
    if |parts| >= 2 then (AtoiOrZero(parts[0]), AtoiOrZero(parts[1])) else (9, 0)
  }

  /** "HH:MM" and "HH:MM:SS" read as their first two fields. */
  lemma ParseTimeFields(hh: string, mm: string, rest: string)
    requires ':' !in hh && ':' !in mm && 'T' !in hh + ":" + mm + rest
    requires rest == "" || rest[0] == ':'
    ensures ParseTime(hh + ":" + mm + rest) == (AtoiOrZero(hh), AtoiOrZero(mm))
  {
    var s := hh + ":" + mm + rest;
    assert TimePart(s) == s;
    assert s == hh + [':'] + (mm + rest);
    SplitAtFirst(hh, ':', mm + rest);
    if rest == "" {
      assert mm + rest == mm;
    } else {
      assert mm + rest == mm + [':'] + rest[1..];
      SplitAtFirst(mm, ':', rest[1..]);
    }
  }

  /** A driver date-time reads as its time part: the date and the trailing 'Z' are dropped. */
  lemma ParseTimeOfDateTime(d: string, t: string)
    requires 'T' !in d && 'T' !in t && 'Z' !in t
    ensures ParseTime(d + "T" + t + "Z") == ParseTime(t)
  {
    var s := d + "T" + t + "Z";
    assert s == d + ['T'] + (t + "Z");
    assert 'T' !in t + "Z";
    SplitAtFirst(d, 'T', t + "Z");
    assert Split(t + "Z", 'T') == [t + "Z"];
    assert s[|d|] == 'T';
    assert t + "Z" == t + ['Z'] + "";
    SplitAtFirst(t, 'Z', "");
    assert TimePart(s) == t;
  }

  /** The characters "%0Nd" prints: digits and a leading minus sign. */
  lemma FormatIntChars(i: int, w: nat)
    ensures forall k :: 0 <= k < |FormatInt(i, w)| ==> IsDigit(FormatInt(i, w)[k]) || FormatInt(i, w)[k] == '-'
  {
    if i < 0 {
      PaddedDigits(-i, if w > 0 then w - 1 else 0);
    } else {
      PaddedDigits(i, w);
    }
  }

  // -----------------------------------------------------------------------
  // generateTimeSlots
  // -----------------------------------------------------------------------

  /** The label of an hour slot, fmt.Sprintf("%02d:00", hour). */
  function TimeLabel(hour: int): string
  {
    FormatInt(hour, 2) + ":00"
  }

  /** Reading a slot label back gives its hour and minute 0. */
  lemma ParseTimeLabel(hour: int)
    ensures ParseTime(TimeLabel(hour)) == (hour, 0)
  {
    var f := FormatInt(hour, 2);
    FormatIntChars(hour, 2);
    FormatIntRoundTrip(hour, 2);
    AtoiDigits("00");
    assert TimeLabel(hour) == f + ":" + "00" + "";
    ParseTimeFields(f, "00", "");
  }

  /** An hour of the day has a five-character label. */
  lemma TimeLabelLength(hour: int)
    requires 0 <= hour < 100
    ensures |TimeLabel(hour)| == 5
  {
    FormatIntWidth(hour, 2);
  }

  /** Distinct hours have distinct labels. */
  lemma TimeLabelInjective(a: int, b: int)
    requires TimeLabel(a) == TimeLabel(b)
    ensures a == b
  {
    ParseTimeLabel(a);
    ParseTimeLabel(b);
  }

  /** The slots of the hours in [lo, hi) whose labels are not booked, in ascending order. */
  function Slots(lo: int, hi: int, booked: set<string>): (r: seq<string>)
    ensures hi <= lo ==> r == []
    ensures hi > lo ==> |r| <= hi - lo
    decreases hi - lo
  {
    if hi <= lo then []
    else Slots(lo, hi - 1, booked) + (if TimeLabel(hi - 1) in booked then [] else [TimeLabel(hi - 1)])
  }

  /** A label is offered exactly when it is the label of an hour of the range and is not booked. */
  lemma {:induction false} SlotsMembers(lo: int, hi: int, booked: set<string>, x: string)
    ensures x in Slots(lo, hi, booked) <==> (exists h :: lo <= h < hi && x == TimeLabel(h)) && x !in booked
    decreases hi - lo
  {
    if hi > lo {
      var tail := if TimeLabel(hi - 1) in booked then [] else [TimeLabel(hi - 1)];
      assert Slots(lo, hi, booked) == Slots(lo, hi - 1, booked) + tail;
      SlotsMembers(lo, hi - 1, booked, x);
      if x in tail {
        assert lo <= hi - 1 < hi && x == TimeLabel(hi - 1);
      }
      if (exists h :: lo <= h < hi && x == TimeLabel(h)) && x !in booked {
        var h :| lo <= h < hi && x == TimeLabel(h);
        if h == hi - 1 {
          assert x in tail;
        }
      }
    }
  }

  /** Every slot is the label of its own hour, which lies in the range. */
  lemma {:induction false} SlotsHours(lo: int, hi: int, booked: set<string>)
    ensures forall i :: 0 <= i < |Slots(lo, hi, booked)| ==> lo <= ParseTime(Slots(lo, hi, booked)[i]).0 < hi
    ensures forall i :: 0 <= i < |Slots(lo, hi, booked)| ==>
              Slots(lo, hi, booked)[i] == TimeLabel(ParseTime(Slots(lo, hi, booked)[i]).0)
    decreases hi - lo
  {
    if hi > lo {
      var s, r := Slots(lo, hi - 1, booked), Slots(lo, hi, booked);
      SlotsHours(lo, hi - 1, booked);
      ParseTimeLabel(hi - 1);
      forall i | 0 <= i < |r| ensures lo <= ParseTime(r[i]).0 < hi && r[i] == TimeLabel(ParseTime(r[i]).0) {
        if i < |s| {
          assert r[i] == s[i];
        } else {
          assert r[i] == TimeLabel(hi - 1);
        }
      }
    }
  }

  /** The slots come in strictly increasing hour order, so none repeats. */
  lemma {:induction false} SlotsAscending(lo: int, hi: int, booked: set<string>)
    ensures forall i, j :: 0 <= i < j < |Slots(lo, hi, booked)| ==>
              ParseTime(Slots(lo, hi, booked)[i]).0 < ParseTime(Slots(lo, hi, booked)[j]).0

    ensures forall i, j :: 0 <= i < j < |Slots(lo, hi, booked)| ==>
              Slots(lo, hi, booked)[i] != Slots(lo, hi, booked)[j]
    decreases hi - lo
  {
    if hi > lo {
      SlotsAscending(lo, hi - 1, booked);
      SlotsHours(lo, hi - 1, booked);
      ParseTimeLabel(hi - 1);
    }
  }

  /** The bookings as `bookedMap`: every booked label maps to true. */
  method BookedMap(bookedTimes: seq<string>) returns (bookedMap: map<string, bool>)
    ensures forall k :: k in bookedMap <==> k in bookedTimes
    ensures forall k :: k in bookedMap ==> bookedMap[k]
  {
    bookedMap := map[];
    for i := 0 to |bookedTimes|
      invariant forall k :: k in bookedMap <==> k in bookedTimes[..i]
      invariant forall k :: k in bookedMap ==> bookedMap[k]
    {
      bookedMap := bookedMap[bookedTimes[i] := true];
    }
    assert bookedTimes[..|bookedTimes|] == bookedTimes;
  }

  /**
   * generateTimeSlots: one label per hour from the start hour up to, not
   * including, the end hour, skipping booked labels; the minutes of the
   * bounds are read and not used.
   */
  method GenerateTimeSlots(startTime: string, endTime: string, bookedTimes: seq<string>) returns (slots: seq<string>)
    ensures slots == Slots(ParseTime(startTime).0, ParseTime(endTime).0, set b | b in bookedTimes)
  {
    var (startHour, _) := ParseTime(startTime);
    var (endHour, _) := ParseTime(endTime);
    var bookedMap := BookedMap(bookedTimes);
    ghost var booked := set b | b in bookedTimes;
    slots := [];
    var hour := startHour;
    while hour < endHour
      invariant startHour <= hour && (hour <= endHour || hour == startHour)
      invariant slots == Slots(startHour, hour, booked)
      decreases endHour - hour
    {
      var timeSlot := TimeLabel(hour);
      if !(timeSlot in bookedMap && bookedMap[timeSlot]) {
        slots := slots + [timeSlot];
      }
      hour := hour + 1;
    }
  }

  /** A shift of 08:30-12:00 offers the same slots as 08:00-12:00. */
  lemma StartMinutesIgnored(booked: set<string>)
    ensures Slots(ParseTime("08:30").0, ParseTime("12:00").0, booked)
         == Slots(ParseTime("08:00").0, ParseTime("12:00").0, booked)
  {
    EightOClockHour("08:30");
    EightOClockHour("08:00");
  }

  /** "08:30" and "08:00" both read as hour 8. */
  lemma EightOClockHour(s: string)
    requires s == "08:30" || s == "08:00"
    ensures ParseTime(s).0 == 8
  {
    var mm := s[3..];
    assert s == "08" + ":" + mm + "";
    AtoiDigits("08");
    ParseTimeFields("08", mm, "");
  }

  // -----------------------------------------------------------------------
  // Booked times
  // -----------------------------------------------------------------------

  /** The booked labels read from the date-time column: characters 11 to 16 of every value of at least 16 characters. */
  function BookedTimes(rows: seq<Cell>): (r: seq<string>)
    ensures |r| <= |rows|
    ensures forall x :: x in r ==> |x| == 5
    ensures forall x :: x in r <==> exists i :: 0 <= i < |rows| && rows[i].Text? && |rows[i].text| >= 16 && x == rows[i].text[11..16]
  {
    if rows == [] then []
    else
      var last := rows[|rows| - 1];
      var before := BookedTimes(rows[..|rows| - 1]);
      assert forall i :: 0 <= i < |rows| - 1 ==> rows[..|rows| - 1][i] == rows[i];
      before + (if last.Text? && |last.text| >= 16 then [last.text[11..16]] else [])
  }

  /** The rows loop: a value is kept only when it scans as text and is long enough. */
  method ExtractBookedTimes(rows: seq<Cell>) returns (bookedTimes: seq<string>)
    ensures bookedTimes == BookedTimes(rows)
  {
    bookedTimes := [];
    for i := 0 to |rows|
      invariant bookedTimes == BookedTimes(rows[..i])
    {
      assert rows[..i + 1][..i] == rows[..i];
      var bookedTime := rows[i];
      if bookedTime.Text? && |bookedTime.text| >= 16 {
        bookedTimes := bookedTimes + [bookedTime.text[11..16]];
      }
    }
    assert rows[..|rows|] == rows;
  }

  /** An appointment stored at the full hour h of some day takes away the slot of h. */
  lemma BookedHourNotOffered(rows: seq<Cell>, i: int, date: string, hour: int, lo: int, hi: int)
    requires 0 <= i < |rows| && |date| == 10 && 0 <= hour < 100
    requires rows[i] == Text(date + "T" + TimeLabel(hour) + ":00Z")
    ensures TimeLabel(hour) !in Slots(lo, hi, set x | x in BookedTimes(rows))
  {
    TimeLabelLength(hour);
    var v := date + "T" + TimeLabel(hour) + ":00Z";
    assert v[11..16] == TimeLabel(hour);
    assert TimeLabel(hour) in BookedTimes(rows);
    SlotsMembers(lo, hi, (set x | x in BookedTimes(rows)), TimeLabel(hour));
  }

  // -----------------------------------------------------------------------
  // GET /clinics/:id/schedules
  // -----------------------------------------------------------------------

  /** The columns the work-shift lookup matches on. */
  function ShiftSlotKey(r: ScheduleRow): (string, string, string) { (r.doctor, r.date, r.status) }

  /** The shift the lookup reads: the first AVAILABLE one of the doctor on the date. */
  function WorkShift(db: Db, doctorId: string, date: string): (r: Option<ScheduleRow>)
    ensures r.Some? ==> r.value in db.schedules && r.value.doctor == doctorId && r.value.date == date
                        && r.value.status == AVAILABLE
    ensures r.None? <==> forall s :: s in db.schedules ==> !(s.doctor == doctorId && s.date == date && s.status == AVAILABLE)
  {
    FirstOf(db.schedules, ShiftSlotKey, (doctorId, date, AVAILABLE))
  }

  /**
   * An appointment the booked query returns: same doctor, the date part of
   * its date-time is the date, and a status other than CANCELLED and
   * NO_SHOW (a NULL status fails `NOT IN`).
   */
  predicate TakesSlot(a: AppointmentRow, doctorId: string, date: string)
  {
    a.doctor == doctorId && a.dateTime.Text? && |a.dateTime.text| >= 10 && a.dateTime.text[..10] == date
    && a.status.Text? && a.status.text != "CANCELLED" && a.status.text != "NO_SHOW"
  }

  /** The date-time column of the booked query's rows, in storage order. */
  function BookedCells(apps: seq<AppointmentRow>, doctorId: string, date: string): (r: seq<Cell>)
    ensures forall c :: c in r <==> exists a :: a in apps && TakesSlot(a, doctorId, date) && c == a.dateTime
  {
    if apps == [] then []
    else
      var last := apps[|apps| - 1];
      assert apps == apps[..|apps| - 1] + [last];
      BookedCells(apps[..|apps| - 1], doctorId, date) + (if TakesSlot(last, doctorId, date) then [last.dateTime] else [])
  }

  /**
   * GetSchedules: doctor and date are required (400), in that order; a
   * doctor without an AVAILABLE shift that day gets success and no slots;
   * otherwise the shift's hours minus the booked ones.
   */
  method GetSchedules(db: Db, doctorId: string, date: string) returns (status: Status, slots: seq<string>)
    ensures status == BadRequest <==> doctorId == "" || date == ""
    ensures status != BadRequest ==> status == OK
    ensures status == OK && WorkShift(db, doctorId, date).None? ==> slots == []
    ensures status == OK && WorkShift(db, doctorId, date).Some? ==>
      var w := WorkShift(db, doctorId, date).value;
      slots == Slots(ParseTime(w.start).0, ParseTime(w.end).0, set b | b in BookedTimes(BookedCells(db.appointments, doctorId, date)))
  {
    if doctorId == "" {
      return BadRequest, [];
    }
    if date == "" {
      return BadRequest, [];
    }
    var found := FindFirst(db.schedules, ShiftSlotKey, (doctorId, date, AVAILABLE));
    if found.None? {
      return OK, [];
    }
    var shift := db.schedules[found.value];
    var bookedTimes := ExtractBookedTimes(BookedCells(db.appointments, doctorId, date));
    slots := GenerateTimeSlots(shift.start, shift.end, bookedTimes);
    status := OK;
  }

  // -----------------------------------------------------------------------
  // GET /clinics/:id/doctors: previously visited doctors first
  // -----------------------------------------------------------------------

  /** A doctor row of the list query, reduced to what the ordering reads. */
  datatype Doctor = Doctor(maUser: string, hoTen: string, chuyenKhoa: Cell)

  /** wasPreviouslyVisited: a scan of the customer's earlier doctors. */
  method WasPreviouslyVisited(previousDoctors: seq<string>, doctorId: string) returns (b: bool)
    ensures b <==> doctorId in previousDoctors
  {
    for i := 0 to |previousDoctors|
      invariant doctorId !in previousDoctors[..i]
    {
      if previousDoctors[i] == doctorId {
        return true;
      }
    }
    assert previousDoctors[..|previousDoctors|] == previousDoctors;
    return false;
  }

  /** The doctors of the list whose identifier is among the previous ones, in list order. */
  function Visited(doctors: seq<Doctor>, previous: seq<string>): seq<Doctor>
  {
    if doctors == [] then []
    else
      var last := doctors[|doctors| - 1];
      Visited(doctors[..|doctors| - 1], previous) + (if last.maUser in previous then [last] else [])
  }

  /** The other doctors, in list order. */
  function Others(doctors: seq<Doctor>, previous: seq<string>): seq<Doctor>
  {
    if doctors == [] then []
    else
      var last := doctors[|doctors| - 1];
      Others(doctors[..|doctors| - 1], previous) + (if last.maUser !in previous then [last] else [])
  }

  /** The visited group holds exactly the listed doctors seen before, the other group exactly the rest. */
  lemma {:induction false} GroupMembers(doctors: seq<Doctor>, previous: seq<string>, d: Doctor)
    ensures d in Visited(doctors, previous) <==> d in doctors && d.maUser in previous
    ensures d in Others(doctors, previous) <==> d in doctors && d.maUser !in previous
  {
    if doctors != [] {
      var init, last := doctors[..|doctors| - 1], doctors[|doctors| - 1];
      GroupMembers(init, previous, d);
      assert doctors == init + [last];
    }
  }

  /** Every doctor lands in exactly one group: the two groups together are a permutation of the list. */
  lemma {:induction false} PartitionIsPermutation(doctors: seq<Doctor>, previous: seq<string>)
    ensures multiset(Visited(doctors, previous) + Others(doctors, previous)) == multiset(doctors)
  {
    if doctors != [] {
      var init, last := doctors[..|doctors| - 1], doctors[|doctors| - 1];
      PartitionIsPermutation(init, previous);
      assert doctors == init + [last];
      if last.maUser in previous {
        assert Visited(doctors, previous) == Visited(init, previous) + [last];
      } else {
        assert Others(doctors, previous) == Others(init, previous) + [last];
      }
      GroupsGrow(Visited(init, previous), Others(init, previous), init, last,
                 Visited(doctors, previous), Others(doctors, previous));
    }
  }

  /** Adding one element to either of two groups that partition a list partitions the list extended by it. */
  lemma GroupsGrow<T>(v: seq<T>, o: seq<T>, s: seq<T>, x: T, v': seq<T>, o': seq<T>)
    requires multiset(v + o) == multiset(s)
    requires (v' == v + [x] && o' == o) || (v' == v && o' == o + [x])
    ensures multiset(v' + o') == multiset(s + [x])
  {
    assert multiset(v' + o') == multiset(v') + multiset(o');
    assert multiset(s + [x]) == multiset(s) + multiset{x};
  }

  /** Without earlier visits the list keeps the query's order. */
  lemma {:induction false} NoVisitsKeepsOrder(doctors: seq<Doctor>)
    ensures Visited(doctors, []) == [] && Others(doctors, []) == doctors
  {
    if doctors != [] {
      var init, last := doctors[..|doctors| - 1], doctors[|doctors| - 1];
      NoVisitsKeepsOrder(init);
      var empty: seq<string> := [];
      assert last.maUser !in empty;
      assert doctors[..|doctors| - 1] == init;
    }
  }

  /** The rows loop of GetDoctors: each doctor goes to one of the two groups, and the answer lists the visited group first. */
  method PartitionDoctors(doctors: seq<Doctor>, previousDoctors: seq<string>)
    returns (sorted: seq<Doctor>, visited: seq<Doctor>, other: seq<Doctor>)
    ensures visited == Visited(doctors, previousDoctors) && other == Others(doctors, previousDoctors)
    ensures sorted == visited + other
    ensures multiset(sorted) == multiset(doctors)
  {
    visited := [];
    other := [];
    for i := 0 to |doctors|
      invariant visited == Visited(doctors[..i], previousDoctors)
      invariant other == Others(doctors[..i], previousDoctors)
    {
      assert doctors[..i + 1][..i] == doctors[..i];
      var seen := WasPreviouslyVisited(previousDoctors, doctors[i].maUser);
      if seen {
        visited := visited + [doctors[i]];
      } else {
        other := other + [doctors[i]];
      }
    }
    assert doctors[..|doctors|] == doctors;
    sorted := visited + other;
    PartitionIsPermutation(doctors, previousDoctors);
  }

  /**
   * GetDoctors: earlier doctors are looked up only for a customer (the
   * visits query's result is a parameter); any other caller sees the list
   * in query order.
   */
  method GetDoctors(caller: Option<Caller>, visitRows: seq<string>, doctors: seq<Doctor>) returns (sorted: seq<Doctor>)
    ensures caller.Some? && caller.value.userType == CUSTOMER ==>
      sorted == Visited(doctors, visitRows) + Others(doctors, visitRows)
    ensures !(caller.Some? && caller.value.userType == CUSTOMER) ==> sorted == doctors
    ensures multiset(sorted) == multiset(doctors)
  {
    var previousDoctors: seq<string> := [];
    if caller.Some? && caller.value.userType == CUSTOMER {
      previousDoctors := visitRows;
    }
    var visited, other;
    sorted, visited, other := PartitionDoctors(doctors, previousDoctors);
    if previousDoctors == [] {
      NoVisitsKeepsOrder(doctors);
    }
  }
}
