/**
 * The coach dashboard's weekly availability table and AI summaries.
 *
 * Whatever availability rows the store returns for the coach are turned
 * into exactly one entry per day of the week (0 = Sunday ... 6 = Saturday),
 * with 09:00-17:00 for a day that has no stored row. The coach edits one
 * time of one day at a time, and saving maps the table to rows keyed by
 * (coach id, day of week) for an upsert. Summaries fetched for bookings are
 * kept in a map from booking id to text.
 *
 * Times are the strings of the `time` inputs ("HH:MM"); nothing in the
 * dashboard parses them. Store queries, the upsert itself, the session
 * check and the summary request are I/O: their results are parameters.
 */
module Dashboard {
  import opened Options

  /** One entry of the table shown and edited on the page. */
  datatype Availability = Availability(dayOfWeek: int, startTime: string, endTime: string)

  /** A row of the stored availability table, keyed by (coachId, dayOfWeek). */
  datatype StoredRow = StoredRow(coachId: string, dayOfWeek: int, startTime: string, endTime: string)

  /** The two editable fields of an entry. */
  datatype Field = StartTime | EndTime

  const Days: seq<string> := ["Sunday", "Monday", "Tuesday", "Wednesday", "Thursday", "Friday", "Saturday"]

  const DefaultStart: string := "09:00"
  const DefaultEnd: string := "17:00"

  /** A table with one entry per day of the week, entry `i` for day `i`. */
  ghost predicate IsWeek(table: seq<Availability>) {
    |table| == |Days| && forall i :: 0 <= i < |table| ==> table[i].dayOfWeek == i
  }

  /** `s || fallback`: the empty string counts as missing. */
  function OrElse(s: string, fallback: string): string {
    if s == "" then fallback else s
  }

  /** `k` is the position of the first row for `day`. */
  ghost predicate FirstWithDay(rows: seq<StoredRow>, day: int, k: int) {
    0 <= k < |rows| && rows[k].dayOfWeek == day && forall j :: 0 <= j < k ==> rows[j].dayOfWeek != day
  }

  /** No row is for `day`. */
  ghost predicate NoRowFor(rows: seq<StoredRow>, day: int) {
    forall k :: 0 <= k < |rows| ==> rows[k].dayOfWeek != day
  }

  /** `rows.find(d => d.day_of_week === day)`: the first row for `day`, if any. */
  function FindDay(rows: seq<StoredRow>, day: int): (r: Option<StoredRow>)
    ensures r.None? <==> NoRowFor(rows, day)
    ensures forall k :: FirstWithDay(rows, day, k) ==> r == Some(rows[k])
  {
    if rows == [] then None
    else if rows[0].dayOfWeek == day then Some(rows[0])
    else
      var r := FindDay(rows[1..], day);
      assert forall k :: FirstWithDay(rows, day, k) ==> FirstWithDay(rows[1..], day, k - 1);
      assert NoRowFor(rows[1..], day) ==> NoRowFor(rows, day) by {
        if NoRowFor(rows[1..], day) {
          forall k | 0 <= k < |rows| ensures rows[k].dayOfWeek != day {
            if k > 0 { assert rows[k] == rows[1..][k - 1]; }
          }
        }
      }
      r
  }

  /** The entry for `day`: the first stored row's times, each falling back to its default. */
  function EntryFor(rows: seq<StoredRow>, day: int): Availability {
    match FindDay(rows, day)
    case None => Availability(day, DefaultStart, DefaultEnd)
    case Some(existing) =>
      Availability(day, OrElse(existing.startTime, DefaultStart), OrElse(existing.endTime, DefaultEnd))
  }

  /**
   * The table the page starts from: one entry per day, taken from the
   * first stored row for that day, with an empty stored time or a missing
   * row falling back to 09:00 / 17:00.
   */
  function Normalise(rows: seq<StoredRow>): (r: seq<Availability>)
    ensures IsWeek(r)
    ensures forall i, k :: 0 <= i < |r| && FirstWithDay(rows, i, k) ==>
      && r[i].startTime == (if rows[k].startTime == "" then DefaultStart else rows[k].startTime)
      && r[i].endTime == (if rows[k].endTime == "" then DefaultEnd else rows[k].endTime)
    ensures forall i :: 0 <= i < |r| && NoRowFor(rows, i) ==>
      r[i] == Availability(i, DefaultStart, DefaultEnd)
  {
    seq(|Days|, i requires 0 <= i < |Days| => EntryFor(rows, i))
  }

  /** `r` is `rows` with some rows dropped, the rest kept in order. */
  ghost predicate Subsequence(r: seq<StoredRow>, rows: seq<StoredRow>)
    decreases |rows|
  {
    r == [] || (rows != [] && (if r[0] == rows[0] then Subsequence(r[1..], rows[1..]) else Subsequence(r, rows[1..])))
  }

  /** The stored rows whose day of week is one the table shows, in their stored order. */
  function InWeek(rows: seq<StoredRow>): (r: seq<StoredRow>)
    ensures forall k :: 0 <= k < |r| ==> 0 <= r[k].dayOfWeek < |Days|
    ensures forall x :: x in r <==> x in rows && 0 <= x.dayOfWeek < |Days|
    ensures Subsequence(r, rows)
  {
    if rows == [] then []
    else if 0 <= rows[0].dayOfWeek < |Days| then [rows[0]] + InWeek(rows[1..])
    else InWeek(rows[1..])
  }

  /** Dropping rows for other days does not change which row is found for a day of the week. */
  lemma {:induction false} FindDayInWeek(rows: seq<StoredRow>, day: int)
    requires 0 <= day < |Days|
    ensures FindDay(InWeek(rows), day) == FindDay(rows, day)
  {
    if rows != [] {
      FindDayInWeek(rows[1..], day);
    }
  }

  /** Stored rows whose day of week lies outside 0..6 have no effect on the table. */
  lemma NormaliseIgnoresOtherDays(rows: seq<StoredRow>)
    ensures Normalise(InWeek(rows)) == Normalise(rows)
  {
    forall i | 0 <= i < |Days| ensures Normalise(InWeek(rows))[i] == Normalise(rows)[i] {
      FindDayInWeek(rows, i);
    }
  }

  /** Sets one field of an entry, keeping its day and other field. */
  function SetField(entry: Availability, field: Field, value: string): Availability {
    match field
    case StartTime => entry.(startTime := value)
    case EndTime => entry.(endTime := value)
  }

  /** `handleAvailabilityChange`: the table with one field of entry `dayIndex` replaced. */
  function Edit(table: seq<Availability>, dayIndex: nat, field: Field, value: string): (r: seq<Availability>)
    requires dayIndex < |table|
    ensures |r| == |table|
    ensures forall j :: 0 <= j < |r| && j != dayIndex ==> r[j] == table[j]
    ensures r[dayIndex].dayOfWeek == table[dayIndex].dayOfWeek
    ensures field == StartTime ==> r[dayIndex].startTime == value && r[dayIndex].endTime == table[dayIndex].endTime
    ensures field == EndTime ==> r[dayIndex].endTime == value && r[dayIndex].startTime == table[dayIndex].startTime
    ensures IsWeek(table) ==> IsWeek(r)
  {
    table[dayIndex := SetField(table[dayIndex], field, value)]
  }

  /** The upsert key of a stored row. */
  function Key(row: StoredRow): (string, int) {
    (row.coachId, row.dayOfWeek)
  }

  /**
   * `handleSaveAvailability`: nothing without a signed-in coach; otherwise
   * one row per entry, carrying the coach's id and the entry's day and times.
   */
  function SaveRows(user: Option<string>, table: seq<Availability>): (r: Option<seq<StoredRow>>)
    ensures r.None? <==> user.None?
    ensures r.Some? ==> |r.value| == |table|
    ensures r.Some? ==> forall i :: 0 <= i < |table| ==>
      r.value[i] == StoredRow(user.value, table[i].dayOfWeek, table[i].startTime, table[i].endTime)
  {
    match user
    case None => None
    case Some(coachId) =>
      Some(seq(|table|, i requires 0 <= i < |table| =>
        StoredRow(coachId, table[i].dayOfWeek, table[i].startTime, table[i].endTime)))
  }

  /** The saved rows have pairwise distinct upsert keys exactly when the table's days are distinct. */
  lemma SaveRowsKeysDistinct(coachId: string, table: seq<Availability>)
    ensures var rows := SaveRows(Some(coachId), table).value;
      (forall i, j :: 0 <= i < j < |rows| ==> Key(rows[i]) != Key(rows[j]))
      <==> (forall i, j :: 0 <= i < j < |table| ==> table[i].dayOfWeek != table[j].dayOfWeek)
  {
    var rows := SaveRows(Some(coachId), table).value;
    if forall i, j :: 0 <= i < j < |rows| ==> Key(rows[i]) != Key(rows[j]) {
      forall i, j | 0 <= i < j < |table| ensures table[i].dayOfWeek != table[j].dayOfWeek {
        assert Key(rows[i]) != Key(rows[j]);
      }
    }
    if forall i, j :: 0 <= i < j < |table| ==> table[i].dayOfWeek != table[j].dayOfWeek {
      forall i, j | 0 <= i < j < |rows| ensures Key(rows[i]) != Key(rows[j]) {
        assert table[i].dayOfWeek != table[j].dayOfWeek;
      }
    }
  }

  /** A week's table saves to rows with pairwise distinct upsert keys. */
  lemma WeekKeysDistinct(coachId: string, table: seq<Availability>)
    requires IsWeek(table)
    ensures var rows := SaveRows(Some(coachId), table).value;
      forall i, j :: 0 <= i < j < |rows| ==> Key(rows[i]) != Key(rows[j])
  {
    SaveRowsKeysDistinct(coachId, table);
  }

  /**
   * Reading back the rows a week's table was saved as gives the same
   * table, except that an emptied time comes back as its default.
   */
  lemma {:induction false} SaveThenReload(coachId: string, table: seq<Availability>)
    requires IsWeek(table)
    ensures var back := Normalise(SaveRows(Some(coachId), table).value);
      forall i :: 0 <= i < |table| ==>
        back[i] == Availability(i, OrElse(table[i].startTime, DefaultStart), OrElse(table[i].endTime, DefaultEnd))
  {
    var rows := SaveRows(Some(coachId), table).value;
    forall i | 0 <= i < |table| ensures FirstWithDay(rows, i, i) {
    }
  }

  /** A week's table with no empty time survives a save and reload unchanged. */
  lemma SaveThenReloadExact(coachId: string, table: seq<Availability>)
    requires IsWeek(table)
    requires forall i :: 0 <= i < |table| ==> table[i].startTime != "" && table[i].endTime != ""
    ensures Normalise(SaveRows(Some(coachId), table).value) == table
  {
    SaveThenReload(coachId, table);
  }

  /** The dashboard's state. */
  class DashboardPage {
    var user: Option<string>
    var availabilities: seq<Availability>
    var summaries: map<int, string>

    /** Before loading the table is empty; once loaded it is a week. */
    ghost predicate Valid()
      reads this
    {
      availabilities == [] || IsWeek(availabilities)
    }

    constructor ()
      ensures Valid()
      ensures user == None && availabilities == [] && summaries == map[]
    {
      user := None;
      availabilities := [];
      summaries := map[];
    }

    /**
     * The page load: without a session nothing changes (the visitor is
     * sent away). With one, the coach becomes the user; `availData` is the
     * coach's stored rows, or nothing when either query failed, in which
     * case the table is left as it was.
     */
    method Load(session: Option<string>, availData: Option<seq<StoredRow>>)
      requires Valid()
      modifies this
      ensures Valid()
      ensures session.None? ==> user == old(user) && availabilities == old(availabilities)
      ensures session.Some? ==> user == session
      ensures session.Some? && availData.Some? ==> availabilities == Normalise(availData.value)
      ensures availData.None? ==> availabilities == old(availabilities)
      ensures summaries == old(summaries)
    {
      if session.Some? {
        user := session;
        if availData.Some? {
          availabilities := Normalise(availData.value);
        }
      }
    }

    /** A summary fetched for a booking replaces that booking's summary only. */
    method StoreSummary(bookingId: int, summary: string)
      requires Valid()
      modifies this`summaries
      ensures Valid()
      ensures bookingId in summaries && summaries[bookingId] == summary
      ensures summaries.Keys == old(summaries).Keys + {bookingId}
      ensures forall id :: id in old(summaries) && id != bookingId ==> summaries[id] == old(summaries)[id]
    {
      summaries := summaries[bookingId := summary];
    }

    /** The coach edits one time of one day. */
    method ChangeAvailability(dayIndex: nat, field: Field, value: string)
      requires Valid()
      requires dayIndex < |availabilities|
      modifies this`availabilities
      ensures Valid()
      ensures availabilities == Edit(old(availabilities), dayIndex, field, value)
    {
      var updated := availabilities;
      updated := updated[dayIndex := SetField(updated[dayIndex], field, value)];
      availabilities := updated;
    }
  }
}
