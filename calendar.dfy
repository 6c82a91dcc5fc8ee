/** The calendar store: wear records (a date, an optional outfit and the
    clothing worn), the current date and the loading flag, with the by-date
    view and the monthly statistics. */
module CalendarStore {
  import opened Common
  import opened Types
  import opened Lists
  import opened Strings

  /** The test "was worn on `date`". */
  function DateIs(date: string): CalendarWear -> bool {
    (r: CalendarWear) => r.date == date
  }

  /** `getWearByDate`: the records of exactly that date, in list order. */
  function GetWearByDate(records: seq<CalendarWear>, date: string): (r: seq<CalendarWear>)
    ensures forall i :: 0 <= i < |r| ==> r[i].date == date && r[i] in records
    ensures forall i :: 0 <= i < |records| && records[i].date == date ==> records[i] in r
    ensures (forall i :: 0 <= i < |records| ==> records[i].date != date) ==> r == []
  {
    FilterMembers(records, DateIs(date));
    var r := Filter(records, DateIs(date));
    assert r != [] ==> exists i :: 0 <= i < |records| && records[i] == r[0];
    r
  }

  /** The by-date view keeps list order: it is determined record by record. */
  lemma GetWearByDateIsOrdered(a: seq<CalendarWear>, b: seq<CalendarWear>, x: CalendarWear, date: string)
    ensures GetWearByDate(a + b, date) == GetWearByDate(a, date) + GetWearByDate(b, date)
    ensures GetWearByDate([x], date) == if x.date == date then [x] else []
  {
    FilterAppend(a, b, DateIs(date));
    assert [x][1..] == [];
  }

  /** The prefix a date of that month starts with: the year, a dash and the
      month padded to two digits with zeros. */
  function MonthPrefix(year: int, month: int): string {
    IntToString(year) + "-" + PadStart(IntToString(month), 2, '0')
  }

  /** A month below ten gets a leading zero; a two-digit month is written as
      it is. */
  lemma MonthPrefixShape(year: int, month: nat)
    ensures month < 10 ==> MonthPrefix(year, month) == IntToString(year) + "-0" + [DigitChar(month)]
    ensures 10 <= month < 100 ==> MonthPrefix(year, month) == IntToString(year) + "-" + NatToString(month)
  {
    if month < 10 {
      var pad := PadStart(IntToString(month), 2, '0');
      assert IntToString(month) == [DigitChar(month)];
      assert pad == ['0', DigitChar(month)];
      assert IntToString(year) + "-" + pad == IntToString(year) + "-0" + [DigitChar(month)];
    } else if month < 100 {
      assert |NatToString(month)| >= 2 by {
        assert NatToString(month) == NatToString(month / 10) + [DigitChar(month % 10)];
      }
    }
  }

  /** The test "falls in the month whose prefix is `prefix`". */
  function InMonth(prefix: string): CalendarWear -> bool {
    (r: CalendarWear) => StartsWith(r.date, prefix)
  }

  /** The records of one month, in list order: exactly those whose date
      starts with the month's prefix. */
  function MonthRecords(records: seq<CalendarWear>, year: int, month: int): (r: seq<CalendarWear>)
    ensures forall x :: x in r <==> x in records && StartsWith(x.date, MonthPrefix(year, month))
  {
    FilterMembers(records, InMonth(MonthPrefix(year, month)));
    Filter(records, InMonth(MonthPrefix(year, month)))
  }

  /** The distinct dates of `rs`. */
  function DatesOf(rs: seq<CalendarWear>): (d: set<string>)
    ensures |d| <= |rs|
    ensures forall x :: x in d <==> exists i :: 0 <= i < |rs| && rs[i].date == x
  {
    if rs == [] then {}
    else
      var rest := DatesOf(rs[1..]);
      assert forall i :: 1 <= i < |rs| ==> rs[i] == rs[1..][i - 1];
      {rs[0].date} + rest
  }

  /** The number of clothing references in `rs`, repeats included. */
  function TotalReferences(rs: seq<CalendarWear>): nat {
    if rs == [] then 0 else |rs[0].clothingIds| + TotalReferences(rs[1..])
  }

  /** The distinct clothing ids referred to by `rs`. */
  function ClothingIdsOf(rs: seq<CalendarWear>): set<string> {
    if rs == [] then {} else (set x | x in rs[0].clothingIds) + ClothingIdsOf(rs[1..])
  }

  /** An id is counted exactly when some record refers to it. */
  lemma {:induction false} ClothingIdsOfMembers(rs: seq<CalendarWear>, x: string)
    ensures x in ClothingIdsOf(rs) <==> exists i :: 0 <= i < |rs| && x in rs[i].clothingIds
  {
    if rs != [] {
      ClothingIdsOfMembers(rs[1..], x);
      assert forall i :: 1 <= i < |rs| ==> rs[i] == rs[1..][i - 1];
      if x in ClothingIdsOf(rs[1..]) {
        var i :| 0 <= i < |rs[1..]| && x in rs[1..][i].clothingIds;
        assert x in rs[i + 1].clothingIds;
      }
    }
  }

  /** There are no more distinct ids than references. */
  lemma {:induction false} ClothingIdsOfSize(rs: seq<CalendarWear>)
    ensures |ClothingIdsOf(rs)| <= TotalReferences(rs)
  {
    if rs != [] {
      ClothingIdsOfSize(rs[1..]);
      SeqToSetSize(rs[0].clothingIds);
    }
  }

  lemma {:induction false} SeqToSetSize(s: seq<string>)
    ensures |set x | x in s| <= |s|
  {
    if s != [] {
      SeqToSetSize(s[1..]);
      assert (set x | x in s) == {s[0]} + (set x | x in s[1..]);
    }
  }

  datatype MonthlyStats = MonthlyStats(totalWears: nat, uniqueDates: nat, clothingCount: nat)

  /** `getMonthlyStats`: over the records of the month, how many there are,
      on how many distinct dates, and how many distinct clothing ids they
      refer to. */
  function GetMonthlyStats(records: seq<CalendarWear>, year: int, month: int): (st: MonthlyStats)
    ensures var m := MonthRecords(records, year, month);
      && st.totalWears == |m|
      && st.uniqueDates == |DatesOf(m)|
      && st.clothingCount == |ClothingIdsOf(m)|
      && st.uniqueDates <= st.totalWears
      && st.clothingCount <= TotalReferences(m)
      && (st.totalWears > 0 ==> st.uniqueDates >= 1)
      && (st.totalWears == 0 ==> st == MonthlyStats(0, 0, 0))
  {
    var monthRecords := MonthRecords(records, year, month);
    var uniqueDates := DatesOf(monthRecords);
    var clothingSet := ClothingIdsOf(monthRecords);
    assert |monthRecords| > 0 ==> monthRecords[0].date in uniqueDates;
    ClothingIdsOfSize(monthRecords);
    MonthlyStats(|monthRecords|, |uniqueDates|, |clothingSet|)
  }

  /** A month with no record has all statistics zero. */
  lemma EmptyMonth(records: seq<CalendarWear>, year: int, month: int)
    requires forall i :: 0 <= i < |records| ==> !StartsWith(records[i].date, MonthPrefix(year, month))
    ensures GetMonthlyStats(records, year, month) == MonthlyStats(0, 0, 0)
  {
    FilterNone(records, InMonth(MonthPrefix(year, month)));
  }

  // Only splits a literal equality off the examples, to keep each proof small.
  lemma RenderYears()
    ensures NatToString(2026) == "2026" && NatToString(2025) == "2025"
  {
    assert NatToString(20) == "20";
    assert NatToString(202) == "202";
  }

  // Only splits a literal equality off the examples, to keep each proof small.
  lemma RenderMonths()
    ensures NatToString(1) == "1" && NatToString(12) == "12"
  {
  }

  /** The prefix of January and of December of a four-digit year. */
  lemma MonthPrefixPads()
    ensures MonthPrefix(2026, 1) == "2026-01"
    ensures MonthPrefix(2025, 12) == "2025-12"
  {
    RenderYears();
    RenderMonths();
    assert PadStart("1", 2, '0') == "01";
    assert PadStart("12", 2, '0') == "12";
  }

  // The records of the monthly statistics example.
  const R1 := CalendarWear("1", "2026-01-15", None, ["c1", "c2"], "t")
  const R2 := CalendarWear("2", "2026-01-16", None, ["c3", "c4"], "t")
  const R3 := CalendarWear("3", "2026-01-16", Some("o1"), ["c5", "c6"], "t")
  const R4 := CalendarWear("4", "2026-02-01", None, ["c7"], "t")

  lemma ExampleInMonth()
    ensures MonthPrefix(2026, 1) == "2026-01"
    ensures InMonth("2026-01")(R1) && InMonth("2026-01")(R2) && InMonth("2026-01")(R3)
    ensures !InMonth("2026-01")(R4)
  {
    MonthPrefixPads();
    assert R4.date[..7][6] == '2' && "2026-01"[6] == '1';
  }

  lemma ExampleMonthRecords()
    ensures MonthRecords([R1, R2, R3, R4], 2026, 1) == [R1, R2, R3]
  {
    ExampleInMonth();
    var p := InMonth("2026-01");
    FilterCons(R4, [], p);
    FilterCons(R3, [R4], p);
    FilterCons(R2, [R3, R4], p);
    FilterCons(R1, [R2, R3, R4], p);
    assert [R1] + [R2, R3, R4] == [R1, R2, R3, R4];
    assert [R2] + [R3, R4] == [R2, R3, R4];
    assert [R3] + [R4] == [R3, R4];
    assert [R4] + [] == [R4];
  }

  // Only splits a literal equality off the examples, to keep each proof small.
  lemma ExampleIdSets()
    ensures (set x | x in R1.clothingIds) == {"c1", "c2"}
    ensures (set x | x in R2.clothingIds) == {"c3", "c4"}
    ensures (set x | x in R3.clothingIds) == {"c5", "c6"}
  {
  }

  // Only splits a literal equality off the examples, to keep each proof small.
  lemma ExampleDates()
    ensures DatesOf([R1, R2, R3]) == {"2026-01-15", "2026-01-16"}
  {
    var m := [R1, R2, R3];
    assert m[1..] == [R2, R3] && m[1..][1..] == [R3] && m[1..][1..][1..] == [];
  }

  lemma ExampleIds()
    ensures ClothingIdsOf([R1, R2, R3]) == {"c1", "c2", "c3", "c4", "c5", "c6"}
  {
    var m := [R1, R2, R3];
    assert m[1..] == [R2, R3] && m[1..][1..] == [R3] && m[1..][1..][1..] == [];
    ExampleIdSets();
    assert ClothingIdsOf([R3]) == {"c5", "c6"};
    assert ClothingIdsOf([R2, R3]) == {"c3", "c4", "c5", "c6"};
  }

  /** Three January records on two dates referring to six ids, and one
      February record: January counts 3 wears, 2 dates and 6 ids; a month
      with no record counts nothing. */
  lemma MonthlyStatsExample()
    ensures GetMonthlyStats([R1, R2, R3, R4], 2026, 1) == MonthlyStats(3, 2, 6)
    ensures GetMonthlyStats([], 2025, 12) == MonthlyStats(0, 0, 0)
  {
    ExampleMonthRecords();
    ExampleDates();
    ExampleIds();
    ExampleSizes();
    var m := MonthRecords([R1, R2, R3, R4], 2026, 1);
    assert GetMonthlyStats([R1, R2, R3, R4], 2026, 1) == MonthlyStats(|m|, |DatesOf(m)|, |ClothingIdsOf(m)|);
  }

  // Only splits a literal equality off the examples, to keep each proof small.
  lemma ExampleSizes()
    ensures |{"2026-01-15", "2026-01-16"}| == 2
    ensures |{"c1", "c2", "c3", "c4", "c5", "c6"}| == 6
  {
    assert "c1" != "c2" && "c1" != "c3";
  }

  class Store {
    var wearRecords: seq<CalendarWear>
    var currentDate: string
    var isLoading: bool

    /** The store starts empty on today's date, which the clock supplies. */
    constructor (today: string)
      ensures wearRecords == [] && currentDate == today && !isLoading
    {
      wearRecords := [];
      currentDate := today;
      isLoading := false;
    }

    /** `setWearRecords`: replace all records. */
    method SetWearRecords(records: seq<CalendarWear>)
      modifies this`wearRecords
      ensures wearRecords == records
    {
      wearRecords := records;
    }

    /** `addWearRecord`: append at the end. */
    method AddWearRecord(record: CalendarWear)
      modifies this`wearRecords
      ensures wearRecords == old(wearRecords) + [record]
    {
      wearRecords := wearRecords + [record];
    }

    /** `updateWearRecord`: spread `updates` over the first record with that
      id, adding no time stamp; an unknown id changes nothing. */
    method UpdateWearRecord(id: string, updates: CalendarWearPatch)
      modifies this`wearRecords
      ensures wearRecords == UpdateFirst(old(wearRecords), WearId, id, (r: CalendarWear) => SpreadWear(r, updates))
    {
      var index := FindIndex(wearRecords, WearId, id);
      if index.Some? {
        var i := index.value;
        wearRecords := wearRecords[i := SpreadWear(wearRecords[i], updates)];
      }
    }

    /** `deleteWearRecord`: remove the first record with that id, if any. */
    method DeleteWearRecord(id: string)
      modifies this`wearRecords
      ensures wearRecords == RemoveFirst(old(wearRecords), WearId, id)
    {
      var index := FindIndex(wearRecords, WearId, id);
      if index.Some? {
        wearRecords := RemoveAt(wearRecords, index.value);
      }
    }

    /** `loadFromStorage`: raise the loading flag, take the stored records
      when there are any, swallow a host error, and always lower the flag. */
    method LoadFromStorage(stored: StoredValue<seq<CalendarWear>>)
      modifies this`wearRecords, this`isLoading
      ensures !isLoading
      ensures stored.Found? ==> wearRecords == stored.value
      ensures !stored.Found? ==> wearRecords == old(wearRecords)
    {
      isLoading := true;
      match stored {
        case Found(value) =>
          wearRecords := value;
        case Missing =>
        case HostThrew(_) =>
      }
      isLoading := false;
    }
  }
}
