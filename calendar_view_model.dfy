/**
 * `CalendarViewModel`: the month shown, the selected day, the journal
 * entries indexed by their "yyyy-MM-dd" key, and the month grid.  The
 * current time is a parameter wherever the source reads the clock.
 */
module Calendar {

  import opened Text
  import opened Wrappers
  import opened Errors
  import opened Dates
  import opened JournalEntries
  import opened Filters
  import opened Storage

  // ---------------------------------------------------------------------------
  // The entry index

  /** Each element of `s` stored under its key, later elements overwriting earlier ones. */
  function IndexBy<T, K>(s: seq<T>, key: T -> K): (m: map<K, T>)
    ensures forall i :: 0 <= i < |s| ==> key(s[i]) in m
    ensures forall k :: k in m ==> key(m[k]) == k && m[k] in s
    decreases |s|
  {
    if s == [] then map[]
    else
      var prefix, last := s[..|s| - 1], s[|s| - 1];
      assert forall i :: 0 <= i < |prefix| ==> prefix[i] == s[i];
      IndexBy(prefix, key)[key(last) := last]
  }

  /** An element that no later element shares a key with is the one the index keeps. */
  lemma {:induction false} IndexByLastWins<T, K>(s: seq<T>, key: T -> K, i: int)
    requires 0 <= i < |s|
    requires forall j :: i < j < |s| ==> key(s[j]) != key(s[i])
    ensures IndexBy(s, key)[key(s[i])] == s[i]
    decreases |s|
  {
    if i < |s| - 1 {
      var prefix := s[..|s| - 1];
      assert prefix[i] == s[i];
      forall j | i < j < |prefix| ensures key(prefix[j]) != key(prefix[i]) {
        assert prefix[j] == s[j];
      }
      IndexByLastWins(prefix, key, i);
    }
  }

  /** When no two elements share a key, every element is in the index. */
  lemma IndexByKeepsEveryElement<T, K>(s: seq<T>, key: T -> K)
    requires DistinctBy(s, key)
    ensures forall i :: 0 <= i < |s| ==> IndexBy(s, key)[key(s[i])] == s[i]
  {
    forall i | 0 <= i < |s| ensures IndexBy(s, key)[key(s[i])] == s[i] {
      IndexByLastWins(s, key, i);
    }
  }

  /** The dictionary `loadEntries` builds: each entry under its "yyyy-MM-dd" key. */
  function BuildIndex(entries: seq<JournalEntry>): map<String, JournalEntry> {
    IndexBy(entries, EntryKey)
  }

  /** When the stored days are distinct (as `saveJournalEntry` keeps them), every entry is in the index. */
  lemma BuildIndexKeepsEveryEntry(entries: seq<JournalEntry>)
    requires DistinctDays(entries)
    ensures forall i :: 0 <= i < |entries| ==> BuildIndex(entries)[entries[i].DateKey()] == entries[i]
  {
    IndexByKeepsEveryElement(entries, EntryKey);
  }

  /** `entry(for:)` on an index: the entry kept under the key of the start of the date's day. */
  function LookupDay(index: map<String, JournalEntry>, date: Time): (r: Option<JournalEntry>)
    ensures r.Some? <==> DateKey(date) in index
    ensures r.Some? ==> r.value == index[DateKey(date)]
  {
    var key := DateKey(StartOfDay(date));
    if key in index then Some(index[key]) else None
  }

  /**
   * For dates in years AD (where the key tells days apart), looking a day
   * up in the index finds an entry exactly when some stored entry falls on
   * that day, and what it finds is such an entry.
   */
  lemma LookupDayFindsSameDay(entries: seq<JournalEntry>, date: Time)
    requires CivilOf(date).year >= 1
    requires forall i :: 0 <= i < |entries| ==> CivilOf(entries[i].date).year >= 1
    ensures LookupDay(BuildIndex(entries), date).Some? <==> exists i :: 0 <= i < |entries| && SameDay(entries[i].date, date)
    ensures LookupDay(BuildIndex(entries), date).Some? ==>
      var e := LookupDay(BuildIndex(entries), date).value; e in entries && SameDay(e.date, date)
  {
    var m := BuildIndex(entries);
    var r := LookupDay(m, date);
    if r.Some? {
      var e := r.value;
      var i :| 0 <= i < |entries| && entries[i] == e;
      DateKeyIffSameDay(e.date, date);
    }
    if exists i :: 0 <= i < |entries| && SameDay(entries[i].date, date) {
      var i :| 0 <= i < |entries| && SameDay(entries[i].date, date);
      DateKeyIffSameDay(entries[i].date, date);
    }
  }

  /** The calendar finds an entry for a day exactly when the store's `loadJournalEntry` does. */
  lemma LookupDayAgreesWithStore(storage: StorageService, date: Time)
    requires storage.LoadAllJournalEntries().Ok?
    requires CivilOf(date).year >= 1
    requires forall e :: e in storage.LoadAllJournalEntries().value ==> CivilOf(e.date).year >= 1
    ensures storage.LoadJournalEntry(date).Ok?
    ensures LookupDay(BuildIndex(storage.LoadAllJournalEntries().value), date).Some? <==>
      storage.LoadJournalEntry(date).value.Some?
  {
    var entries := storage.LoadAllJournalEntries().value;
    LookupDayFindsSameDay(entries, date);
  }

  /**
   * When no two stored entries share a day (as `saveJournalEntry` keeps
   * them), the calendar finds the very entry the store's `loadJournalEntry`
   * returns, for years AD.
   */
  lemma {:induction false} LookupDayMatchesStore(storage: StorageService, date: Time)
    requires storage.LoadAllJournalEntries().Ok?
    requires DistinctDays(storage.LoadAllJournalEntries().value)
    requires CivilOf(date).year >= 1
    requires forall e :: e in storage.LoadAllJournalEntries().value ==> CivilOf(e.date).year >= 1
    ensures storage.LoadJournalEntry(date).Ok?
    ensures LookupDay(BuildIndex(storage.LoadAllJournalEntries().value), date) == storage.LoadJournalEntry(date).value
  {
    var entries := storage.LoadAllJournalEntries().value;
    var stored := storage.LoadJournalEntry(date).value;
    if stored.Some? {
      var k :| 0 <= k < |entries| && entries[k] == stored.value;
      LookupDayIsTheEntryOnDay(entries, date, k);
    } else {
      LookupDayFindsSameDay(entries, date);
    }
  }

  /** With distinct days, the index lookup of a day holding entry `k` (years AD) finds that entry. */
  lemma LookupDayIsTheEntryOnDay(entries: seq<JournalEntry>, date: Time, k: int)
    requires DistinctDays(entries)
    requires CivilOf(date).year >= 1
    requires forall i :: 0 <= i < |entries| ==> CivilOf(entries[i].date).year >= 1
    requires 0 <= k < |entries| && SameDay(entries[k].date, date)
    ensures LookupDay(BuildIndex(entries), date) == Some(entries[k])
  {
    LookupDayFindsSameDay(entries, date);
    var i :| 0 <= i < |entries| && entries[i] == LookupDay(BuildIndex(entries), date).value;
    OneEntryPerDay(entries, i, k);
  }

  /** With distinct days, two stored entries on the same day (years AD) are the same element. */
  lemma OneEntryPerDay(entries: seq<JournalEntry>, i: int, k: int)
    requires DistinctDays(entries)
    requires 0 <= i < |entries| && 0 <= k < |entries|
    requires CivilOf(entries[i].date).year >= 1 && CivilOf(entries[k].date).year >= 1
    requires SameDay(entries[i].date, entries[k].date)
    ensures i == k
  {
    DateKeyIffSameDay(entries[i].date, entries[k].date);
    assert EntryKey(entries[i]) == EntryKey(entries[k]);
  }

  // ---------------------------------------------------------------------------
  // The month grid

  /** `n` empty cells. */
  function Blanks(n: nat): (r: seq<Option<Time>>)
    ensures |r| == n && forall i :: 0 <= i < n ==> r[i].None?
  {
    seq(n, _ => None)
  }

  /** The dates of every day of month `month` of `year`, at midnight, in order. */
  function MonthDays(year: int, month: int): (r: seq<Time>)
    requires 1 <= month <= 12
    ensures |r| == DaysInMonth(year, month)
    ensures forall i :: 0 <= i < |r| ==> CivilOf(r[i]) == CivilDate(year, month, i + 1)
  {
    seq(DaysInMonth(year, month), i requires 0 <= i < DaysInMonth(year, month) => TimeOfCivil(CivilDate(year, month, i + 1)))
  }

  /** The blanks that complete the last week of a grid holding `n` cells. */
  function TrailingPadding(n: nat): (r: nat)
    ensures r < 7 && (n + r) % 7 == 0
  {
    (7 - n % 7) % 7
  }

  /** Adding fewer blanks than the trailing padding never ends a week. */
  lemma TrailingPaddingIsFirstWeekEnd(n: nat, k: nat)
    requires k <= TrailingPadding(n)
    ensures (n + k) % 7 == 0 <==> k == TrailingPadding(n)
  {
    var q, r := n / 7, n % 7;
    assert n + k == 7 * q + (r + k);
    if r == 0 {
      assert k == 0;
    } else {
      assert r + k <= 7;
      if r + k < 7 {
        assert (n + k) % 7 == r + k;
      }
    }
  }

  /** One more blank: the week ends exactly when the trailing padding is used up. */
  lemma TrailingPaddingStep(n: nat, k: nat, cells: nat)
    requires cells == n + k && k <= TrailingPadding(n) && cells % 7 != 0
    ensures k + 1 <= TrailingPadding(n)
    ensures (cells + 1) % 7 == 0 <==> k + 1 == TrailingPadding(n)
  {
    TrailingPaddingIsFirstWeekEnd(n, k);
    TrailingPaddingIsFirstWeekEnd(n, k + 1);
  }

  /** The grid of a month whose first day falls `padding` places after Sunday, built by appends. */
  method BuildGrid(padding: nat, year: int, month: int) returns (dates: seq<Option<Time>>)
    requires padding < 7 && 1 <= month <= 12
    ensures dates == CalendarGrid(padding, MonthDays(year, month))
    ensures 28 <= |dates| <= 42 && |dates| % 7 == 0
  {
    ghost var days := MonthDays(year, month);
    dates := AppendBlanks([], padding);
    dates := AppendMonthDays(dates, year, month);
    ghost var prefix := dates;
    dates := AppendWeekEnd(dates);
    GridComplete(padding, days, prefix, dates);
  }

  /** Leading blanks, the days and the blanks that end the last week make up the whole grid. */
  lemma GridComplete(padding: nat, days: seq<Time>, prefix: seq<Option<Time>>, cells: seq<Option<Time>>)
    requires padding < 7 && 28 <= |days| <= 31
    requires prefix == [] + Blanks(padding) + Filled(days)
    requires cells == prefix + Blanks(TrailingPadding(|prefix|))
    ensures cells == CalendarGrid(padding, days)
    ensures 28 <= |cells| <= 42 && |cells| % 7 == 0
  {
    assert [] + Blanks(padding) == Blanks(padding);
    CalendarGridShape(padding, days);
  }

  /** Each date as a filled cell. */
  function Filled(days: seq<Time>): (r: seq<Option<Time>>)
    ensures |r| == |days| && forall i :: 0 <= i < |days| ==> r[i] == Some(days[i])
  {
    seq(|days|, i requires 0 <= i < |days| => Some(days[i]))
  }

  lemma FilledSnoc(days: seq<Time>, j: int)
    requires 0 <= j < |days|
    ensures Filled(days[..j + 1]) == Filled(days[..j]) + [Some(days[j])]
  {
  }

  /** The grid: `padding` blanks, then the days, then blanks to the end of the week. */
  function CalendarGrid(padding: nat, days: seq<Time>): seq<Option<Time>> {
    Blanks(padding) + Filled(days) + Blanks(TrailingPadding(padding + |days|))
  }

  /**
   * For a month starting on weekday 1..7 with 28..31 days the grid has four
   * to six whole weeks; day `d` of the month sits in cell `padding + d - 1`,
   * every other cell is blank.
   */
  lemma CalendarGridShape(padding: nat, days: seq<Time>)
    requires padding < 7 && 28 <= |days| <= 31
    ensures var g := CalendarGrid(padding, days);
      28 <= |g| <= 42 && |g| % 7 == 0
      && |g| - padding - |days| < 7
      && (forall d :: 0 <= d < |days| ==> g[padding + d] == Some(days[d]))
      && (forall i :: 0 <= i < |g| ==> (g[i].None? <==> i < padding || i >= padding + |days|))
  {
    var g := CalendarGrid(padding, days);
    var t := TrailingPadding(padding + |days|);
    assert |g| == padding + |days| + t;
  }

  // ---------------------------------------------------------------------------
  // The view model

  /** `n` blank cells appended to `cells`. */
  method AppendBlanks(cells: seq<Option<Time>>, n: nat) returns (r: seq<Option<Time>>)
    ensures r == cells + Blanks(n)
  {
    r := cells;
    for i := 0 to n
      invariant r == cells + Blanks(i)
    {
      assert Blanks(i + 1) == Blanks(i) + [None];
      r := r + [None];
    }
  }

  /** One filled cell per day of the month appended to `cells`, first day first. */
  method AppendMonthDays(cells: seq<Option<Time>>, year: int, month: int) returns (r: seq<Option<Time>>)
    requires 1 <= month <= 12
    ensures r == cells + Filled(MonthDays(year, month))
  {
    ghost var days := MonthDays(year, month);
    r := cells;
    var day := 1;
    while day <= DaysInMonth(year, month)
      invariant 1 <= day <= |days| + 1
      invariant r == cells + Filled(days[..day - 1])
    {
      var date := TimeOfCivil(CivilDate(year, month, day));
      assert days[day - 1] == date;
      FilledSnoc(days, day - 1);
      r := r + [Some(date)];
      day := day + 1;
    }
    assert days[..|days|] == days;
  }

  /** Blank cells appended until the last week is full. */
  method AppendWeekEnd(cells: seq<Option<Time>>) returns (r: seq<Option<Time>>)
    ensures r == cells + Blanks(TrailingPadding(|cells|))
  {
    var n := |cells|;
    r := cells;
    var k := 0;
    TrailingPaddingIsFirstWeekEnd(n, 0);
    while |r| % 7 != 0
      invariant k <= TrailingPadding(n)
      invariant |r| == n + k
      invariant r == cells + Blanks(k)
      invariant |r| % 7 == 0 <==> k == TrailingPadding(n)
      decreases TrailingPadding(n) - k
    {
      TrailingPaddingStep(n, k, |r|);
      assert Blanks(k + 1) == Blanks(k) + [None];
      r := r + [None];
      k := k + 1;
    }
  }

  /** The loop of `loadEntries`: each entry stored under its day key, a later one replacing an earlier. */
  method IndexEntries(entries: seq<JournalEntry>) returns (index: map<String, JournalEntry>)
    ensures index == BuildIndex(entries)
  {
    index := map[];
    for i := 0 to |entries|
      invariant index == BuildIndex(entries[..i])
    {
      assert entries[..i + 1][..i] == entries[..i];
      index := index[EntryKey(entries[i]) := entries[i]];
    }
    assert entries[..|entries|] == entries;
  }

  class CalendarViewModel {
    const storage: StorageService
    var currentMonth: Time
    var selectedDate: Option<Time>
    var journalEntries: map<String, JournalEntry>

    /** The index `loadEntries` produces from what the store holds now. */
    function StoredIndex(): (m: map<String, JournalEntry>)
      reads storage
      ensures storage.LoadAllJournalEntries().Err? ==> m == map[]
      ensures storage.LoadAllJournalEntries().Ok? ==> m == BuildIndex(storage.LoadAllJournalEntries().value)
    {
      match storage.LoadAllJournalEntries()
      case Ok(entries) => BuildIndex(entries)
      case Err(_) => map[]
    }

    /** `init`: the month of today, nothing selected, the entries loaded. */
    constructor(storage: StorageService, now: Time)
      ensures this.storage == storage
      ensures currentMonth == StartOfDay(now) && selectedDate == None
      ensures journalEntries == StoredIndex()
    {
      this.storage := storage;
      currentMonth := StartOfDay(now);
      selectedDate := None;
      journalEntries := map[];
      new;
      LoadEntries();
    }

    /** `loadEntries`: rebuilds the index from the store; a failed load leaves it empty. */
    method LoadEntries()
      modifies this`journalEntries
      ensures journalEntries == StoredIndex()
    {
      var loaded := storage.LoadAllJournalEntries();
      if loaded.Err? {
        journalEntries := map[];
      } else {
        journalEntries := IndexEntries(loaded.value);
      }
    }

    /** `entry(for:)`. */
    function EntryFor(date: Time): (r: Option<JournalEntry>)
      reads this
      ensures r.Some? <==> DateKey(date) in journalEntries
      ensures r.Some? ==> r.value == journalEntries[DateKey(date)]
    {
      LookupDay(journalEntries, date)
    }

    /** `hasEntry(for:)`. */
    predicate HasEntry(date: Time)
      reads this
      ensures HasEntry(date) <==> DateKey(date) in journalEntries
    {
      EntryFor(date).Some?
    }

    /** `selectDate`: remembers the date and returns its entry, if any. */
    method SelectDate(date: Time) returns (r: Option<JournalEntry>)
      modifies this
      ensures selectedDate == Some(date)
      ensures r.Some? <==> DateKey(date) in journalEntries
      ensures r.Some? ==> r.value == journalEntries[DateKey(date)]
      ensures currentMonth == old(currentMonth) && journalEntries == old(journalEntries)
    {
      selectedDate := Some(date);
      r := EntryFor(date);
    }

    /** `moveToPreviousMonth`: one month back. */
    method MoveToPreviousMonth()
      modifies this
      ensures currentMonth == AddMonths(old(currentMonth), -1)
      ensures CivilOf(currentMonth).year * 12 + CivilOf(currentMonth).month
        == CivilOf(old(currentMonth)).year * 12 + CivilOf(old(currentMonth)).month - 1
      ensures selectedDate == old(selectedDate) && journalEntries == old(journalEntries)
    {
      currentMonth := AddMonths(currentMonth, -1);
    }

    /** `moveToNextMonth`: one month ahead. */
    method MoveToNextMonth()
      modifies this
      ensures currentMonth == AddMonths(old(currentMonth), 1)
      ensures CivilOf(currentMonth).year * 12 + CivilOf(currentMonth).month
        == CivilOf(old(currentMonth)).year * 12 + CivilOf(old(currentMonth)).month + 1
      ensures selectedDate == old(selectedDate) && journalEntries == old(journalEntries)
    {
      currentMonth := AddMonths(currentMonth, 1);
    }

    /** `moveToToday`: today's month, with today selected. */
    method MoveToToday(now: Time)
      modifies this
      ensures currentMonth == StartOfDay(now) && selectedDate == Some(now)
      ensures journalEntries == old(journalEntries)
    {
      currentMonth := StartOfDay(now);
      selectedDate := Some(now);
    }

    /** `firstDayOfMonth`: midnight of the first of the current month. */
    function FirstDayOfMonth(): (r: Time)
      reads this
      ensures CivilOf(r) == CivilDate(CivilOf(currentMonth).year, CivilOf(currentMonth).month, 1)
      ensures r == StartOfDay(r)
    {
      var c := CivilOf(currentMonth);
      TimeOfCivil(CivilDate(c.year, c.month, 1))
    }

    /** `daysInMonth`: the length of the current month. */
    function DaysInCurrentMonth(): (r: int)
      reads this
      ensures 28 <= r <= 31
      ensures r == DaysInMonth(CivilOf(currentMonth).year, CivilOf(currentMonth).month)
    {
      var c := CivilOf(currentMonth);
      DaysInMonth(c.year, c.month)
    }

    /** `firstWeekday`: the weekday (1 is Sunday) of the first of the current month. */
    function FirstWeekday(): (r: int)
      reads this
      ensures 1 <= r <= 7
      ensures r == Weekday(FirstDayOfMonth())
    {
      Weekday(FirstDayOfMonth())
    }

    /**
     * The grid's leading blanks reach back exactly to the Sunday on or
     * before the 1st: that many days earlier is a Sunday, and no fewer is.
     */
    lemma FirstWeekdayPadsBackToSunday()
      ensures Weekday(FirstDayOfMonth() - (FirstWeekday() - 1) * SecondsPerDay) == 1
      ensures forall k :: 0 <= k < FirstWeekday() - 1 ==> Weekday(FirstDayOfMonth() - k * SecondsPerDay) != 1
    {
      var first := FirstDayOfMonth();
      WeekdayReachesBackToSunday(first);
      assert FirstWeekday() == Weekday(first);
    }

    /** `datesForCalendarGrid`: leading blanks, the days of the month, trailing blanks. */
    method DatesForCalendarGrid() returns (dates: seq<Option<Time>>)
      ensures var c := CivilOf(currentMonth);
        dates == CalendarGrid(FirstWeekday() - 1, MonthDays(c.year, c.month))
      ensures 28 <= |dates| <= 42 && |dates| % 7 == 0
    {
      var c := CivilOf(currentMonth);
      dates := BuildGrid(FirstWeekday() - 1, c.year, c.month);
    }

    /** `isFuture`: the date's day comes after today's, so today itself is not in the future. */
    predicate IsFuture(date: Time, now: Time)
      ensures IsFuture(date, now) <==> DayNumber(date) > DayNumber(now)
      ensures SameDay(date, now) ==> !IsFuture(date, now)
    {
      StartOfDay(date) > StartOfDay(now)
    }

    /** `isSelected`: nothing is selected, or the date falls on the selected day. */
    predicate IsSelected(date: Time)
      reads this
      ensures selectedDate.None? ==> !IsSelected(date)
      ensures selectedDate.Some? ==> (IsSelected(date) <==> StartOfDay(date) == StartOfDay(selectedDate.value))
    {
      selectedDate.Some? && SameDay(date, selectedDate.value)
    }
  }
}
