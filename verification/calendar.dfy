/** `GoogleCalendarService`: appointment slots on one shared calendar.

    Every weekday from the requested date (or today, whichever is later) through thirty days
    later offers twenty-four half-hour slots, 08:00 to 19:30, each for two appointments. Each
    event already on the calendar takes one place from every slot key it steps over, but only
    on the date it starts. The three earliest slots that still have room are offered.
    Booking goes ahead only for one of those offered slots. Cancelling deletes every event
    that day whose title names the patient, ignoring case.

    Times are whole minutes since 1970-01-01 00:00 on the calendar's clock, and a date is a
    day index (day 0 is Thursday 1 January 1970). The calendar API's answers are parameters:
    the event listing is a `Result`, an insertion outcome is a `Result`, and a deletion
    outcome is a predicate on event ids. */
module Calendar {
  import opened Wrappers
  import opened Text

  const MinutesPerDay: int := 1440
  /** 08:00, the first slot of a day. */
  const FirstSlotMinute: int := 480
  const SlotLength: int := 30
  /** 08:00, 08:30, ..., 19:30. */
  const SlotsPerDay: nat := 24
  const SlotCapacity: nat := 2
  /** The window runs from its first day through this many days later. */
  const WindowDays: nat := 30
  const MaxOffered: nat := 3

  const SlotsMessage: string := "¡Excelente! Aquí están los 3 horarios más próximos disponibles:"
  const NoSlotsMessage: string :=
    "No hay horarios disponibles en los próximos días. ¿Te gustaría consultar para más adelante?"
  const UnavailableMessage: string :=
    "Lo sentimos, este horario ya no está disponible. Por favor, selecciona otro horario."
  const BookedMessage: string := "Cita agendada exitosamente"
  const BookingErrorMessage: string := "Hubo un error al agendar la cita. Por favor, intenta nuevamente."
  const NoAppointmentMessage: string :=
    "No se encontró ninguna cita para el paciente en la fecha especificada."
  const PartlyCancelledMessage: string := "Algunas citas no pudieron ser canceladas."
  const CancelledMessage: string := "Cita(s) cancelada(s) exitosamente"
  const CancelErrorMessage: string := "Hubo un error al cancelar la cita. Por favor, intenta nuevamente."
  const AppointmentPrefix: string := "Cita con "

  // ---------------------------------------------------------------------------------------
  // Dates and slot keys
  // ---------------------------------------------------------------------------------------

  /** The date of an instant (floor division, so instants before 1970 fall on earlier days). */
  function DayOf(t: int): int {
    t / MinutesPerDay
  }

  function MinuteOfDay(t: int): (m: int)
    ensures 0 <= m < MinutesPerDay
  {
    t % MinutesPerDay
  }

  /** ISO weekday: 1 is Monday and 7 is Sunday. */
  function Weekday(d: int): (w: int)
    ensures 1 <= w <= 7
  {
    (d + 3) % 7 + 1
  }

  predicate IsWorkday(d: int) {
    Weekday(d) <= 5
  }

  /** The time of day of the slot at position `j` of the grid. */
  function SlotMinute(j: int): int {
    FirstSlotMinute + SlotLength * j
  }

  /** The grid position whose key a time of day prints as, if any: only times on the half
      hour from 08:00 to 19:30 are keys. */
  function SlotAt(m: int): (r: Option<nat>)
    ensures r.Some? ==> r.value < SlotsPerDay && SlotMinute(r.value) == m
    ensures r.None? ==> forall j :: 0 <= j < SlotsPerDay ==> SlotMinute(j) != m
  {
    if FirstSlotMinute <= m < SlotMinute(SlotsPerDay) && (m - FirstSlotMinute) % SlotLength == 0
    then Some((m - FirstSlotMinute) / SlotLength)
    else None
  }

  /** Two digits, zero-padded. */
  function Pad2(n: nat): (r: string)
    requires n < 100
    ensures |r| == 2
  {
    [DigitChar(n / 10), DigitChar(n % 10)]
  }

  /** The `HH:mm` key of a time of day. */
  function SlotKey(m: int): (r: string)
    requires 0 <= m < MinutesPerDay
    ensures |r| == 5 && r[2] == ':'
  {
    Pad2(m / 60) + ":" + Pad2(m % 60)
  }

  /** Different times of day have different keys, so a key names at most one slot. */
  lemma SlotKeyInjective(a: int, b: int)
    requires 0 <= a < MinutesPerDay && 0 <= b < MinutesPerDay
    ensures SlotKey(a) == SlotKey(b) ==> a == b
  {
    if SlotKey(a) == SlotKey(b) {
      assert SlotKey(a)[0] == SlotKey(b)[0] && SlotKey(a)[1] == SlotKey(b)[1];
      assert SlotKey(a)[3] == SlotKey(b)[3] && SlotKey(a)[4] == SlotKey(b)[4];
      assert a / 60 == b / 60 && a % 60 == b % 60;
    }
  }

  // ---------------------------------------------------------------------------------------
  // The grid of places
  // ---------------------------------------------------------------------------------------

  /** One date's remaining places, by grid position. */
  datatype DayGrid = DayGrid(day: int, caps: seq<nat>)

  /** The dates of the window in order. */
  type Grid = seq<DayGrid>

  /** Every position with both places free. */
  function FullCaps(): (r: seq<nat>)
    ensures |r| == SlotsPerDay && forall j :: 0 <= j < |r| ==> r[j] == SlotCapacity
  {
    seq(SlotsPerDay, _ => SlotCapacity)
  }

  /** The dates among the `count` days from `first` that `open` admits, each with every slot
      open. The grid passes `IsWorkday`; the lemmas below hold for any such test. */
  function OpenDays(first: int, count: nat, open: int -> bool): (g: Grid)
    ensures forall i :: 0 <= i < |g| ==> g[i].caps == FullCaps()
    decreases count
  {
    if count == 0 then []
    else (if open(first) then [DayGrid(first, FullCaps())] else []) + OpenDays(first + 1, count - 1, open)
  }

  /** `OpenDays` lists only admitted dates of its range. */
  lemma {:induction false} OpenDaysRange(first: int, count: nat, open: int -> bool)
    ensures forall i :: 0 <= i < |OpenDays(first, count, open)| ==>
      open(OpenDays(first, count, open)[i].day)
      && first <= OpenDays(first, count, open)[i].day < first + count
    decreases count
  {
    if count > 0 {
      OpenDaysRange(first + 1, count - 1, open);
      OpenDaysStep(first, count, open);
    }
  }

  /** `OpenDays` lists its dates in ascending order. */
  lemma {:induction false} OpenDaysAscending(first: int, count: nat, open: int -> bool)
    ensures forall i, k :: 0 <= i < k < |OpenDays(first, count, open)| ==>
      OpenDays(first, count, open)[i].day < OpenDays(first, count, open)[k].day
    decreases count
  {
    if count > 0 {
      OpenDaysRange(first + 1, count - 1, open);
      OpenDaysAscending(first + 1, count - 1, open);
      OpenDaysStep(first, count, open);
    }
  }

  /** One step of `OpenDays`, position by position. */
  lemma OpenDaysStep(first: int, count: nat, open: int -> bool)
    requires count > 0
    ensures var g := OpenDays(first, count, open);
      var rest := OpenDays(first + 1, count - 1, open);
      var h := if open(first) then 1 else 0;
      |g| == |rest| + h && (open(first) ==> g[0].day == first)
      && forall i :: h <= i < |g| ==> g[i] == rest[i - h]
  {
  }

  /** `OpenDays` lists every admitted date of its range. */
  lemma {:induction false} OpenDaysCover(first: int, count: nat, open: int -> bool, d: int)
    requires first <= d < first + count && open(d)
    ensures exists i :: 0 <= i < |OpenDays(first, count, open)| && OpenDays(first, count, open)[i].day == d
    decreases count
  {
    var rest := OpenDays(first + 1, count - 1, open);
    var head: Grid := if open(first) then [DayGrid(first, FullCaps())] else [];
    assert OpenDays(first, count, open) == head + rest;
    if d == first {
      assert (head + rest)[0].day == d;
    } else {
      OpenDaysCover(first + 1, count - 1, open, d);
      var i :| 0 <= i < |rest| && rest[i].day == d;
      assert (head + rest)[|head| + i].day == d;
    }
  }

  /** Well-formed grids: dates strictly ascending, twenty-four positions each, at most two
      places per position. */
  ghost predicate ValidGrid(g: Grid) {
    (forall i, k :: 0 <= i < k < |g| ==> g[i].day < g[k].day)
    && (forall i :: 0 <= i < |g| ==> |g[i].caps| == SlotsPerDay)
    && (forall i, j :: 0 <= i < |g| && 0 <= j < |g[i].caps| ==> g[i].caps[j] <= SlotCapacity)
  }

  /** Every date of the grid is a workday from `first` through `WindowDays` days later. */
  ghost predicate WithinWindow(g: Grid, first: int) {
    forall i :: 0 <= i < |g| ==> first <= g[i].day <= first + WindowDays && IsWorkday(g[i].day)
  }

  /** `r` has the dates and positions of `g` and nowhere more places. */
  ghost predicate Shrinks(r: Grid, g: Grid) {
    |r| == |g|
    && (forall i :: 0 <= i < |g| ==> r[i].day == g[i].day && |r[i].caps| == |g[i].caps|)
    && (forall i, j :: 0 <= i < |g| && 0 <= j < |g[i].caps| ==> r[i].caps[j] <= g[i].caps[j])
  }

  lemma ShrinksKeepsValid(r: Grid, g: Grid, first: int)
    requires Shrinks(r, g) && ValidGrid(g) && WithinWindow(g, first)
    ensures ValidGrid(r) && WithinWindow(r, first)
  {
  }

  /** The later of the requested instant and the start of `today`. */
  function WindowStart(start: int, today: int): (r: int)
    ensures r >= start && r >= today * MinutesPerDay
    ensures r == start || r == today * MinutesPerDay
  {
    if start < today * MinutesPerDay then today * MinutesPerDay else start
  }

  /** The grid before any event: the thirty-one dates from the window's first date. */
  function InitialGrid(first: int): Grid {
    OpenDays(first, WindowDays + 1, IsWorkday)
  }

  /** The initial grid is well formed, within the window, and has every workday of the window
      with every slot open. */
  lemma InitialGridShape(first: int)
    ensures ValidGrid(InitialGrid(first)) && WithinWindow(InitialGrid(first), first)
    ensures forall d :: first <= d <= first + WindowDays && IsWorkday(d) ==>
      exists i :: 0 <= i < |InitialGrid(first)| && InitialGrid(first)[i] == DayGrid(d, FullCaps())
  {
    var g := InitialGrid(first);
    OpenDaysRange(first, WindowDays + 1, IsWorkday);
    OpenDaysAscending(first, WindowDays + 1, IsWorkday);
    forall d | first <= d <= first + WindowDays && IsWorkday(d)
      ensures exists i :: 0 <= i < |g| && g[i] == DayGrid(d, FullCaps())
    {
      OpenDaysCover(first, WindowDays + 1, IsWorkday, d);
      var i :| 0 <= i < |g| && g[i].day == d;
      assert g[i] == DayGrid(d, FullCaps());
    }
  }

  // ---------------------------------------------------------------------------------------
  // Events take places
  // ---------------------------------------------------------------------------------------

  /** An event of the listing: its start and end instants, `None` when the event carries no
      date-time (an all-day event), which no slot key matches. */
  datatype Busy = Busy(start: Option<int>, end: Option<int>)

  /** One step of the walk: the key the time of day prints as loses a place, if it is a grid
      key and has one. */
  function Touch(caps: seq<nat>, m: int): (r: seq<nat>)
    ensures |r| == |caps| && forall j :: 0 <= j < |caps| ==> r[j] <= caps[j]
  {
    match SlotAt(m)
    case Some(j) => if j < |caps| && caps[j] > 0 then caps[j := caps[j] - 1] else caps
    case None => caps
  }

  /** A step touches position `j` exactly when its time of day is `j`'s. */
  lemma TouchAt(caps: seq<nat>, m: int, j: int)
    requires 0 <= j < |caps| && j < SlotsPerDay
    ensures Touch(caps, m)[j] == if m == SlotMinute(j) then Floor0(caps[j] as int - 1) else caps[j]
  {
  }

  /** The walk from `t` in half-hour steps while before `end`, touching each time of day. */
  function Sweep(caps: seq<nat>, t: int, end: int): (r: seq<nat>)
    ensures |r| == |caps| && forall j :: 0 <= j < |caps| ==> r[j] <= caps[j]
    decreases end - t
  {
    if t < end then Sweep(Touch(caps, MinuteOfDay(t)), t + SlotLength, end) else caps
  }

  /** How many steps of the walk from `t` to `end` land on grid position `j`'s time of day
      (more than one only for events longer than a day). */
  function Hits(t: int, end: int, j: int): nat
    decreases end - t
  {
    if t < end then (if MinuteOfDay(t) == SlotMinute(j) then 1 else 0) + Hits(t + SlotLength, end, j)
    else 0
  }

  function Floor0(x: int): nat {
    if x < 0 then 0 else x
  }

  /** The walk takes one place per hit from each position, stopping at zero. */
  lemma {:induction false} SweepCounts(caps: seq<nat>, t: int, end: int, j: int)
    requires 0 <= j < |caps| && j < SlotsPerDay
    ensures Sweep(caps, t, end)[j] == Floor0(caps[j] - Hits(t, end, j))
    decreases end - t
  {
    if t < end {
      var next := Touch(caps, MinuteOfDay(t));
      TouchAt(caps, MinuteOfDay(t), j);
      SweepCounts(next, t + SlotLength, end, j);
    }
  }

  /** The position of date `d` in the grid, if the grid has it. */
  function DayIndex(g: Grid, d: int): (r: Option<nat>)
    ensures r.Some? ==> r.value < |g| && g[r.value].day == d
    ensures r.None? ==> forall i :: 0 <= i < |g| ==> g[i].day != d
  {
    if g == [] then None
    else if g[0].day == d then Some(0)
    else match DayIndex(g[1..], d)
      case Some(i) => Some(i + 1)
      case None => None
  }

  /** One event walks its own start date's row only; an event without date-times, or whose
      start date is not in the grid, changes nothing. */
  function ApplyEvent(g: Grid, e: Busy): (r: Grid)
    ensures Shrinks(r, g)
  {
    if e.start.None? then g
    else match DayIndex(g, DayOf(e.start.value))
      case None => g
      case Some(i) =>
        if e.end.None? then g
        else
          g[i := DayGrid(g[i].day, Sweep(g[i].caps, e.start.value, e.end.value))]
  }

  /** An event takes places on its start date only, one per hit of each position. */
  lemma EventTakesPlaces(g: Grid, e: Busy, i: int, j: int)
    requires 0 <= i < |g| && 0 <= j < |g[i].caps| && j < SlotsPerDay
    ensures ApplyEvent(g, e)[i].caps[j] ==
      if e.start.Some? && e.end.Some? && g[i].day == DayOf(e.start.value)
      && (forall k :: 0 <= k < i ==> g[k].day != g[i].day)
      then Floor0(g[i].caps[j] - Hits(e.start.value, e.end.value, j))
      else g[i].caps[j]
  {
    if e.start.Some? {
      match DayIndex(g, DayOf(e.start.value))
      case None =>
      case Some(x) =>
        if e.end.Some? && x == i {
          SweepCounts(g[i].caps, e.start.value, e.end.value, j);
        }
        DayIndexFirst(g, DayOf(e.start.value));
    }
  }

  /** The time of day keeps the instant's offset within its half hour. */
  lemma HalfHourResidue(t: int)
    ensures MinuteOfDay(t) % SlotLength == t % SlotLength
  {
    var q := t / MinutesPerDay;
    assert t == SlotLength * (48 * q) + MinuteOfDay(t);
  }

  /** A walk that starts off the half hour never lands on a key. */
  lemma {:induction false} MisalignedHitsNothing(t: int, end: int, j: int)
    requires t % SlotLength != 0
    ensures Hits(t, end, j) == 0
    decreases end - t
  {
    if t < end {
      MisalignedMissesSlot(t, j);
      MisalignedStep(t);
      MisalignedHitsNothing(t + SlotLength, end, j);
    }
  }

  lemma MisalignedStep(t: int)
    requires t % SlotLength != 0
    ensures (t + SlotLength) % SlotLength != 0
  {
    assert (t + SlotLength) % SlotLength == t % SlotLength;
  }

  /** An instant off the half hour is at no slot's time of day. */
  lemma MisalignedMissesSlot(t: int, j: int)
    requires t % SlotLength != 0
    ensures MinuteOfDay(t) != SlotMinute(j)
  {
    HalfHourResidue(t);
    assert SlotMinute(j) == SlotLength * (16 + j);
  }

  /** An event that does not start on the hour or half hour takes no place at all. */
  lemma MisalignedEventTakesNothing(g: Grid, e: Busy, i: int, j: int)
    requires 0 <= i < |g| && 0 <= j < |g[i].caps| && j < SlotsPerDay
    requires e.start.Some? && e.start.value % SlotLength != 0
    ensures ApplyEvent(g, e)[i].caps[j] == g[i].caps[j]
  {
    EventTakesPlaces(g, e, i, j);
    if e.end.Some? {
      MisalignedHitsNothing(e.start.value, e.end.value, j);
    }
  }

  lemma {:induction false} DayIndexFirst(g: Grid, d: int)
    ensures DayIndex(g, d).Some? ==> forall k :: 0 <= k < DayIndex(g, d).value ==> g[k].day != d
  {
    if g != [] && g[0].day != d {
      DayIndexFirst(g[1..], d);
    }
  }

  /** The events in listing order. */
  function ApplyEvents(g: Grid, es: seq<Busy>): (r: Grid)
    decreases |es|
  {
    if es == [] then g else ApplyEvents(ApplyEvent(g, es[0]), es[1..])
  }

  lemma {:induction false} ApplyEventsShrinks(g: Grid, es: seq<Busy>)
    ensures Shrinks(ApplyEvents(g, es), g)
    decreases |es|
  {
    if es != [] {
      ApplyEventsShrinks(ApplyEvent(g, es[0]), es[1..]);
    }
  }

  /** A date no event starts on keeps every place. */
  lemma {:induction false} UntouchedDayKeepsPlaces(g: Grid, es: seq<Busy>, i: int)
    requires 0 <= i < |g|
    requires forall k :: 0 <= k < |es| && es[k].start.Some? ==> DayOf(es[k].start.value) != g[i].day
    ensures |ApplyEvents(g, es)| == |g| && ApplyEvents(g, es)[i] == g[i]
    decreases |es|
  {
    if es != [] {
      var h := ApplyEvent(g, es[0]);
      assert h[i] == g[i] by {
        if es[0].start.Some? {
          match DayIndex(g, DayOf(es[0].start.value))
          case None =>
          case Some(x) =>
        }
      }
      UntouchedDayKeepsPlaces(h, es[1..], i);
    }
  }

  // ---------------------------------------------------------------------------------------
  // Offering the earliest free slots
  // ---------------------------------------------------------------------------------------

  /** An offered slot: its date, time of day and remaining places. */
  datatype Slot = Slot(day: int, minute: int, places: nat)

  /** The instant the slot starts, by which the listing is sorted. */
  function Instant(s: Slot): int {
    s.day * MinutesPerDay + s.minute
  }

  ghost predicate Ascending(s: seq<Slot>) {
    forall a, b :: 0 <= a < b < |s| ==> Instant(s[a]) < Instant(s[b])
  }

  /** The slots of one date with a place left, from position `j` on. */
  function FreeFrom(d: DayGrid, j: nat): (r: seq<Slot>)
    ensures forall s :: s in r ==>
      s.day == d.day && s.places > 0 && SlotMinute(j) <= s.minute < SlotMinute(|d.caps|)
    decreases |d.caps| - j
  {
    if j >= |d.caps| then []
    else (if d.caps[j] > 0 then [Slot(d.day, SlotMinute(j), d.caps[j])] else []) + FreeFrom(d, j + 1)
  }

  /** Every slot of the grid with a place left, date by date, position by position. */
  function FreeSlots(g: Grid): (r: seq<Slot>)
    ensures forall s :: s in r ==> s.places > 0
  {
    if g == [] then [] else FreeFrom(g[0], 0) + FreeSlots(g[1..])
  }

  /** Position `j` of date `d` is free. */
  ghost predicate FreeAt(d: DayGrid, j: int, s: Slot) {
    0 <= j < |d.caps| && d.caps[j] > 0 && s == Slot(d.day, SlotMinute(j), d.caps[j])
  }

  lemma {:induction false} FreeFromMembers(d: DayGrid, j: nat, s: Slot)
    ensures s in FreeFrom(d, j) <==> exists k :: j <= k && FreeAt(d, k, s)
    decreases |d.caps| - j
  {
    if j < |d.caps| {
      FreeFromMembers(d, j + 1, s);
      assert FreeFrom(d, j) ==
        (if d.caps[j] > 0 then [Slot(d.day, SlotMinute(j), d.caps[j])] else []) + FreeFrom(d, j + 1);
      if exists k :: j <= k && FreeAt(d, k, s) {
        var k :| j <= k && FreeAt(d, k, s);
        if k != j {
          assert j + 1 <= k && FreeAt(d, k, s);
        }
      }
      if s in FreeFrom(d, j) && s !in FreeFrom(d, j + 1) {
        assert FreeAt(d, j, s);
      }
    }
  }

  /** The free slots are exactly the open positions of the grid. */
  lemma {:induction false} FreeSlotsMembers(g: Grid, s: Slot)
    ensures s in FreeSlots(g) <==> exists i, j :: 0 <= i < |g| && FreeAt(g[i], j, s)
  {
    if g != [] {
      FreeFromMembers(g[0], 0, s);
      FreeSlotsMembers(g[1..], s);
      if s in FreeSlots(g[1..]) {
        var i, j :| 0 <= i < |g[1..]| && FreeAt(g[1..][i], j, s);
        assert FreeAt(g[i + 1], j, s);
      }
      if exists i, j :: 0 <= i < |g| && FreeAt(g[i], j, s) {
        var i, j :| 0 <= i < |g| && FreeAt(g[i], j, s);
        if i > 0 {
          assert FreeAt(g[1..][i - 1], j, s);
        }
      }
    }
  }

  /** Two ascending runs, the first wholly before the second, make one. */
  lemma AscendingJoin(x: seq<Slot>, y: seq<Slot>)
    requires Ascending(x) && Ascending(y)
    requires forall a, b :: a in x && b in y ==> Instant(a) < Instant(b)
    ensures Ascending(x + y)
  {
    var z := x + y;
    forall a, b | 0 <= a < b < |z| ensures Instant(z[a]) < Instant(z[b]) {
      if b < |x| {
        assert z[a] == x[a] && z[b] == x[b];
      } else if a < |x| {
        assert z[a] == x[a] && x[a] in x;
        assert z[b] == y[b - |x|] && y[b - |x|] in y;
      } else {
        assert z[a] == y[a - |x|] && z[b] == y[b - |x|];
      }
    }
  }

  lemma {:induction false} FreeFromAscending(d: DayGrid, j: nat)
    ensures Ascending(FreeFrom(d, j))
    decreases |d.caps| - j
  {
    if j < |d.caps| {
      FreeFromAscending(d, j + 1);
      var head := if d.caps[j] > 0 then [Slot(d.day, SlotMinute(j), d.caps[j])] else [];
      AscendingJoin(head, FreeFrom(d, j + 1));
    }
  }

  /** The free slots come out in strictly ascending time: the listing's sort by start instant
      leaves them where they are. */
  lemma {:induction false} FreeSlotsAscending(g: Grid)
    requires ValidGrid(g)
    ensures Ascending(FreeSlots(g))
  {
    if g != [] {
      FreeFromAscending(g[0], 0);
      assert ValidGrid(g[1..]);
      FreeSlotsAscending(g[1..]);
      var x := FreeFrom(g[0], 0);
      var y := FreeSlots(g[1..]);
      forall s | s in y ensures s.day > g[0].day && s.minute >= 0 {
        FreeSlotsMembers(g[1..], s);
        var i, j :| 0 <= i < |g[1..]| && FreeAt(g[1..][i], j, s);
        assert g[i + 1].day > g[0].day;
      }
      AscendingJoin(x, y);
    }
  }

  /** The (at most three) earliest free slots. */
  function Offer(g: Grid): (r: seq<Slot>)
    ensures |r| <= MaxOffered && forall s :: s in r ==> s.places > 0
  {
    var f := FreeSlots(g);
    if |f| <= MaxOffered then f else f[..MaxOffered]
  }

  /** What is offered is free, ascending, and no free slot left out starts before an offered
      one; fewer than three are offered only when nothing else is free. */
  lemma OfferEarliest(g: Grid)
    requires ValidGrid(g)
    ensures var r := Offer(g);
      Ascending(r)
      && (forall s :: s in r ==> s in FreeSlots(g))
      && (forall s, o :: s in FreeSlots(g) && s !in r && o in r ==> Instant(o) < Instant(s))
      && (|r| < MaxOffered ==> forall s :: s in FreeSlots(g) ==> s in r)
  {
    FreeSlotsAscending(g);
    var f := FreeSlots(g);
    if |f| > MaxOffered {
      TakeEarliest(f, MaxOffered);
    }
  }

  /** A prefix of an ascending run is ascending and starts before everything it leaves out. */
  lemma TakeEarliest(f: seq<Slot>, n: nat)
    requires Ascending(f) && n <= |f|
    ensures Ascending(f[..n]) && forall s :: s in f[..n] ==> s in f
    ensures forall s, o :: s in f && s !in f[..n] && o in f[..n] ==> Instant(o) < Instant(s)
  {
    var r := f[..n];
    assert forall k :: 0 <= k < n ==> f[k] == r[k] && r[k] in r;
    forall s, o | s in f && s !in r && o in r ensures Instant(o) < Instant(s) {
      var a :| 0 <= a < |r| && r[a] == o;
      var b :| 0 <= b < |f| && f[b] == s;
      assert r[a] == f[a];
    }
  }

  // ---------------------------------------------------------------------------------------
  // consultarDisponibilidad
  // ---------------------------------------------------------------------------------------

  datatype Availability = Availability(available: bool, message: string, slots: seq<Slot>)

  /** The grid after the listed events, for a query at `start` made on date `today`. */
  function Schedule(start: int, today: int, events: seq<Busy>): Grid {
    ApplyEvents(InitialGrid(DayOf(WindowStart(start, today))), events)
  }

  /** `consultarDisponibilidad`: the offer on the grid the listed events leave; a failed
      listing is the error's message. */
  function CheckAvailability(start: int, today: int, events: Result<seq<Busy>, string>)
    : (r: Result<Availability, string>)
    ensures events.Failure? ==> r == Failure(events.error)
    ensures r.Success? ==> |r.value.slots| <= MaxOffered
    ensures r.Success? ==> (r.value.available <==> r.value.slots != [])
    ensures r.Success? ==> r.value.message == (if r.value.available then SlotsMessage else NoSlotsMessage)
  {
    match events
    case Failure(e) => Failure(e)
    case Success(es) =>
      var slots := Offer(Schedule(start, today, es));
      if slots == [] then Success(Availability(false, NoSlotsMessage, []))
      else Success(Availability(true, SlotsMessage, slots))
  }

  /** The offered slots are free workday slots of the window, 08:00 to 19:30, with one or
      two places, ascending, and the earliest free ones. */
  lemma OfferedSlots(start: int, today: int, es: seq<Busy>)
    ensures var g := Schedule(start, today, es);
      var first := DayOf(WindowStart(start, today));
      var r := CheckAvailability(start, today, Success(es));
      r.Success? && r.value.slots == Offer(g)
      && Ascending(r.value.slots)
      && (forall s :: s in r.value.slots ==>
            first <= s.day <= first + WindowDays && IsWorkday(s.day)
            && SlotAt(s.minute).Some? && 0 < s.places <= SlotCapacity)
      && (forall s, o :: s in FreeSlots(g) && s !in r.value.slots && o in r.value.slots ==>
            Instant(o) < Instant(s))
  {
    var first := DayOf(WindowStart(start, today));
    var g := Schedule(start, today, es);
    ScheduleValid(start, today, es);
    OfferEarliest(g);
    forall s | s in Offer(g)
      ensures first <= s.day <= first + WindowDays && IsWorkday(s.day)
      ensures SlotAt(s.minute).Some? && 0 < s.places <= SlotCapacity
    {
      FreeSlotInWindow(g, first, s);
    }
  }

  lemma ScheduleValid(start: int, today: int, es: seq<Busy>)
    ensures ValidGrid(Schedule(start, today, es))
    ensures WithinWindow(Schedule(start, today, es), DayOf(WindowStart(start, today)))
  {
    var first := DayOf(WindowStart(start, today));
    var g0 := InitialGrid(first);
    InitialGridShape(first);
    ApplyEventsShrinks(g0, es);
    ShrinksKeepsValid(Schedule(start, today, es), g0, first);
  }

  lemma FreeSlotInWindow(g: Grid, first: int, s: Slot)
    requires ValidGrid(g) && WithinWindow(g, first) && s in FreeSlots(g)
    ensures first <= s.day <= first + WindowDays && IsWorkday(s.day)
    ensures SlotAt(s.minute).Some? && 0 < s.places <= SlotCapacity
  {
    FreeSlotsMembers(g, s);
    var i, j :| 0 <= i < |g| && FreeAt(g[i], j, s);
    assert SlotAt(SlotMinute(j)) == Some(j);
  }

  /** With no events and a workday as the window's first date, the offer is that date's
      08:00, 08:30 and 09:00, two places each. */
  lemma EmptyCalendarOffersMorning(start: int, today: int)
    requires IsWorkday(DayOf(WindowStart(start, today)))
    ensures var d := DayOf(WindowStart(start, today));
      CheckAvailability(start, today, Success([])) ==
      Success(Availability(true, SlotsMessage, [Slot(d, 480, 2), Slot(d, 510, 2), Slot(d, 540, 2)]))
  {
    var d := DayOf(WindowStart(start, today));
    var g := InitialGrid(d);
    OpenDaysStep(d, WindowDays + 1, IsWorkday);
    OfferOpenMorning(g, d);
    assert ApplyEvents(g, []) == g;
  }

  /** A grid whose first date is fully open offers that date's morning. */
  lemma OfferOpenMorning(g: Grid, d: int)
    requires |g| > 0 && g[0] == DayGrid(d, FullCaps())
    ensures Offer(g) == [Slot(d, 480, 2), Slot(d, 510, 2), Slot(d, 540, 2)]
  {
    MorningSlots(d);
    var x := FreeFrom(g[0], 0);
    assert FreeSlots(g) == x + FreeSlots(g[1..]);
    assert (x + FreeSlots(g[1..]))[..3] == x[..3];
  }

  /** A fully open date's first three free slots are 08:00, 08:30 and 09:00. */
  lemma MorningSlots(d: int)
    ensures var x := FreeFrom(DayGrid(d, FullCaps()), 0);
      |x| >= 3 && x[..3] == [Slot(d, 480, 2), Slot(d, 510, 2), Slot(d, 540, 2)]
  {
    var day := DayGrid(d, FullCaps());
    assert FreeFrom(day, 2) == [Slot(d, 540, 2)] + FreeFrom(day, 3);
    assert FreeFrom(day, 1) == [Slot(d, 510, 2)] + FreeFrom(day, 2);
    assert FreeFrom(day, 0) == [Slot(d, 480, 2)] + FreeFrom(day, 1);
  }

  // ---------------------------------------------------------------------------------------
  // crearEvento
  // ---------------------------------------------------------------------------------------

  /** An event to insert: title, start and end instants. */
  datatype NewEvent = NewEvent(summary: string, start: int, end: int)

  /** The insertions made, and the answer: the success message or an error message. */
  datatype Booking = Booking(inserted: seq<NewEvent>, result: Result<string, string>)

  /** The first offered slot on `date` whose `HH:mm` key is `time`. */
  function FindOffered(slots: seq<Slot>, date: int, time: string): (r: Option<Slot>)
    ensures r.Some? ==>
      r.value in slots && r.value.day == date && 0 <= r.value.minute < MinutesPerDay
      && SlotKey(r.value.minute) == time
    ensures r.None? ==>
      forall s :: s in slots && s.day == date && 0 <= s.minute < MinutesPerDay ==> SlotKey(s.minute) != time
  {
    if slots == [] then None
    else if slots[0].day == date && 0 <= slots[0].minute < MinutesPerDay
      && SlotKey(slots[0].minute) == time then Some(slots[0])
    else FindOffered(slots[1..], date, time)
  }

  /** `crearEvento` for `patient` on `date` at `time`: the availability is asked for that
      date, and the half-hour appointment is inserted only when `time` is the key of one of the
      offered slots on that date; `insert` is what the calendar answers to the insertion. */
  function BookAppointment(date: int, time: string, patient: string, today: int,
                           events: Result<seq<Busy>, string>, insert: Result<string, string>)
    : (r: Booking)
    ensures |r.inserted| <= 1
    ensures r.result.Success? <==> r.inserted != [] && insert.Success?
    ensures r.result.Failure? ==>
      r.result.error == (if r.inserted == [] then UnavailableMessage else BookingErrorMessage)
  {
    var availability := CheckAvailability(date * MinutesPerDay, today, events);
    if availability.Failure? || !availability.value.available then Booking([], Failure(UnavailableMessage))
    else BookFrom(availability.value.slots, date, time, patient, insert)
  }

  /** The booking once the offer is known: the requested slot must be one of `offered`. */
  function BookFrom(offered: seq<Slot>, date: int, time: string, patient: string,
                    insert: Result<string, string>): (r: Booking)
    ensures |r.inserted| <= 1
    ensures r.result.Success? <==> r.inserted != [] && insert.Success?
    ensures r.result.Failure? ==>
      r.result.error == (if r.inserted == [] then UnavailableMessage else BookingErrorMessage)
  {
    match FindOffered(offered, date, time)
    case None => Booking([], Failure(UnavailableMessage))
    case Some(s) =>
      if s.places == 0 then Booking([], Failure(UnavailableMessage))
      else
        var event := NewEvent(AppointmentPrefix + patient, date * MinutesPerDay + s.minute,
                              date * MinutesPerDay + s.minute + SlotLength);
        Booking([event], if insert.Success? then Success(BookedMessage) else Failure(BookingErrorMessage))
  }

  /** With every offered slot open, an insertion happens exactly when the requested date and key
      name an offered slot, and it takes that slot's half hour. */
  lemma BookFromOffered(offered: seq<Slot>, date: int, time: string, patient: string,
                        insert: Result<string, string>)
    requires forall s :: s in offered ==> s.places > 0
    ensures var r := BookFrom(offered, date, time, patient, insert);
      (r.inserted != [] <==>
         exists s :: s in offered && s.day == date && 0 <= s.minute < MinutesPerDay && SlotKey(s.minute) == time)
      && (r.inserted != [] ==>
            exists s :: s in offered && s.day == date && 0 <= s.minute < MinutesPerDay
              && SlotKey(s.minute) == time
              && r.inserted == [NewEvent(AppointmentPrefix + patient, Instant(s), Instant(s) + SlotLength)])
  {
  }

  /** An appointment is inserted exactly when the requested date and key are among the offered
      slots; it then takes that slot's half hour and is titled with the patient's name. */
  lemma BookingOnlyOffered(date: int, time: string, patient: string, today: int,
                           es: seq<Busy>, insert: Result<string, string>)
    ensures var r := BookAppointment(date, time, patient, today, Success(es), insert);
      var offered := Offer(Schedule(date * MinutesPerDay, today, es));
      (r.inserted != [] <==>
         exists s :: s in offered && s.day == date && 0 <= s.minute < MinutesPerDay && SlotKey(s.minute) == time)
      && (r.inserted != [] ==>
            exists s :: s in offered && s.day == date && 0 <= s.minute < MinutesPerDay
              && SlotKey(s.minute) == time
              && r.inserted == [NewEvent(AppointmentPrefix + patient, Instant(s), Instant(s) + SlotLength)])
  {
    var offered := Offer(Schedule(date * MinutesPerDay, today, es));
    BookFromOffered(offered, date, time, patient, insert);
    if offered == [] {
      assert BookFrom(offered, date, time, patient, insert).inserted == [];
    }
  }

  /** A date before today is never booked: the window starts today. */
  lemma PastDateNotBooked(date: int, time: string, patient: string, today: int,
                          events: Result<seq<Busy>, string>, insert: Result<string, string>)
    requires date < today
    ensures BookAppointment(date, time, patient, today, events, insert).inserted == []
  {
    if events.Success? {
      OfferedSlots(date * MinutesPerDay, today, events.value);
      assert DayOf(WindowStart(date * MinutesPerDay, today)) == today;
    }
  }

  /** A failed listing books nothing. */
  lemma ListingFailureNotBooked(date: int, time: string, patient: string, today: int,
                                e: string, insert: Result<string, string>)
    ensures BookAppointment(date, time, patient, today, Failure(e), insert)
      == Booking([], Failure(UnavailableMessage))
  {
  }

  // ---------------------------------------------------------------------------------------
  // cancelarEvento
  // ---------------------------------------------------------------------------------------

  /** An event of the day's listing: its id, its title (`None` when it has none), and whether
      it carries a start. */
  datatype Listed = Listed(id: string, summary: Option<string>, hasStart: bool)

  datatype CancelOutcome =
    | Cancelled(done: seq<string>)
    | PartlyCancelled(done: seq<string>, failed: seq<string>)
    | CancelFailed(message: string)

  /** The deletions requested, and the answer. */
  datatype Cancellation = Cancellation(deletes: seq<string>, outcome: CancelOutcome)

  ghost predicate AllTitled(items: seq<Listed>) {
    forall k :: 0 <= k < |items| ==> items[k].summary.Some?
  }

  /** The title names the patient, ignoring case. */
  predicate Names(e: Listed, patient: string)
    requires e.summary.Some?
  {
    Contains(Lower(e.summary.value), Lower(patient))
  }

  function Matching(items: seq<Listed>, patient: string): (r: seq<Listed>)
    requires AllTitled(items)
    ensures forall e :: e in r <==> e in items && Names(e, patient)
  {
    if items == [] then []
    else (if Names(items[0], patient) then [items[0]] else []) + Matching(items[1..], patient)
  }

  function Ids(items: seq<Listed>): (r: seq<string>)
    ensures |r| == |items| && forall k :: 0 <= k < |items| ==> r[k] == items[k].id
  {
    if items == [] then [] else [items[0].id] + Ids(items[1..])
  }

  /** Whether one cancellation counts as done: the deletion went through and the event's start
      could be read back for the report. */
  predicate Done(e: Listed, deleted: string -> bool) {
    deleted(e.id) && e.hasStart
  }

  function DoneIds(items: seq<Listed>, deleted: string -> bool): (r: seq<string>)
    ensures forall x :: x in r ==> exists e :: e in items && e.id == x && Done(e, deleted)
  {
    if items == [] then []
    else (if Done(items[0], deleted) then [items[0].id] else []) + DoneIds(items[1..], deleted)
  }

  function FailedIds(items: seq<Listed>, deleted: string -> bool): (r: seq<string>)
    ensures r == [] <==> forall e :: e in items ==> Done(e, deleted)
  {
    if items == [] then []
    else (if Done(items[0], deleted) then [] else [items[0].id]) + FailedIds(items[1..], deleted)
  }

  /** `cancelarEvento`: every event of the day's listing whose title names the patient is
      deleted; the answer is an error when none does or when any of them failed. An untitled
      event in the listing makes the filter throw, so nothing is deleted. */
  function CancelAppointment(patient: string, listing: Result<seq<Listed>, string>,
                             deleted: string -> bool): (r: Cancellation)
    ensures listing.Failure? ==> r == Cancellation([], CancelFailed(CancelErrorMessage))
    ensures r.outcome.Cancelled? ==> forall x :: x in r.deletes ==> x in r.outcome.done
  {
    match listing
    case Failure(_) => Cancellation([], CancelFailed(CancelErrorMessage))
    case Success(items) =>
      if items == [] then Cancellation([], CancelFailed(NoAppointmentMessage))
      else if exists k :: 0 <= k < |items| && items[k].summary.None? then
        Cancellation([], CancelFailed(CancelErrorMessage))
      else
        var hits := Matching(items, patient);
        if hits == [] then Cancellation([], CancelFailed(NoAppointmentMessage))
        else
          var failed := FailedIds(hits, deleted);
          if failed != [] then Cancellation(Ids(hits), PartlyCancelled(DoneIds(hits, deleted), failed))
          else
            DoneAll(hits, deleted);
            Cancellation(Ids(hits), Cancelled(DoneIds(hits, deleted)))
  }

  lemma {:induction false} DoneAll(items: seq<Listed>, deleted: string -> bool)
    requires forall e :: e in items ==> Done(e, deleted)
    ensures DoneIds(items, deleted) == Ids(items)
  {
    if items != [] {
      DoneAll(items[1..], deleted);
    }
  }

  lemma IdsMembers(items: seq<Listed>, x: string)
    ensures x in Ids(items) <==> exists e :: e in items && e.id == x
  {
    if x in Ids(items) {
      var k :| 0 <= k < |items| && Ids(items)[k] == x;
      assert items[k] in items;
    }
    if exists e :: e in items && e.id == x {
      var e :| e in items && e.id == x;
      var k :| 0 <= k < |items| && items[k] == e;
      assert Ids(items)[k] == x;
    }
  }

  /** The deletions asked for are exactly the listed events whose title names the patient. */
  lemma CancelTargets(patient: string, items: seq<Listed>, deleted: string -> bool, x: string)
    requires AllTitled(items)
    ensures x in CancelAppointment(patient, Success(items), deleted).deletes <==>
      exists e :: e in items && Names(e, patient) && e.id == x
  {
    var hits := Matching(items, patient);
    if items != [] && hits != [] {
      IdsMembers(hits, x);
    }
  }

  /** The answer is success exactly when some listed title names the patient and every such
      event was deleted and reported. */
  lemma CancelSucceeds(patient: string, items: seq<Listed>, deleted: string -> bool)
    requires AllTitled(items)
    ensures CancelAppointment(patient, Success(items), deleted).outcome.Cancelled? <==>
      (exists e :: e in items && Names(e, patient))
      && forall e :: e in items && Names(e, patient) ==> Done(e, deleted)
  {
    var hits := Matching(items, patient);
    if items != [] && hits != [] {
      assert hits[0] in hits;
    }
  }

  /** No title in the listing names the patient: nothing is deleted and the answer says no
      appointment was found. */
  lemma NoMatchDeletesNothing(patient: string, items: seq<Listed>, deleted: string -> bool)
    requires AllTitled(items)
    requires forall e :: e in items ==> !Names(e, patient)
    ensures CancelAppointment(patient, Success(items), deleted) ==
      Cancellation([], CancelFailed(NoAppointmentMessage))
  {
    MatchingNone(items, patient);
  }

  lemma {:induction false} MatchingNone(items: seq<Listed>, patient: string)
    requires AllTitled(items)
    requires forall e :: e in items ==> !Names(e, patient)
    ensures Matching(items, patient) == []
  {
    if items != [] {
      assert items[0] in items;
      MatchingNone(items[1..], patient);
    }
  }
}
