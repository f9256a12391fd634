/**
 * The event rules of src/components/EventsMap.tsx: the status of an event at a
 * given time, the category filter, the counters of the header and the category
 * buttons, the price label and the marker emoji. Dates are millisecond timestamps
 * and the current time is a parameter.
 */
module EventsMap {
  import opened Wrappers
  import opened Types
  import Text

  datatype EventStatus = Upcoming | Ongoing | Ended

  /** `getEventStatus(event)` at time `now`. */
  function StatusAt(event: Event, now: int): EventStatus {
    if now < event.startDate then Upcoming
    else if now >= event.startDate && now <= event.endDate then Ongoing
    else Ended
  }

  /** Upcoming before the start, ongoing from the start to the end inclusive, ended after. */
  lemma StatusClasses(event: Event, now: int)
    ensures StatusAt(event, now) == Upcoming <==> now < event.startDate
    ensures StatusAt(event, now) == Ongoing <==> event.startDate <= now <= event.endDate
    ensures StatusAt(event, now) == Ended <==> now >= event.startDate && now > event.endDate
  {
  }

  /** The label and colour shown for a status. */
  function StatusText(status: EventStatus): string {
    match status
    case Upcoming => "Скоро"
    case Ongoing => "Идет сейчас"
    case Ended => "Завершено"
  }

  function StatusColor(status: EventStatus): string {
    match status
    case Upcoming => "#3498db"
    case Ongoing => "#27ae60"
    case Ended => "#95a5a6"
  }

  /** Each status has a label and a colour of its own. */
  lemma StatusDisplayInjective(a: EventStatus, b: EventStatus)
    requires StatusText(a) == StatusText(b) || StatusColor(a) == StatusColor(b)
    ensures a == b
  {
    assert StatusText(Upcoming)[0] != StatusText(Ongoing)[0] && StatusText(Ongoing)[0] != StatusText(Ended)[0]
           && StatusText(Upcoming)[0] != StatusText(Ended)[0];
    assert StatusColor(Upcoming)[1] != StatusColor(Ongoing)[1] && StatusColor(Ongoing)[1] != StatusColor(Ended)[1]
           && StatusColor(Upcoming)[1] != StatusColor(Ended)[1];
  }

  /** The event is listed under the selected category ('all' or a category id). */
  predicate Listed(e: Event, selected: string) {
    e.isActive && (selected == "all" || EventCategoryId(e.category) == selected)
  }

  /** `filteredEvents` for the selected category. */
  function FilteredEvents(events: seq<Event>, selected: string): (r: seq<Event>)
    ensures |r| <= |events|
    ensures forall e :: e in r <==> e in events && Listed(e, selected)
  {
    if events == [] then []
    else (if Listed(events[0], selected) then [events[0]] else []) + FilteredEvents(events[1..], selected)
  }

  /** The filter distributes over concatenation, so the listed events keep their order. */
  lemma {:induction false} FilteredEventsAppend(a: seq<Event>, b: seq<Event>, selected: string)
    ensures FilteredEvents(a + b, selected) == FilteredEvents(a, selected) + FilteredEvents(b, selected)
  {
    if a == [] {
      assert a + b == b;
    } else {
      assert (a + b)[0] == a[0];
      assert (a + b)[1..] == a[1..] + b;
      FilteredEventsAppend(a[1..], b, selected);
    }
  }

  /** 'all' keeps every active event and nothing else; a category id keeps the active
      events of that category. */
  lemma FilteredEventsSelection(events: seq<Event>, selected: string)
    ensures selected == "all" ==> forall e :: e in FilteredEvents(events, selected) <==> e in events && e.isActive
    ensures selected != "all" ==> forall e :: e in FilteredEvents(events, selected) <==>
              e in events && e.isActive && EventCategoryId(e.category) == selected
  {
  }

  /** The number on a category button and, for 'all', the active-events counter:
      `events.filter(...).length`. */
  function ListedCount(events: seq<Event>, selected: string): nat {
    |FilteredEvents(events, selected)|
  }

  /** No category button counts more events than the 'all' button. */
  lemma {:induction false} CategoryCountAtMostAll(events: seq<Event>, selected: string)
    ensures ListedCount(events, selected) <= ListedCount(events, "all")
  {
    if events != [] {
      CategoryCountAtMostAll(events[1..], selected);
    }
  }

  /** `events.filter(e => e.isActive && getEventStatus(e).status === 'ongoing')` at `now`. */
  function OngoingEvents(events: seq<Event>, now: int): (r: seq<Event>)
    ensures forall e :: e in r <==> e in events && e.isActive && StatusAt(e, now) == Ongoing
  {
    if events == [] then []
    else (if events[0].isActive && StatusAt(events[0], now) == Ongoing then [events[0]] else [])
         + OngoingEvents(events[1..], now)
  }

  /** The 'Идут сейчас' counter. */
  function OngoingCount(events: seq<Event>, now: int): nat {
    |OngoingEvents(events, now)|
  }

  /** Only active events are ongoing ones, so the ongoing counter never exceeds the
      active counter. */
  lemma {:induction false} OngoingAtMostActive(events: seq<Event>, now: int)
    ensures OngoingCount(events, now) <= ListedCount(events, "all")
  {
    if events != [] {
      OngoingAtMostActive(events[1..], now);
    }
  }

  /** `formatPrice(price)`. */
  function FormatPrice(price: Option<int>): (shown: string)
    ensures price.None? ==> shown == "Уточняется"
    ensures price == Some(0) ==> shown == "Бесплатно"
    ensures price.Some? && price.value != 0 ==> shown == Text.IntToString(price.value) + " ₽"
  {
    match price
    case None => "Уточняется"
    case Some(p) => if p == 0 then "Бесплатно" else Text.IntToString(p) + " ₽"
  }

  /** Distinct prices get distinct labels. */
  lemma FormatPriceInjective(p: Option<int>, q: Option<int>)
    requires FormatPrice(p) == FormatPrice(q)
    ensures p == q
  {
    if p.Some? && q.Some? && p.value != 0 && q.value != 0 {
      var a := Text.IntToString(p.value);
      var b := Text.IntToString(q.value);
      assert a + " ₽" == b + " ₽";
      assert |a| == |b|;
      assert a == (a + " ₽")[..|a|];
      assert b == (b + " ₽")[..|b|];
      Text.IntToStringInjective(p.value, q.value);
    } else if p.Some? && p.value != 0 {
      NotSpecialLabel(p.value);
    } else if q.Some? && q.value != 0 {
      NotSpecialLabel(q.value);
    }
  }

  /** A price label ends in the rouble sign, the two special labels do not. */
  lemma NotSpecialLabel(p: int)
    ensures Text.IntToString(p) + " ₽" != "Уточняется"
    ensures Text.IntToString(p) + " ₽" != "Бесплатно"
  {
    var l := Text.IntToString(p) + " ₽";
    assert l[|l| - 1] == '₽';
  }

  /** The marker emoji of `createEventIcon`, with a calendar for any other category. */
  function EventEmoji(category: string): (emoji: string)
    ensures category !in {"culture", "food", "entertainment", "sport", "education"} ==> emoji == "\U{1F4C5}"
  {
    if category == "culture" then "\U{1F3AD}"
    else if category == "food" then "\U{1F37D}\U{FE0F}"
    else if category == "entertainment" then "\U{1F389}"
    else if category == "sport" then "\U{1F3C3}"
    else if category == "education" then "\U{1F4DA}"
    else "\U{1F4C5}"
  }
}
