/**
 * The panorama backgrounds of src/data/saratovBackgrounds.ts: the time-of-day
 * classification of the hour and the random pick among the backgrounds of one
 * time of day. The hour and the value of `Math.random()` are parameters.
 */
module Backgrounds {
  import opened Numbers

  datatype TimeOfDay = Night | Evening | Day

  /** A background; its CSS gradient fallback is not modelled. */
  datatype Background = Background(
    id: string,
    name: string,
    description: string,
    timeOfDay: TimeOfDay,
    imageUrl: string)

  /** `saratovBackgrounds`. */
  const SaratovBackgrounds: seq<Background> := [
    Background("night-panorama-1", "Ночная панорама с мостом",
      "Потрясающий вид на освещенный мост через Волгу", Night,
      "/images/saratov-panoramas/night-bridge-panorama.jpg"),
    Background("evening-panorama-1", "Вечерняя панорама",
      "Золотой час над Саратовом", Evening, ""),
    Background("evening-panorama-2", "Вечерний мост",
      "Освещенный мост в сумерках", Evening, ""),
    Background("night-panorama-2", "Ночные огни Саратова",
      "Городская иллюминация и отражения в Волге", Night, ""),
    Background("day-panorama-1", "Дневная панорама",
      "Светлый день над городом", Day, "")
  ]

  /** `getCurrentTimeOfDay` for the hour returned by `getHours()`. */
  function TimeOfDayAt(hour: int): TimeOfDay {
    if hour >= 22 || hour < 6 then Night
    else if hour >= 17 && hour < 22 then Evening
    else Day
  }

  /** Night is 22:00 to 05:59, evening 17:00 to 21:59 and day 06:00 to 16:59; the three
      cases are exclusive and cover every hour. */
  lemma TimeOfDayClasses(hour: int)
    ensures TimeOfDayAt(hour) == Night <==> hour >= 22 || hour < 6
    ensures TimeOfDayAt(hour) == Evening <==> 17 <= hour < 22
    ensures TimeOfDayAt(hour) == Day <==> 6 <= hour < 17
  {
  }

  /** `backgrounds.filter(bg => bg.timeOfDay === timeOfDay)`. */
  function OfTime(backgrounds: seq<Background>, timeOfDay: TimeOfDay): (r: seq<Background>)
    ensures |r| <= |backgrounds|
    ensures forall b :: b in r <==> b in backgrounds && b.timeOfDay == timeOfDay
  {
    if backgrounds == [] then []
    else (if backgrounds[0].timeOfDay == timeOfDay then [backgrounds[0]] else [])
         + OfTime(backgrounds[1..], timeOfDay)
  }

  /** `getBackgroundByTime` over a background table. */
  function ByTime(backgrounds: seq<Background>, timeOfDay: TimeOfDay, random: real): Background
    requires 0.0 <= random < 1.0 && |backgrounds| > 0
  {
    var filtered := OfTime(backgrounds, timeOfDay);
    if |filtered| == 0 then backgrounds[0]
    else filtered[RandomIndex(random, |filtered|)]
  }

  /** When the table has a background of the requested time of day, the pick is one of
      them; otherwise it is the table's first entry. */
  lemma ByTimeMatches(backgrounds: seq<Background>, timeOfDay: TimeOfDay, random: real)
    requires 0.0 <= random < 1.0 && |backgrounds| > 0
    ensures var b := ByTime(backgrounds, timeOfDay, random);
      if exists k :: 0 <= k < |backgrounds| && backgrounds[k].timeOfDay == timeOfDay
      then b in backgrounds && b.timeOfDay == timeOfDay
      else b == backgrounds[0]
  {
    var filtered := OfTime(backgrounds, timeOfDay);
    if exists k :: 0 <= k < |backgrounds| && backgrounds[k].timeOfDay == timeOfDay {
      var k :| 0 <= k < |backgrounds| && backgrounds[k].timeOfDay == timeOfDay;
      assert backgrounds[k] in filtered;
      var i := RandomIndex(random, |filtered|);
      assert filtered[i] in filtered;
    } else {
      OfTimeNone(backgrounds, timeOfDay);
    }
  }

  /** With no background of that time of day the filter keeps nothing. */
  lemma {:induction false} OfTimeNone(backgrounds: seq<Background>, timeOfDay: TimeOfDay)
    requires forall k :: 0 <= k < |backgrounds| ==> backgrounds[k].timeOfDay != timeOfDay
    ensures OfTime(backgrounds, timeOfDay) == []
  {
    if backgrounds != [] {
      assert forall k :: 0 <= k < |backgrounds[1..]| ==> backgrounds[1..][k] == backgrounds[k + 1];
      OfTimeNone(backgrounds[1..], timeOfDay);
    }
  }

  /** `getBackgroundByTime(timeOfDay)`. */
  function BackgroundByTime(timeOfDay: TimeOfDay, random: real): Background
    requires 0.0 <= random < 1.0
  {
    ByTime(SaratovBackgrounds, timeOfDay, random)
  }

  /** The table has a background for each time of day, so `getBackgroundByTime` always
      returns one of the requested time of day. */
  lemma BackgroundByTimeIsOfThatTime(timeOfDay: TimeOfDay, random: real)
    requires 0.0 <= random < 1.0
    ensures BackgroundByTime(timeOfDay, random) in SaratovBackgrounds
    ensures BackgroundByTime(timeOfDay, random).timeOfDay == timeOfDay
  {
    var k := match timeOfDay case Night => 0 case Evening => 1 case Day => 4;
    assert SaratovBackgrounds[k].timeOfDay == timeOfDay;
    ByTimeMatches(SaratovBackgrounds, timeOfDay, random);
  }

  /** `getRandomBackground()`. */
  function RandomBackground(random: real): (b: Background)
    requires 0.0 <= random < 1.0
    ensures b in SaratovBackgrounds
  {
    SaratovBackgrounds[RandomIndex(random, |SaratovBackgrounds|)]
  }
}
