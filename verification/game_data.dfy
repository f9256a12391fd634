/** The user-level table and level lookup of src/data/gameData.ts. */
module GameData {
  import opened Wrappers
  import opened Types

  /** `userLevels`; level 6 has no upper bound (`maxPoints: Infinity`). */
  const UserLevels: seq<UserLevel> := [
    UserLevel(1, "Новичок", 0, Some(99),
      ["Доступ к базовым маршрутам",
        "Скидка 5% у партнеров"],
      "\U{1F331}", "#68d391", "\U{1F331}"),
    UserLevel(2, "Турист", 100, Some(299),
      ["Доступ к расширенным маршрутам",
        "Скидка 10% у партнеров",
        "Приоритетная поддержка"],
      "\U{1F392}", "#4299e1", "\U{1F392}"),
    UserLevel(3, "Путешественник", 300, Some(599),
      ["Доступ к премиум маршрутам",
        "Скидка 15% у партнеров",
        "Эксклюзивные события",
        "Персональные рекомендации"],
      "\U{1F5FA}\U{FE0F}", "#805ad5", "\U{1F5FA}\U{FE0F}"),
    UserLevel(4, "Исследователь", 600, Some(999),
      ["Доступ ко всем маршрутам",
        "Скидка 20% у партнеров",
        "Бесплатные экскурсии (1 в месяц)",
        "Закрытые мероприятия",
        "Бета-тестирование новых функций"],
      "\U{1F50D}", "#ed8936", "\U{1F50D}"),
    UserLevel(5, "Знаток Саратова", 1000, Some(1999),
      ["Все привилегии предыдущих уровней",
        "Скидка 25% у партнеров",
        "Бесплатные экскурсии (2 в месяц)",
        "Бесплатные билеты на городские события",
        "Участие в создании контента",
        "VIP-поддержка"],
      "\U{1F3DB}\U{FE0F}", "#e53e3e", "\U{1F3DB}\U{FE0F}"),
    UserLevel(6, "Амбассадор города", 2000, None,
      ["Все привилегии предыдущих уровней",
        "Скидка 30% у партнеров",
        "Безлимитные бесплатные экскурсии",
        "Персональный гид при необходимости",
        "Участие в управлении сообществом",
        "Специальные награды и подарки",
        "Именная табличка в зале славы"],
      "\U{1F451}", "#d69e2e", "\U{1F451}")
  ]

  /** `points >= level.minPoints && points <= level.maxPoints`. */
  predicate InRange(level: UserLevel, points: real) {
    points >= level.minPoints as real
      && (level.maxPoints.None? || points <= level.maxPoints.value as real)
  }

  /** `levels.findIndex(...)` for the range test: the first level whose range holds the points. */
  function FirstInRange(levels: seq<UserLevel>, points: real): (r: Option<nat>)
    ensures r.Some? ==> r.value < |levels| && InRange(levels[r.value], points)
    ensures r.Some? ==> forall j :: 0 <= j < r.value ==> !InRange(levels[j], points)
    ensures r.None? <==> forall j :: 0 <= j < |levels| ==> !InRange(levels[j], points)
  {
    if levels == [] then None
    else if InRange(levels[0], points) then Some(0)
    else match FirstInRange(levels[1..], points)
      case None => None
      case Some(i) => Some(i + 1)
  }

  /** `getUserLevel`: the first matching level, or `userLevels[0]` when none matches. */
  function GetUserLevel(points: real): (level: UserLevel)
    ensures level in UserLevels
  {
    match FirstInRange(UserLevels, points)
    case Some(i) => UserLevels[i]
    case None => UserLevels[0]
  }

  /** The table lists levels 1 to 6 in order, with strictly increasing lower bounds,
      and each finite range is non-empty. */
  lemma LevelTableShape()
    ensures |UserLevels| == 6
    ensures forall i :: 0 <= i < 6 ==> UserLevels[i].level == i + 1
    ensures forall i, j :: 0 <= i < j < 6 ==> UserLevels[i].minPoints < UserLevels[j].minPoints
    ensures forall i :: 0 <= i < 5 ==> UserLevels[i].maxPoints == Some(UserLevels[i + 1].minPoints - 1)
    ensures UserLevels[5].maxPoints.None? && UserLevels[0].minPoints == 0
  {
  }

  /** The ranges are disjoint, so a level that holds the points is the only one. */
  lemma RangesDisjoint(points: real, i: nat, j: nat)
    requires i < j < |UserLevels|
    ensures !(InRange(UserLevels[i], points) && InRange(UserLevels[j], points))
  {
    LevelTableShape();
    assert UserLevels[i].maxPoints.Some?;
    assert UserLevels[i].maxPoints.value < UserLevels[i + 1].minPoints <= UserLevels[j].minPoints;
  }

  /** When some level holds the points, getUserLevel returns it (and it is unique). */
  lemma GetUserLevelMatches(points: real, i: nat)
    requires i < |UserLevels| && InRange(UserLevels[i], points)
    ensures GetUserLevel(points) == UserLevels[i]
  {
    var r := FirstInRange(UserLevels, points);
    assert r.Some?;
    if r.value < i {
      RangesDisjoint(points, r.value, i);
    }
  }

  /** With no matching level the lookup falls back to the first level. */
  lemma GetUserLevelFallback(points: real)
    requires forall j :: 0 <= j < |UserLevels| ==> !InRange(UserLevels[j], points)
    ensures GetUserLevel(points) == UserLevels[0]
  {
  }

  /** Negative points and points in the gap between two integer ranges (such as 99.5)
      match no level and fall back to level 1. */
  lemma UnmatchedPointsFallBack(points: real)
    requires points < 0.0 || (99.0 < points < 100.0) || (299.0 < points < 300.0)
      || (599.0 < points < 600.0) || (999.0 < points < 1000.0) || (1999.0 < points < 2000.0)
    ensures forall j :: 0 <= j < |UserLevels| ==> !InRange(UserLevels[j], points)
    ensures GetUserLevel(points) == UserLevels[0] && GetUserLevel(points).level == 1
  {
    LevelTableShape();
  }

  /** Every whole number of points from 0 up is held by exactly one level,
      and getUserLevel returns that level. */
  lemma IntegerPointsHaveALevel(n: int)
    requires n >= 0
    ensures exists i :: 0 <= i < |UserLevels| && InRange(UserLevels[i], n as real)
    ensures InRange(GetUserLevel(n as real), n as real)
  {
    LevelTableShape();
    var i := if n < 100 then 0 else if n < 300 then 1 else if n < 600 then 2
             else if n < 1000 then 3 else if n < 2000 then 4 else 5;
    assert InRange(UserLevels[i], n as real);
    GetUserLevelMatches(n as real, i);
  }

  /** From 2000 points on, the level is 6 and has no upper bound. */
  lemma TopLevel(points: real)
    requires points >= 2000.0
    ensures GetUserLevel(points).level == 6 && GetUserLevel(points).maxPoints.None?
  {
    LevelTableShape();
    assert InRange(UserLevels[5], points);
    GetUserLevelMatches(points, 5);
  }
}
