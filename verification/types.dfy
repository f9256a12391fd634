/**
 * The record shapes of the application (src/types/index.ts), with the
 * enumerated string unions as datatypes. Dates are millisecond timestamps.
 */
module Types {
  import opened Wrappers

  /** A `[latitude, longitude]` pair in decimal degrees. */
  type Coord = (real, real)

  /**
   * The great-circle leg distance in kilometres. The haversine formula on
   * floating point is not modelled: any non-negative function of two
   * coordinates may play its part.
   */
  type LegDistance = f: (Coord, Coord) -> real | forall a, b :: f(a, b) >= 0.0
    witness (a: Coord, b: Coord) => 0.0

  datatype TagCategory = Personalities | Themes | Formats

  datatype Tag = Tag(id: string, name: string, category: TagCategory, icon: string)

  datatype PlaceCategory = Gastronomy | Attractions | Interesting | Culture | Nature | Shopping | Nightlife

  /** The string a category has in the catalog and in collection items. */
  function PlaceCategoryId(c: PlaceCategory): string {
    match c
    case Gastronomy => "gastronomy"
    case Attractions => "attractions"
    case Interesting => "interesting"
    case Culture => "culture"
    case Nature => "nature"
    case Shopping => "shopping"
    case Nightlife => "nightlife"
  }

  datatype BusinessInfo = BusinessInfo(
    name: string,
    phone: Option<string>,
    website: Option<string>,
    workingHours: Option<string>,
    isPremium: bool)

  datatype Place = Place(
    id: string,
    name: string,
    description: string,
    coordinates: Coord,
    category: PlaceCategory,
    tags: seq<string>,
    rating: real,
    photos: seq<string>,
    businessInfo: Option<BusinessInfo>)

  datatype Difficulty = Easy | Medium | Hard

  datatype Route = Route(
    id: string,
    name: string,
    places: seq<Place>,
    distance: real,
    duration: real,
    difficulty: Difficulty,
    tags: seq<string>,
    description: Option<string>,
    createdAt: Option<int>)

  datatype PredefinedRoute = PredefinedRoute(
    id: string,
    name: string,
    description: string,
    category: string,
    rating: real,
    duration: real,
    difficulty: Difficulty,
    places: seq<Place>,
    tags: seq<string>)

  datatype CollectionItem = CollectionItem(
    id: string,
    placeId: string,
    name: string,
    category: string,
    scannedAt: int,
    photo: Option<string>)

  datatype Achievement = Achievement(
    id: string,
    name: string,
    description: string,
    icon: string,
    unlockedAt: Option<int>,
    progress: int,
    maxProgress: int)

  datatype Coupon = Coupon(
    id: string,
    businessName: string,
    discount: int,
    description: string,
    validUntil: int,
    qrCode: string,
    isUsed: bool,
    promoCode: Option<string>)

  datatype UserStats = UserStats(
    totalScanned: int,
    routesCompleted: int,
    distanceWalked: real,
    achievements: seq<Achievement>,
    coupons: seq<Coupon>)

  datatype Urgency = LowUrgency | MediumUrgency | HighUrgency

  /** A quest; an absent `isPush` is `false`. */
  datatype Quest = Quest(
    id: string,
    title: string,
    description: string,
    businessName: string,
    businessId: string,
    rewardPoints: int,
    validUntil: int,
    isActive: bool,
    isPush: bool,
    urgency: Option<Urgency>,
    requiresGeolocation: bool)

  /** A user level; an absent `maxPoints` stands for `Infinity`. */
  datatype UserLevel = UserLevel(
    level: nat,
    name: string,
    minPoints: int,
    maxPoints: Option<int>,
    privileges: seq<string>,
    badge: string,
    color: string,
    icon: string)

  datatype LeaderboardEntry = LeaderboardEntry(
    userId: string,
    username: string,
    points: int,
    level: UserLevel,
    achievements: int,
    completedQuests: int)

  datatype EventCategory = CultureEvent | FoodEvent | EntertainmentEvent | SportEvent | EducationEvent

  function EventCategoryId(c: EventCategory): string {
    match c
    case CultureEvent => "culture"
    case FoodEvent => "food"
    case EntertainmentEvent => "entertainment"
    case SportEvent => "sport"
    case EducationEvent => "education"
  }

  datatype Event = Event(
    id: string,
    title: string,
    description: string,
    locationName: string,
    locationCoordinates: Coord,
    startDate: int,
    endDate: int,
    category: EventCategory,
    organizer: string,
    price: Option<int>,
    maxParticipants: Option<int>,
    currentParticipants: int,
    images: seq<string>,
    isActive: bool)
}
