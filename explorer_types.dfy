/** The World Explorer's record types: wonders, their tags, and a student's exploration progress. */
module ExplorerTypes {
  import opened Wrappers

  datatype WonderCategory = NATURAL | MAN_MADE {
    /** The enum's string value. */
    function Value(): string {
      match this
      case NATURAL => "natural"
      case MAN_MADE => "man-made"
    }
  }

  datatype WonderContinent = AFRICA | ASIA | EUROPE | AMERICAS | OCEANIA {
    function Value(): string {
      match this
      case AFRICA => "Africa"
      case ASIA => "Asia"
      case EUROPE => "Europe"
      case AMERICAS => "Americas"
      case OCEANIA => "Oceania"
    }
  }

  datatype BadgeType =
    | OCEAN_FINDER | HISTORY_HERO | MOUNTAIN_MASTER | NATURE_EXPLORER
    | ANCIENT_WONDER | MODERN_MARVEL | DESERT_DISCOVERER | FOREST_FRIEND
  {
    function Value(): string {
      match this
      case OCEAN_FINDER => "Ocean Finder"
      case HISTORY_HERO => "History Hero"
      case MOUNTAIN_MASTER => "Mountain Master"
      case NATURE_EXPLORER => "Nature Explorer"
      case ANCIENT_WONDER => "Ancient Wonder"
      case MODERN_MARVEL => "Modern Marvel"
      case DESERT_DISCOVERER => "Desert Discoverer"
      case FOREST_FRIEND => "Forest Friend"
    }
  }

  const Categories: seq<WonderCategory> := [NATURAL, MAN_MADE]
  const Continents: seq<WonderContinent> := [AFRICA, ASIA, EUROPE, AMERICAS, OCEANIA]
  const BadgeTypes: seq<BadgeType> :=
    [OCEAN_FINDER, HISTORY_HERO, MOUNTAIN_MASTER, NATURE_EXPLORER,
     ANCIENT_WONDER, MODERN_MARVEL, DESERT_DISCOVERER, FOREST_FRIEND]

  /** There are exactly two categories, with distinct string values. */
  lemma CategoriesListed()
    ensures |Categories| == 2
    ensures forall c: WonderCategory :: c in Categories
    ensures forall i, j :: 0 <= i < j < |Categories| ==> Categories[i].Value() != Categories[j].Value()
  {
    forall c: WonderCategory ensures c in Categories {
      match c
      case NATURAL => assert Categories[0] == c;
      case MAN_MADE => assert Categories[1] == c;
    }
  }

  /** There are exactly five continents, with distinct string values. */
  lemma ContinentsListed()
    ensures |Continents| == 5
    ensures forall c: WonderContinent :: c in Continents
    ensures forall i, j :: 0 <= i < j < |Continents| ==> Continents[i].Value() != Continents[j].Value()
  {
    forall c: WonderContinent ensures c in Continents {
      match c
      case AFRICA => assert Continents[0] == c;
      case ASIA => assert Continents[1] == c;
      case EUROPE => assert Continents[2] == c;
      case AMERICAS => assert Continents[3] == c;
      case OCEANIA => assert Continents[4] == c;
    }
  }

  /** There are exactly eight badge types, with distinct string values. */
  lemma BadgeTypesListed()
    ensures |BadgeTypes| == 8
    ensures forall b: BadgeType :: b in BadgeTypes
    ensures forall i, j :: 0 <= i < j < |BadgeTypes| ==> BadgeTypes[i].Value() != BadgeTypes[j].Value()
  {
    forall b: BadgeType ensures b in BadgeTypes {
      match b
      case OCEAN_FINDER => assert BadgeTypes[0] == b;
      case HISTORY_HERO => assert BadgeTypes[1] == b;
      case MOUNTAIN_MASTER => assert BadgeTypes[2] == b;
      case NATURE_EXPLORER => assert BadgeTypes[3] == b;
      case ANCIENT_WONDER => assert BadgeTypes[4] == b;
      case MODERN_MARVEL => assert BadgeTypes[5] == b;
      case DESERT_DISCOVERER => assert BadgeTypes[6] == b;
      case FOREST_FRIEND => assert BadgeTypes[7] == b;
    }
  }

  /** A wonder: its badges and three independent flags (unlocked, visited, favourite). */
  datatype Wonder = Wonder(
    id: string,
    country: string,
    name: string,
    description: string,
    category: WonderCategory,
    continent: WonderContinent,
    latitude: real,
    longitude: real,
    imageUrl: Option<string>,
    isNew: Option<bool>,
    badges: seq<BadgeType>,
    isUnlocked: bool,
    isVisited: bool,
    isFavorite: bool)

  /** One earned badge. */
  datatype Badge = Badge(badgeType: BadgeType, earnedAt: string, isNew: bool)

  /** A student's exploration progress; `favorites` holds wonder ids. */
  datatype StudentProgress = StudentProgress(
    studentId: string,
    wondersVisited: int,
    totalWonders: int,
    badges: seq<Badge>,
    favorites: seq<string>,
    currentStreak: int,
    quizScore: int)
}
