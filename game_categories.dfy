/** The category labels of the game and the shape of a catalog word. */
module GameCategories {
  import opened Js

  /** The labels, in the order the setup screen lists them. */
  const GameCategoryLabels: seq<string> := [
    "✏️ Custom",
    "📍 Places",
    "🎬 Movies & TV Shows",
    "💼 Professions",
    "🍔 Food & Drinks",
    "⚽ Sports & Activities",
    "🐾 Animals",
    "🚗 Vehicles",
    "📱 Technology & Gadgets",
    "🎨 Hobbies & Interests",
    "🏠 Household Objects"
  ]

  /** The categories, one per label. */
  datatype GameCategory =
    | Custom | Places | MoviesAndTvShows | Professions | FoodAndDrinks
    | SportsAndActivities | Animals | Vehicles | TechnologyAndGadgets
    | HobbiesAndInterests | HouseholdObjects

  /** The categories in the order of their labels. */
  const GameCategoryList: seq<GameCategory> := [
    Custom, Places, MoviesAndTvShows, Professions, FoodAndDrinks,
    SportsAndActivities, Animals, Vehicles, TechnologyAndGadgets,
    HobbiesAndInterests, HouseholdObjects
  ]

  /** Where a category stands in the list. */
  function Position(c: GameCategory): (i: nat)
    ensures i < |GameCategoryList| && GameCategoryList[i] == c
  {
    match c
    case Custom => 0
    case Places => 1
    case MoviesAndTvShows => 2
    case Professions => 3
    case FoodAndDrinks => 4
    case SportsAndActivities => 5
    case Animals => 6
    case Vehicles => 7
    case TechnologyAndGadgets => 8
    case HobbiesAndInterests => 9
    case HouseholdObjects => 10
  }

  /** The label a category is known by; Custom is the reserved label under
      which the players supply their own topics. */
  function Label(c: GameCategory): string {
    GameCategoryLabels[Position(c)]
  }

  /** An entry of the word catalog: its category is one of the labels. */
  datatype GameWord = GameWord(word: string, clue: string, category: GameCategory)

  /** Every category is listed once, Custom first. */
  lemma CategoryList()
    ensures |GameCategoryList| == 11 && GameCategoryList[0] == Custom
    ensures NoDuplicates(GameCategoryList)
    ensures forall c :: c in GameCategoryList
  {
    forall c ensures c in GameCategoryList {
      assert GameCategoryList[Position(c)] == c;
    }
  }

  /** No label is listed twice. */
  lemma LabelsDistinct()
    ensures forall i, j :: 0 <= i < j < |GameCategoryLabels| ==> GameCategoryLabels[i] != GameCategoryLabels[j]
  {
    forall i, j | 0 <= i < j < |GameCategoryLabels|
      ensures GameCategoryLabels[i] != GameCategoryLabels[j]
    {
      assert GameCategoryLabels[i][0] != GameCategoryLabels[j][0];
    }
  }

  /** Each category is listed at the position of its label; no two
      categories share a label, and every label names a category. */
  lemma CategoryLabels()
    ensures |GameCategoryLabels| == 11
    ensures forall i :: 0 <= i < |GameCategoryList| ==> Label(GameCategoryList[i]) == GameCategoryLabels[i]
    ensures forall c, d :: Label(c) == Label(d) ==> c == d
    ensures forall s :: s in GameCategoryLabels ==> exists c :: Label(c) == s
  {
    LabelsDistinct();
    forall i | 0 <= i < |GameCategoryList|
      ensures Label(GameCategoryList[i]) == GameCategoryLabels[i]
    {
      assert Position(GameCategoryList[i]) == i;
    }
    forall s | s in GameCategoryLabels
      ensures exists c :: Label(c) == s
    {
      var i :| 0 <= i < |GameCategoryLabels| && GameCategoryLabels[i] == s;
      assert Label(GameCategoryList[i]) == s;
    }
  }
}
