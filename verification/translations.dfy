/** The Arabic-to-English label table used to canonicalise the answers of an
    Arabic session before they are sent, and the translation of one label. */
module Translations {
  import opened Wrappers
  import opened Catalog

  /** `answerTranslationMap[s]`: the English label for an Arabic option label.
      Keys are Arabic and values are English, so no value is itself a key.
      The key "أبداً" is listed once and serves both the smoking and the
      energy-drink question. */
  function Lookup(s: string): (e: Option<string>)
    ensures e.Some? ==> ArabicScript(s) && !ArabicScript(e.value)
  {
    match s
    case "ذكر" => Some("Male")
    case "أنثى" => Some("Female")
    case "0 أيام" => Some("0 days")
    case "1-2 يوم" => Some("1-2 days")
    case "3-4 أيام" => Some("3-4 days")
    case "5+ أيام" => Some("5+ days")
    case "0 حصص" => Some("0 servings")
    case "1-2 حصة" => Some("1-2 servings")
    case "3-4 حصص" => Some("3-4 servings")
    case "5+ حصص" => Some("5+ servings")
    case "أبداً" => Some("Never")
    case "أحياناً" => Some("Occasionally")
    case "بانتظام" => Some("Regularly")
    case "مدخن سابق" => Some("Former smoker")
    case "منخفض" => Some("Low")
    case "متوسط" => Some("Moderate")
    case "مرتفع" => Some("High")
    case "مرتفع جداً" => Some("Very High")
    case "لا يوجد" => Some("None")
    case "حالة واحدة" => Some("1 condition")
    case "حالتين" => Some("2 conditions")
    case "3 حالات أو أكثر" => Some("3 or more conditions")
    case "أقل من 1 لتر" => Some("Less than 1 liter")
    case "1-2 لتر" => Some("1-2 liters")
    case "2-3 لتر" => Some("2-3 liters")
    case "أكثر من 3 لتر" => Some("More than 3 liters")
    case "نادراً أو أبداً" => Some("Rarely or never")
    case "1-2 مرة في الشهر" => Some("1-2 times per month")
    case "1-2 مرة في الأسبوع" => Some("1-2 times per week")
    case "3 مرات أو أكثر في الأسبوع" => Some("3 or more times per week")
    case "لا شيء" => Some("None")
    case "فنجان واحد" => Some("1 cup")
    case "2-3 فناجين" => Some("2-3 cups")
    case "4 فناجين أو أكثر" => Some("4 or more cups")
    case "أحياناً (1-2 مرة في الشهر)" => Some("Occasionally (1–2 times per month)")
    case "أسبوعياً (1-3 مرات في الأسبوع)" => Some("Weekly (1–3 times per week)")
    case "يومياً أو تقريباً يومياً" => Some("Daily or almost daily")
    case _ => None
  }

  /** Every Arabic option of `q` is a key whose value is the English option
      at the same position. */
  predicate TranslatesPositionally(q: Question)
  {
    forall i :: 0 <= i < |OptionsIn(q, Ar)| && i < |OptionsIn(q, En)| ==> Lookup(OptionsIn(q, Ar)[i]) == Some(OptionsIn(q, En)[i])
  }

  // The table pairs the options of each select question by position, one question per lemma.
  lemma GenderPairs() ensures TranslatesPositionally(Gender) {}
  lemma ActivityDaysPairs() ensures TranslatesPositionally(ActivityDays) {}
  lemma NutritionServingsPairs() ensures TranslatesPositionally(NutritionServings) {}
  lemma SmokingPairs() ensures TranslatesPositionally(Smoking) {}
  lemma StressPairs() ensures TranslatesPositionally(Stress) {}
  lemma ChronicConditionsPairs() ensures TranslatesPositionally(ChronicConditions) {}
  lemma WaterPairs() ensures TranslatesPositionally(Water) {}
  lemma FastFoodPairs() ensures TranslatesPositionally(FastFood) {}
  lemma CoffeePairs() ensures TranslatesPositionally(Coffee) {}
  lemma EnergyDrinksPairs() ensures TranslatesPositionally(EnergyDrinks) {}

  /** The table holds the positional pairing of every catalog question. */
  lemma CatalogPairing()
    ensures forall q :: q in Questions() ==> TranslatesPositionally(q)
  {
    GenderPairs();
    ActivityDaysPairs();
    NutritionServingsPairs();
    SmokingPairs();
    StressPairs();
    ChronicConditionsPairs();
    WaterPairs();
    FastFoodPairs();
    CoffeePairs();
    EnergyDrinksPairs();
  }

  /** `s` is the Arabic option at some position of a catalog question whose English option there is `t`. */
  ghost predicate CatalogPair(s: string, t: string)
  {
    exists q, i :: q in Questions() && 0 <= i < |OptionsIn(q, Ar)| && i < |OptionsIn(q, En)| && OptionsIn(q, Ar)[i] == s && OptionsIn(q, En)[i] == t
  }

  lemma PairFromQuestion(q: Question, s: string)
    requires q in Questions() && TranslatesPositionally(q) && s in OptionsIn(q, Ar)
    ensures Lookup(s).Some? && CatalogPair(s, Lookup(s).value)
  {
    var i :| 0 <= i < |OptionsIn(q, Ar)| && OptionsIn(q, Ar)[i] == s;
  }

  /** Conversely, every entry of the table is such a positional pair: the
      table is exactly the catalog's Arabic-to-English pairing. */
  lemma EntriesFromCatalog(s: string)
    requires Lookup(s).Some?
    ensures CatalogPair(s, Lookup(s).value)
  {
    CatalogPairing();
    if s in OptionsIn(Gender, Ar) {
      PairFromQuestion(Gender, s);
    } else if s in OptionsIn(ActivityDays, Ar) {
      PairFromQuestion(ActivityDays, s);
    } else if s in OptionsIn(NutritionServings, Ar) {
      PairFromQuestion(NutritionServings, s);
    } else if s in OptionsIn(Smoking, Ar) {
      PairFromQuestion(Smoking, s);
    } else if s in OptionsIn(Stress, Ar) {
      PairFromQuestion(Stress, s);
    } else if s in OptionsIn(ChronicConditions, Ar) {
      PairFromQuestion(ChronicConditions, s);
    } else if s in OptionsIn(Water, Ar) {
      PairFromQuestion(Water, s);
    } else if s in OptionsIn(FastFood, Ar) {
      PairFromQuestion(FastFood, s);
    } else if s in OptionsIn(Coffee, Ar) {
      PairFromQuestion(Coffee, s);
    } else if s in OptionsIn(EnergyDrinks, Ar) {
      PairFromQuestion(EnergyDrinks, s);
    } else {
      assert false;
    }
  }
}
