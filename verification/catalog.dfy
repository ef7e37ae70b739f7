/** The fixed question catalog: fourteen questions, each with option labels in
    English and Arabic, an input kind, bounds, a required flag and an optional
    numeric validator. Display texts are not modelled. */
module Catalog {
  import opened Wrappers
  import opened Answers

  datatype Language = En | Ar

  datatype Kind = Text | Number | Select | Slider

  datatype Category = Personal | Bmi | Sleep | Activity | Nutrition | Lifestyle | Conditions

  /** Every validator in the catalog has the shape `value >= lo && value <= hi`. */
  datatype Range = Range(lo: real, hi: real) {
    predicate Accepts(x: real)
    {
      x >= lo && x <= hi
    }
  }

  datatype Question = Question(
    id: string,
    enOptions: Option<seq<string>>,
    arOptions: Option<seq<string>>,
    kind: Kind,
    min: Option<real>,
    max: Option<real>,
    step: Option<real>,
    required: bool,
    category: Category,
    validation: Option<Range>)

  /** The option labels shown in `lang`; empty for questions without options. */
  function OptionsIn(q: Question, lang: Language): seq<string>
  {
    match lang
    case En => q.enOptions.GetOr([])
    case Ar => q.arOptions.GetOr([])
  }

  /** The answer is one of the question's option labels, in either language. */
  predicate Offered(q: Question, a: Option<Answer>)
  {
    a.Some? && a.value.Str? && (a.value.text in OptionsIn(q, En) || a.value.text in OptionsIn(q, Ar))
  }

  /** `v` is what a classification by option position gives for answer `a`:
      the English option and the Arabic option at position i both give
      `table[i]`, and anything that is not an option gives `default`. */
  predicate ByPosition<T(==)>(q: Question, table: seq<T>, default: T, a: Option<Answer>, v: T)
  {
    && (forall i :: 0 <= i < |table| && i < |OptionsIn(q, En)| && a == Some(Str(OptionsIn(q, En)[i])) ==> v == table[i])
    && (forall i :: 0 <= i < |table| && i < |OptionsIn(q, Ar)| && a == Some(Str(OptionsIn(q, Ar)[i])) ==> v == table[i])
    && (!Offered(q, a) ==> v == default)
  }

  const Gender := Question("gender",
    Some(["Male", "Female"]),
    Some(["ذكر", "أنثى"]),
    Select, None, None, None, true, Personal, None)

  const Age := Question("age", None, None,
    Number, Some(10.0), Some(120.0), None, true, Personal, Some(Range(10.0, 120.0)))

  const Height := Question("height", None, None,
    Number, Some(100.0), Some(300.0), None, true, Bmi, Some(Range(100.0, 300.0)))

  const Weight := Question("weight", None, None,
    Number, Some(30.0), Some(400.0), None, true, Bmi, Some(Range(30.0, 400.0)))

  const SleepHours := Question("sleepHours", None, None,
    Slider, Some(2.0), Some(12.0), Some(0.5), true, Sleep, None)

  const ActivityDays := Question("activityDays",
    Some(["0 days", "1-2 days", "3-4 days", "5+ days"]),
    Some(["0 أيام", "1-2 يوم", "3-4 أيام", "5+ أيام"]),
    Select, None, None, None, true, Activity, None)

  const NutritionServings := Question("nutritionServings",
    Some(["0 servings", "1-2 servings", "3-4 servings", "5+ servings"]),
    Some(["0 حصص", "1-2 حصة", "3-4 حصص", "5+ حصص"]),
    Select, None, None, None, true, Nutrition, None)

  const Smoking := Question("smoking",
    Some(["Never", "Occasionally", "Regularly", "Former smoker"]),
    Some(["أبداً", "أحياناً", "بانتظام", "مدخن سابق"]),
    Select, None, None, None, true, Lifestyle, None)

  const Stress := Question("stress",
    Some(["Low", "Moderate", "High", "Very High"]),
    Some(["منخفض", "متوسط", "مرتفع", "مرتفع جداً"]),
    Select, None, None, None, true, Lifestyle, None)

  const ChronicConditions := Question("conditions",
    Some(["None", "1 condition", "2 conditions", "3 or more conditions"]),
    Some(["لا يوجد", "حالة واحدة", "حالتين", "3 حالات أو أكثر"]),
    Select, None, None, None, true, Conditions, None)

  const Water := Question("water",
    Some(["Less than 1 liter", "1-2 liters", "2-3 liters", "More than 3 liters"]),
    Some(["أقل من 1 لتر", "1-2 لتر", "2-3 لتر", "أكثر من 3 لتر"]),
    Select, None, None, None, true, Lifestyle, None)

  const FastFood := Question("fastFood",
    Some(["Rarely or never", "1-2 times per month", "1-2 times per week", "3 or more times per week"]),
    Some(["نادراً أو أبداً", "1-2 مرة في الشهر", "1-2 مرة في الأسبوع", "3 مرات أو أكثر في الأسبوع"]),
    Select, None, None, None, true, Lifestyle, None)

  const Coffee := Question("coffee",
    Some(["None", "1 cup", "2-3 cups", "4 or more cups"]),
    Some(["لا شيء", "فنجان واحد", "2-3 فناجين", "4 فناجين أو أكثر"]),
    Select, None, None, None, true, Lifestyle, None)

  const EnergyDrinks := Question("energyDrinks",
    Some(["Never", "Occasionally (1–2 times per month)", "Weekly (1–3 times per week)", "Daily or almost daily"]),
    Some(["أبداً", "أحياناً (1-2 مرة في الشهر)", "أسبوعياً (1-3 مرات في الأسبوع)", "يومياً أو تقريباً يومياً"]),
    Select, None, None, None, true, Lifestyle, None)

  /** Position `i` of `s` holds a letter of the Arabic block. */
  predicate ArabicAt(s: string, i: nat)
  {
    i < |s| && '\U{0600}' <= s[i] <= '\U{06FF}'
  }

  /** The label is written in Arabic script: its first or its last character
      is Arabic. True of every Arabic option label and of no English one. */
  predicate ArabicScript(s: string)
  {
    |s| > 0 && (ArabicAt(s, 0) || ArabicAt(s, |s| - 1))
  }

  /** The labels of one language are pairwise distinct. */
  predicate DistinctLabels(opts: seq<string>)
  {
    forall i, j :: 0 <= i < j < |opts| ==> opts[i] != opts[j]
  }

  /** A select question offers the same number of options in both languages,
      paired by position (two for gender, four for every other question),
      each language's labels distinct, the English ones in Latin script and
      the Arabic ones in Arabic script; other kinds offer no options. */
  predicate WellFormedOptions(q: Question)
  {
    if q.kind == Select then
      && q.enOptions.Some? && q.arOptions.Some?
      && |OptionsIn(q, En)| == |OptionsIn(q, Ar)| == (if q.id == "gender" then 2 else 4)
      && DistinctLabels(OptionsIn(q, En)) && DistinctLabels(OptionsIn(q, Ar))
      && (forall s :: s in OptionsIn(q, En) ==> !ArabicScript(s))
      && (forall s :: s in OptionsIn(q, Ar) ==> ArabicScript(s))
    else
      q.enOptions.None? && q.arOptions.None?
  }

  /** Only number questions carry a validator, and each validator accepts
      exactly the closed range declared by the question's `min`/`max`. */
  predicate WellFormedValidation(q: Question)
  {
    && (q.validation.Some? <==> q.kind == Number)
    && (q.validation.Some? ==> q.min == Some(q.validation.value.lo) && q.max == Some(q.validation.value.hi))
  }

  /** The question ids, in display order; pairwise distinct (see `IdsDistinct`). */
  const Ids: seq<string> := ["gender", "age", "height", "weight", "sleepHours", "activityDays",
    "nutritionServings", "smoking", "stress", "conditions", "water", "fastFood", "coffee", "energyDrinks"]

  /** The catalog, in display order: its ids are `Ids`, it ends with the
      energy-drink question, and `CatalogWellFormed` states the rest. */
  function Questions(): (qs: seq<Question>)
    ensures |qs| == |Ids| == 14
    ensures forall i :: 0 <= i < |qs| ==> qs[i].id == Ids[i]
    ensures qs[|qs| - 1] == EnergyDrinks
  {
    [Gender, Age, Height, Weight, SleepHours, ActivityDays, NutritionServings,
     Smoking, Stress, ChronicConditions, Water, FastFood, Coffee, EnergyDrinks]
  }

  /** Every question of the catalog is required, and its options and its
      validator are well formed. */
  lemma {:induction false} CatalogWellFormed()
    ensures forall q :: q in Questions() ==> q.required && WellFormedOptions(q) && WellFormedValidation(q)
  {
    var qs := Questions();
    forall i | 0 <= i < |qs|
      ensures qs[i].required && WellFormedOptions(qs[i]) && WellFormedValidation(qs[i])
    {
      if i == 0 { GenderWellFormed(); }
      else if i == 5 { ActivityDaysWellFormed(); }
      else if i == 6 { NutritionServingsWellFormed(); }
      else if i == 7 { SmokingWellFormed(); }
      else if i == 8 { StressWellFormed(); }
      else if i == 9 { ChronicConditionsWellFormed(); }
      else if i == 10 { WaterWellFormed(); }
      else if i == 11 { FastFoodWellFormed(); }
      else if i == 12 { CoffeeWellFormed(); }
      else if i == 13 { EnergyDrinksWellFormed(); }
    }
  }

  /** One catalog question is well formed. */
  lemma MemberWellFormed(q: Question)
    requires q in Questions()
    ensures q.required && WellFormedOptions(q) && WellFormedValidation(q)
  {
    CatalogWellFormed();
  }

  /** A catalog question offers as many options in English as in Arabic. */
  lemma SameOptionCount(q: Question)
    requires q in Questions()
    ensures |OptionsIn(q, En)| == |OptionsIn(q, Ar)|
  {
    MemberWellFormed(q);
  }

  /** Every select question is in the catalog, at its display position. */
  lemma CatalogMembers()
    ensures Questions()[0] == Gender && Questions()[5] == ActivityDays && Questions()[6] == NutritionServings
    ensures Questions()[7] == Smoking && Questions()[8] == Stress && Questions()[9] == ChronicConditions
    ensures Questions()[10] == Water && Questions()[11] == FastFood && Questions()[12] == Coffee
    ensures Gender in Questions() && ActivityDays in Questions() && NutritionServings in Questions()
    ensures Smoking in Questions() && Stress in Questions() && ChronicConditions in Questions()
    ensures Water in Questions() && FastFood in Questions() && Coffee in Questions() && EnergyDrinks in Questions()
  {
  }

  /** No two questions of the catalog share an id, so an answer set keyed by
      id holds at most one answer per question. */
  lemma IdsDistinct()
    ensures DistinctLabels(Ids)
    ensures forall i, j :: 0 <= i < j < |Questions()| ==> Questions()[i].id != Questions()[j].id
  {
  }

  // The option lists of each select question are well formed, one question per lemma.
  lemma GenderWellFormed() ensures WellFormedOptions(Gender) {}
  lemma ActivityDaysWellFormed() ensures WellFormedOptions(ActivityDays) {}
  lemma NutritionServingsWellFormed() ensures WellFormedOptions(NutritionServings) {}
  lemma SmokingWellFormed() ensures WellFormedOptions(Smoking) {}
  lemma StressWellFormed() ensures WellFormedOptions(Stress) {}
  lemma ChronicConditionsWellFormed() ensures WellFormedOptions(ChronicConditions) {}
  lemma WaterWellFormed() ensures WellFormedOptions(Water) {}
  lemma FastFoodWellFormed() ensures WellFormedOptions(FastFood) {}
  lemma CoffeeWellFormed() ensures WellFormedOptions(Coffee) {}
  lemma EnergyDrinksWellFormed() ensures WellFormedOptions(EnergyDrinks) {}

  /** The number questions validate exactly [10,120] years, [100,300] cm and
      [30,400] kg; the sleep slider spans [2,12] in half-hour steps with no
      validator, so the validator check never applies to it. */
  lemma ValidatorRanges()
    ensures forall x: real :: Age.validation.value.Accepts(x) <==> 10.0 <= x <= 120.0
    ensures forall x: real :: Height.validation.value.Accepts(x) <==> 100.0 <= x <= 300.0
    ensures forall x: real :: Weight.validation.value.Accepts(x) <==> 30.0 <= x <= 400.0
    ensures SleepHours.kind == Slider && SleepHours.validation.None?
    ensures SleepHours.min == Some(2.0) && SleepHours.max == Some(12.0) && SleepHours.step == Some(0.5)
  {
  }
}
